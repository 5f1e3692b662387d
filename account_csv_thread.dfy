/**
 * The account chunk worker: scan the account records numbered startRecord to endRecord,
 * check each one in a fixed order (account number, account type, existing customer,
 * balance within the record's own limit) and insert the accepted ones into the accounts table.
 */
module AccountCsvThread {
  import opened Base
  import opened JavaLib
  import opened AccountTypes
  import opened AccountMethods
  import opened Scheduling
  import opened Sink
  import opened Chunk

  /** The fields read before the customer-existence query. */
  datatype AccountHead = AccountHead(accountNumber: string, accountType: AccountType, accountCustomerId: int)

  /**
   * Columns 1 to 3 with their checks, in the worker's order. Success(None): a check failed
   * and the record is skipped; Failure: `get`, `valueOf` or `parseInt` threw.
   */
  function ReadHead(r: Record): (h: Result<Option<AccountHead>, ChunkError>)
    ensures h.Success? && h.value.Some? ==>
      |r| > 3 && h.value.value.accountNumber == r[1] && ValidAccountNumber(r[1]) &&
      ValueOf(r[2]) == Some(h.value.value.accountType) && ParseInt(r[3]) == Some(h.value.value.accountCustomerId)
  {
    var accountNumber :- Field(r, 1);
    if !ValidAccountNumber(accountNumber) then Success(None)
    else
      var token :- Field(r, 2);
      match ValueOf(token)
      case None => Failure(IllegalArgument)
      case Some(accountType) =>
        // `validateAccountType` runs on what `valueOf` returned, which is never null:
        // this branch is dead, kept because the worker makes the check.
        if !ValidAccountType(Some(accountType)) then Success(None)
        else
          var accountCustomerId :- IntField(r, 3);
          Success(Some(AccountHead(accountNumber, accountType, accountCustomerId)))
  }

  /**
   * Columns 4, 6 and 5 once the customer is known to exist: limit, balance, the balance
   * check, then the open date, and the row that is written (the type as its code).
   */
  function ReadTail(r: Record, h: AccountHead): (t: Result<Option<AccountRow>, ChunkError>)
    ensures t.Success? && t.value.Some? ==>
      |r| > 6 && ParseInt(r[4]).Some? && ParseInt(r[6]).Some? && ParseDate(r[5]).Some? &&
      ValidAccountBalance(ParseInt(r[4]).value, ParseInt(r[6]).value) &&
      t.value.value == AccountRow(h.accountNumber, Code(h.accountType), h.accountCustomerId,
                                  ParseInt(r[4]).value, ParseDate(r[5]).value, ParseInt(r[6]).value)
  {
    var accountLimit :- IntField(r, 4);
    var accountBalance :- IntField(r, 6);
    if !ValidAccountBalance(accountLimit, accountBalance) then Success(None)
    else
      var accountOpenDate :- DateField(r, 5);
      Success(Some(AccountRow(h.accountNumber, Code(h.accountType), h.accountCustomerId,
                              accountLimit, accountOpenDate, accountBalance)))
  }

  /** One pass of the loop body on an in-range record. */
  function AccountStep(fault: Fault, r: Record, db: Db): Step
  {
    match ReadHead(r)
    case Failure(e) => Stop(e)
    case Success(None) => Next(db)
    case Success(Some(h)) =>
      match QueryCustomerId(db, fault, h.accountCustomerId)
      case None => Stop(SqlError)
      case Some(false) => Next(db)
      case Some(true) =>
        match ReadTail(r, h)
        case Failure(e) => Stop(e)
        case Success(None) => Next(db)
        case Success(Some(row)) =>
          match InsertAccount(db, fault, row)
          case None => Stop(SqlError)
          case Some(db') => Next(db')
  }

  function AccountStepFn(fault: Fault): (Record, Db) -> Step
  {
    (r, db) => AccountStep(fault, r, db)
  }

  /**
   * The loop body of `execute` on an in-range record: None when it falls through to the
   * next record, Some(e) when exception e leaves it (the store is then as it was).
   */
  method ProcessRecord(records: Record, store: Store) returns (thrown: Option<ChunkError>)
    modifies store
    ensures (if thrown.None? then Next(store.db) else Stop(thrown.value)) ==
      AccountStep(store.fault, records, old(store.db))
    ensures thrown.Some? ==> store.db == old(store.db)
  {
    var head := ReadHead(records);
    if head.Failure? {
      return Some(head.error);
    }
    if head.value.None? {
      return None;
    }
    var h := head.value.value;
    var customerExists := store.CustomerIdIsExist(h.accountCustomerId);
    if customerExists.None? {
      return Some(SqlError);
    }
    if !customerExists.value {
      return None;
    }
    var tail := ReadTail(records, h);
    if tail.Failure? {
      return Some(tail.error);
    }
    if tail.value.None? {
      return None;
    }
    var written := store.WriteAccount(tail.value.value);
    if !written {
      return Some(SqlError);
    }
    return None;
  }

  /**
   * `execute`: the file may fail to open; the 1-based counter skips records below
   * startRecord and leaves the loop at the first one above endRecord; any exception
   * ends the chunk, with the rows written so far kept.
   */
  method Execute(file: Option<seq<Record>>, job: JobDetail, store: Store) returns (outcome: Outcome)
    modifies store
    ensures ChunkResult(store.db, outcome) ==
      RunChunk(file, job.startRecord, job.endRecord, old(store.db), AccountStepFn(store.fault))
  {
    var startRecord := job.startRecord;
    var endRecord := job.endRecord;
    if file.None? {
      return Aborted(IoError);
    }
    var accountRecords := file.value;
    ghost var step := AccountStepFn(store.fault);
    var currentIndex := 0;
    while currentIndex < |accountRecords|
      invariant 0 <= currentIndex <= |accountRecords|
      invariant RunChunk(file, startRecord, endRecord, old(store.db), step) ==
        ScanFrom(accountRecords, currentIndex, startRecord, endRecord, store.db, step)
    {
      var records := accountRecords[currentIndex];
      currentIndex := currentIndex + 1;
      if currentIndex < startRecord {
        continue;
      }
      if currentIndex > endRecord {
        break;
      }
      var thrown := ProcessRecord(records, store);
      if thrown.Some? {
        return Aborted(thrown.value);
      }
    }
    return Finished;
  }

  // ---------------------------------------------------------------------------
  // What a chunk writes

  /** The verdict on a record when the sink does not fail and `ids` are the committed customers. */
  function AccountVerdict(r: Record, ids: set<int>): Verdict<AccountRow>
  {
    match ReadHead(r)
    case Failure(e) => Crash(e)
    case Success(None) => Reject
    case Success(Some(h)) =>
      if h.accountCustomerId !in ids then Reject
      else match ReadTail(r, h)
        case Failure(e) => Crash(e)
        case Success(None) => Reject
        case Success(Some(row)) => Accept(row)
  }

  function AccountVerdictFn(ids: set<int>): Record -> Verdict<AccountRow>
  {
    r => AccountVerdict(r, ids)
  }

  /** Committing an account row. */
  function AppendAccount(db: Db, row: AccountRow): Db
  {
    Db(db.customerIds, db.customers, db.accounts + [row])
  }

  /**
   * A record is accepted iff all four checks pass and every field it reads parses; its row
   * is (col1, code of col2, col3, col4 as the limit, col5 as the date, col6 as the balance).
   */
  lemma AccountVerdictAccept(r: Record, ids: set<int>, row: AccountRow)
    ensures AccountVerdict(r, ids) == Accept(row) <==>
      |r| > 6 && ValidAccountNumber(r[1]) && ValueOf(r[2]).Some? &&
      ParseInt(r[3]).Some? && ParseInt(r[3]).value in ids &&
      ParseInt(r[4]).Some? && ParseInt(r[6]).Some? && ValidAccountBalance(ParseInt(r[4]).value, ParseInt(r[6]).value) &&
      ParseDate(r[5]).Some? &&
      row == AccountRow(r[1], Code(ValueOf(r[2]).value), ParseInt(r[3]).value,
                        ParseInt(r[4]).value, ParseDate(r[5]).value, ParseInt(r[6]).value)
  {
  }

  /** An invalid account number skips the record: no other column is read and no query is issued. */
  lemma InvalidNumberSkips(fault: Fault, r: Record, db: Db)
    requires |r| > 1 && !ValidAccountNumber(r[1])
    ensures AccountStep(fault, r, db) == Next(db)
  {
  }

  /** A type token that names no constant throws from `valueOf`, which the worker does not catch. */
  lemma UnknownTypeAborts(fault: Fault, r: Record, db: Db)
    requires |r| > 2 && ValidAccountNumber(r[1]) && ValueOf(r[2]).None?
    ensures AccountStep(fault, r, db) == Stop(IllegalArgument) && !Caught(IllegalArgument)
  {
  }

  /** An unknown customer skips the record before the limit, the balance or the date is read. */
  lemma UnknownCustomerSkips(fault: Fault, r: Record, db: Db)
    requires |r| > 3 && ValidAccountNumber(r[1]) && ValueOf(r[2]).Some?
    requires ParseInt(r[3]).Some? && ParseInt(r[3]).value !in db.customerIds
    requires !fault(db, CustomerIdQuery(ParseInt(r[3]).value))
    ensures AccountStep(fault, r, db) == Next(db)
  {
  }

  /** A balance above the record's limit skips the record before the open date is parsed. */
  lemma OverLimitSkips(r: Record, h: AccountHead)
    requires |r| > 6 && ParseInt(r[4]).Some? && ParseInt(r[6]).Some?
    requires ParseInt(r[6]).value > ParseInt(r[4]).value
    ensures ReadTail(r, h) == Success(None)
  {
  }

  /** The worker's step agrees with the verdict, except that the query or the insert may throw. */
  lemma AccountStepRefines(fault: Fault, r: Record, db: Db)
    ensures Refines(AccountStep(fault, r, db), AccountVerdict(r, db.customerIds), db, AppendAccount)
  {
  }

  /** When the sink never fails the step is exactly the verdict's. */
  lemma AccountStepClean(fault: Fault, r: Record, db: Db)
    requires forall d, op :: !fault(d, op)
    ensures AccountStep(fault, r, db) == Clean(AccountVerdict(r, db.customerIds), db, AppendAccount)
  {
    match ReadHead(r)
    case Failure(_) =>
    case Success(None) =>
    case Success(Some(h)) =>
      assert !fault(db, CustomerIdQuery(h.accountCustomerId));
      match ReadTail(r, h)
      case Failure(_) =>
      case Success(None) =>
      case Success(Some(row)) =>
        assert !fault(db, AccountInsert(row));
  }

  lemma {:induction false} AddAllAccounts(db: Db, rows: seq<AccountRow>)
    ensures AddAll(db, rows, AppendAccount) == Db(db.customerIds, db.customers, db.accounts + rows)
    decreases |rows|
  {
    if rows != [] {
      AddAllAccounts(AppendAccount(db, rows[0]), rows[1..]);
      assert db.accounts + [rows[0]] + rows[1..] == db.accounts + rows;
    }
  }

  /**
   * A chunk leaves the customers untouched and appends to the accounts a prefix w of the
   * accepted rows of its window, in source order, at most one per in-range record; when it
   * finishes normally it appended all of them and no record threw.
   */
  lemma AccountChunkWrites(recs: seq<Record>, start: int, end: int, db: Db, fault: Fault)
    returns (w: seq<AccountRow>)
    ensures var res := ScanFrom(recs, 0, start, end, db, AccountStepFn(fault));
      res.db == Db(db.customerIds, db.customers, db.accounts + w) &&
      w <= Accepted(Window(recs, start, end), AccountVerdictFn(db.customerIds)) &&
      |w| <= |Window(recs, start, end)| &&
      (res.outcome == Finished ==>
        w == Accepted(Window(recs, start, end), AccountVerdictFn(db.customerIds)) &&
        FirstCrash(Window(recs, start, end), AccountVerdictFn(db.customerIds)) == None)
  {
    var ids := db.customerIds;
    var classify := AccountVerdictFn(ids);
    var inv := (d: Db) => d.customerIds == ids;
    forall r, d | inv(d)
      ensures Refines(AccountStepFn(fault)(r, d), classify(r), d, AppendAccount)
    {
      AccountStepRefines(fault, r, d);
    }
    w := ScanWritesAccepted(recs, 0, start, end, db, AccountStepFn(fault), classify, AppendAccount, inv);
    AddAllAccounts(db, w);
  }

  /** Every row a chunk can write passes the account checks and names a committed customer. */
  lemma AcceptedAccountsValid(ws: seq<Record>, ids: set<int>)
    ensures forall row :: row in Accepted(ws, AccountVerdictFn(ids)) ==>
      ValidAccountNumber(row.accountNumber) && row.accountCustomerId in ids &&
      ValidAccountBalance(row.accountLimit, row.accountBalance) &&
      row.accountType in {Code(Savings), Code(RecurringDeposit), Code(FixedDepositAccount)}
  {
    var P := (row: AccountRow) =>
      ValidAccountNumber(row.accountNumber) && row.accountCustomerId in ids &&
      ValidAccountBalance(row.accountLimit, row.accountBalance) &&
      row.accountType in {Code(Savings), Code(RecurringDeposit), Code(FixedDepositAccount)};
    forall r | AccountVerdict(r, ids).Accept?
      ensures P(AccountVerdict(r, ids).row)
    {
      var h := ReadHead(r).value.value;
      match h.accountType
      case Savings =>
      case RecurringDeposit =>
      case FixedDepositAccount =>
    }
    AcceptedSatisfies(ws, AccountVerdictFn(ids), P);
  }

  /** Without sink faults a chunk writes exactly its accepted rows and ends as its first throwing record says. */
  lemma AccountChunkWithoutFaults(recs: seq<Record>, start: int, end: int, db: Db, fault: Fault)
    requires forall d, op :: !fault(d, op)
    ensures var ws := Window(recs, start, end);
      var classify := AccountVerdictFn(db.customerIds);
      ScanFrom(recs, 0, start, end, db, AccountStepFn(fault)) ==
        ChunkResult(Db(db.customerIds, db.customers, db.accounts + Accepted(ws, classify)),
                    match FirstCrash(ws, classify) case None => Finished case Some(e) => Aborted(e))
  {
    var ids := db.customerIds;
    var classify := AccountVerdictFn(ids);
    var inv := (d: Db) => d.customerIds == ids;
    forall r, d | inv(d)
      ensures AccountStepFn(fault)(r, d) == Clean(classify(r), d, AppendAccount)
    {
      AccountStepClean(fault, r, d);
    }
    ScanWithoutFaults(recs, 0, start, end, db, AccountStepFn(fault), classify, AppendAccount, inv);
    AddAllAccounts(db, Accepted(Window(recs, start, end), classify));
  }
}

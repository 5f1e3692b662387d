/**
 * What the two customer chunk workers share: the columns they read, the national-id and
 * birth-date checks in their order, the row they insert, and how a chunk of customer
 * records changes the sink.
 */
module CustomerRecords {
  import opened Base
  import opened JavaLib
  import opened Crypto
  import opened CustomerMethods
  import opened Sink
  import opened Chunk

  /** Columns 1 to 6, read before any check. */
  datatype CustomerHead = CustomerHead(customerId: int, customerName: string, customerSubName: string,
                                       customerAddress: string, customerZipCode: int, customerNationalId: string)

  /** `parseInt(get(1))`, `get(2)` to `get(4)`, `parseInt(get(5))`, `get(6)`, in that order. */
  function ReadCustomerHead(r: Record): (h: Result<CustomerHead, ChunkError>)
    ensures h.Success? <==> |r| > 6 && ParseInt(r[1]).Some? && ParseInt(r[5]).Some?
    ensures h.Success? ==> h.value == CustomerHead(ParseInt(r[1]).value, r[2], r[3], r[4], ParseInt(r[5]).value, r[6])
  {
    var customerId :- IntField(r, 1);
    var customerName :- Field(r, 2);
    var customerSubName :- Field(r, 3);
    var customerAddress :- Field(r, 4);
    var customerZipCode :- IntField(r, 5);
    var customerNationalId :- Field(r, 6);
    Success(CustomerHead(customerId, customerName, customerSubName, customerAddress, customerZipCode, customerNationalId))
  }

  /**
   * The checks after the columns are read, on the id string the worker validates and
   * stores: the national-id validator (which may throw when it cannot decrypt), then
   * `LocalDate.parse(get(7))` and the birth-date check. Success(Some(row)): the row to insert.
   */
  function CheckCustomer(c: Cipher, r: Record, h: CustomerHead, nationalId: string): (v: Result<Option<CustomerRow>, ChunkError>)
    ensures v.Success? && v.value.Some? ==>
      ValidateNationalId(c, nationalId) == Some(true) && |r| > 7 && ParseDate(r[7]).Some? &&
      ValidBirthDate(ParseDate(r[7]).value) &&
      v.value.value == CustomerRow(h.customerId, h.customerName, h.customerSubName, h.customerAddress,
                                   h.customerZipCode, nationalId, ParseDate(r[7]).value)
    ensures ValidateNationalId(c, nationalId) == Some(false) ==> v == Success(None)
    ensures ValidateNationalId(c, nationalId) == None ==> v == Failure(DecryptionError)
  {
    match ValidateNationalId(c, nationalId)
    case None => Failure(DecryptionError)
    case Some(false) => Success(None)
    case Some(true) =>
      var customerBirthDate :- DateField(r, 7);
      if !ValidBirthDate(customerBirthDate) then Success(None)
      else Success(Some(CustomerRow(h.customerId, h.customerName, h.customerSubName, h.customerAddress,
                                    h.customerZipCode, nationalId, customerBirthDate)))
  }

  /** The loop body once a record has been read and checked: skip it, insert its row, or end the chunk. */
  function CustomerStep(read: Result<Option<CustomerRow>, ChunkError>, fault: Fault, db: Db): Step
  {
    match read
    case Failure(e) => Stop(e)
    case Success(None) => Next(db)
    case Success(Some(row)) =>
      match InsertCustomer(db, fault, row)
      case None => Stop(SqlError)
      case Some(db') => Next(db')
  }

  function CustomerStepFn(read: Record -> Result<Option<CustomerRow>, ChunkError>, fault: Fault): (Record, Db) -> Step
  {
    (r, db) => CustomerStep(read(r), fault, db)
  }

  /** The verdict on a record, which for customers does not depend on the sink. */
  function CustomerVerdict(read: Result<Option<CustomerRow>, ChunkError>): Verdict<CustomerRow>
  {
    match read
    case Failure(e) => Crash(e)
    case Success(None) => Reject
    case Success(Some(row)) => Accept(row)
  }

  function VerdictFn(read: Record -> Result<Option<CustomerRow>, ChunkError>): Record -> Verdict<CustomerRow>
  {
    r => CustomerVerdict(read(r))
  }

  /** Committing a customer row and its id. */
  function AppendCustomer(db: Db, row: CustomerRow): Db
  {
    Db(db.customerIds + {row.customerId}, db.customers + [row], db.accounts)
  }

  /** The ids of a sequence of rows. */
  function IdsOf(rows: seq<CustomerRow>): set<int>
  {
    set row | row in rows :: row.customerId
  }

  /** The step agrees with the verdict, except that the insert may throw. */
  lemma CustomerStepRefines(read: Result<Option<CustomerRow>, ChunkError>, fault: Fault, db: Db)
    ensures Refines(CustomerStep(read, fault, db), CustomerVerdict(read), db, AppendCustomer)
    ensures (forall d, op :: !fault(d, op)) ==> CustomerStep(read, fault, db) == Clean(CustomerVerdict(read), db, AppendCustomer)
  {
    if read.Success? && read.value.Some? {
      assert (forall d, op :: !fault(d, op)) ==> !fault(db, CustomerInsert(read.value.value));
    }
  }

  lemma {:induction false} AddAllCustomers(db: Db, rows: seq<CustomerRow>)
    ensures AddAll(db, rows, AppendCustomer) == Db(db.customerIds + IdsOf(rows), db.customers + rows, db.accounts)
    decreases |rows|
  {
    if rows != [] {
      AddAllCustomers(AppendCustomer(db, rows[0]), rows[1..]);
      assert db.customers + [rows[0]] + rows[1..] == db.customers + rows;
      assert rows == [rows[0]] + rows[1..];
      assert IdsOf(rows) == {rows[0].customerId} + IdsOf(rows[1..]);
    }
  }

  /**
   * A customer chunk, whichever reader `read` is, leaves the accounts untouched and appends
   * to the customers a prefix w of the accepted rows of its window in source order, adding
   * their ids to the committed ids; when it finishes normally w is all of them.
   */
  lemma CustomerChunkWrites(recs: seq<Record>, start: int, end: int, db: Db, fault: Fault,
                            read: Record -> Result<Option<CustomerRow>, ChunkError>)
    returns (w: seq<CustomerRow>)
    ensures var res := ScanFrom(recs, 0, start, end, db, CustomerStepFn(read, fault));
      res.db == Db(db.customerIds + IdsOf(w), db.customers + w, db.accounts) &&
      w <= Accepted(Window(recs, start, end), VerdictFn(read)) &&
      |w| <= |Window(recs, start, end)| &&
      (res.outcome == Finished ==>
        w == Accepted(Window(recs, start, end), VerdictFn(read)) &&
        FirstCrash(Window(recs, start, end), VerdictFn(read)) == None)
  {
    var step := CustomerStepFn(read, fault);
    var classify := VerdictFn(read);
    var inv := (d: Db) => true;
    forall r, d | inv(d)
      ensures Refines(step(r, d), classify(r), d, AppendCustomer)
    {
      CustomerStepRefines(read(r), fault, d);
    }
    w := ScanWritesAccepted(recs, 0, start, end, db, step, classify, AppendCustomer, inv);
    AddAllCustomers(db, w);
  }

  /** Without sink faults a customer chunk writes exactly its accepted rows. */
  lemma CustomerChunkWithoutFaults(recs: seq<Record>, start: int, end: int, db: Db, fault: Fault,
                                   read: Record -> Result<Option<CustomerRow>, ChunkError>)
    requires forall d, op :: !fault(d, op)
    ensures var ws := Window(recs, start, end);
      var classify := VerdictFn(read);
      var rows := Accepted(ws, classify);
      ScanFrom(recs, 0, start, end, db, CustomerStepFn(read, fault)) ==
        ChunkResult(Db(db.customerIds + IdsOf(rows), db.customers + rows, db.accounts),
                    match FirstCrash(ws, classify) case None => Finished case Some(e) => Aborted(e))
  {
    var step := CustomerStepFn(read, fault);
    var classify := VerdictFn(read);
    var inv := (d: Db) => true;
    forall r, d | inv(d)
      ensures step(r, d) == Clean(classify(r), d, AppendCustomer)
    {
      CustomerStepRefines(read(r), fault, d);
    }
    ScanWithoutFaults(recs, 0, start, end, db, step, classify, AppendCustomer, inv);
    AddAllCustomers(db, Accepted(Window(recs, start, end), classify));
  }

  /** Every accepted customer row satisfies P when every row a reader produces does. */
  lemma AcceptedCustomers(ws: seq<Record>, read: Record -> Result<Option<CustomerRow>, ChunkError>, P: CustomerRow -> bool)
    requires forall r :: read(r).Success? && read(r).value.Some? ==> P(read(r).value.value)
    ensures forall row :: row in Accepted(ws, VerdictFn(read)) ==> P(row)
  {
    AcceptedSatisfies(ws, VerdictFn(read), P);
  }
}

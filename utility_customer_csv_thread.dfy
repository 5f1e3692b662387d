/**
 * The customer chunk worker of package `utility`: the same scan as the `Threads` worker,
 * but it hands column 6 to the national-id validator as it stands (so column 6 must
 * already be a ciphertext) and stores it unchanged.
 */
module UtilityCustomerCsvThread {
  import opened Base
  import opened JavaLib
  import opened Crypto
  import opened CustomerMethods
  import opened Scheduling
  import opened Sink
  import opened Chunk
  import opened CustomerRecords
  import CustomerCsvThread

  /** Reading and checking one record; the id that is validated and stored is column 6 itself. */
  function ReadRawCustomer(c: Cipher, r: Record): Result<Option<CustomerRow>, ChunkError>
  {
    var h :- ReadCustomerHead(r);
    CheckCustomer(c, r, h, h.customerNationalId)
  }

  function Reader(c: Cipher): Record -> Result<Option<CustomerRow>, ChunkError>
  {
    r => ReadRawCustomer(c, r)
  }

  /** The loop body on an in-range record: None to go on, Some(e) when exception e leaves it. */
  method ProcessRecord(c: Cipher, record: Record, store: Store) returns (thrown: Option<ChunkError>)
    modifies store
    ensures (if thrown.None? then Next(store.db) else Stop(thrown.value)) ==
      CustomerStep(ReadRawCustomer(c, record), store.fault, old(store.db))
    ensures thrown.Some? ==> store.db == old(store.db)
  {
    var head := ReadCustomerHead(record);
    if head.Failure? {
      return Some(head.error);
    }
    var h := head.value;
    var checked := CheckCustomer(c, record, h, h.customerNationalId);
    if checked.Failure? {
      return Some(checked.error);
    }
    if checked.value.None? {
      return None;
    }
    var written := store.WriteCustomer(checked.value.value);
    if !written {
      return Some(SqlError);
    }
    return None;
  }

  /** `execute`: the same range scan over the customer file. */
  method Execute(c: Cipher, file: Option<seq<Record>>, job: JobDetail, store: Store) returns (outcome: Outcome)
    modifies store
    ensures ChunkResult(store.db, outcome) ==
      RunChunk(file, job.startRecord, job.endRecord, old(store.db), CustomerStepFn(Reader(c), store.fault))
  {
    var startRecord := job.startRecord;
    var endRecord := job.endRecord;
    if file.None? {
      return Aborted(IoError);
    }
    var records := file.value;
    ghost var step := CustomerStepFn(Reader(c), store.fault);
    var currentIndex := 0;
    while currentIndex < |records|
      invariant 0 <= currentIndex <= |records|
      invariant RunChunk(file, startRecord, endRecord, old(store.db), step) ==
        ScanFrom(records, currentIndex, startRecord, endRecord, store.db, step)
    {
      var record := records[currentIndex];
      currentIndex := currentIndex + 1;
      if currentIndex < startRecord {
        continue;
      }
      if currentIndex > endRecord {
        break;
      }
      var thrown := ProcessRecord(c, record, store);
      if thrown.Some? {
        return Aborted(thrown.value);
      }
    }
    return Finished;
  }

  /**
   * A record is accepted iff its columns parse, the validator accepts column 6 as it
   * stands (its decryption is ten ASCII digits) and its birth year is after 1995; the
   * row holds columns 1 to 6 unchanged and the parsed date.
   */
  lemma RawCustomerAccept(c: Cipher, r: Record, row: CustomerRow)
    ensures ReadRawCustomer(c, r) == Success(Some(row)) <==>
      |r| > 7 && ParseInt(r[1]).Some? && ParseInt(r[5]).Some? &&
      (exists x :: c.decrypt(r[6]) == Some(x) && |x| == 10 && AllDigits(x)) &&
      ParseDate(r[7]).Some? && ValidBirthDate(ParseDate(r[7]).value) &&
      row == CustomerRow(ParseInt(r[1]).value, r[2], r[3], r[4], ParseInt(r[5]).value,
                         r[6], ParseDate(r[7]).value)
  {
  }

  /**
   * A column 6 the encryptor cannot decrypt (a plaintext id, say) makes the validator
   * throw; the worker does not catch that, so the chunk ends.
   */
  lemma UndecryptableIdAborts(c: Cipher, r: Record, fault: Fault, db: Db)
    requires |r| > 6 && ParseInt(r[1]).Some? && ParseInt(r[5]).Some? && c.decrypt(r[6]).None?
    ensures CustomerStep(ReadRawCustomer(c, r), fault, db) == Stop(DecryptionError)
    ensures !Caught(DecryptionError)
  {
  }

  /** The birth date is looked at only after column 6 passes the validator. */
  lemma RawIdCheckedBeforeDate(c: Cipher, r: Record)
    requires |r| > 6 && ParseInt(r[1]).Some? && ParseInt(r[5]).Some?
    requires ValidateNationalId(c, r[6]) == Some(false)
    ensures ReadRawCustomer(c, r) == Success(None)
  {
  }

  /** A checked record with the national id of its row, if it has one, replaced by `id`. */
  function WithNationalId(v: Result<Option<CustomerRow>, ChunkError>, id: string): Result<Option<CustomerRow>, ChunkError>
  {
    match v
    case Success(Some(row)) => Success(Some(row.(customerNationalId := id)))
    case _ => v
  }

  /**
   * On a record whose column 6 holds any ciphertext y of the plaintext id, this worker
   * reaches the verdict the `Threads` worker reaches on the plaintext record: the same
   * skip, the same exception, or the same row with y as its stored id.
   */
  lemma RawOnCiphertext(c: Cipher, r: Record, y: string)
    requires RoundTrips(c) && |r| > 6 && c.decrypt(y) == Some(r[6])
    ensures ReadRawCustomer(c, r[6 := y]) == WithNationalId(CustomerCsvThread.ReadCustomer(c, r), y)
  {
    var r' := r[6 := y];
    assert r'[1] == r[1] && r'[5] == r[5] && r'[2] == r[2] && r'[3] == r[3] && r'[4] == r[4];
    assert |r| > 7 ==> r'[7] == r[7];
    ValidateEncryptedId(c, r[6]);
    MatchesDigitsIff(r[6], 10);
    assert ValidateNationalId(c, y) == ValidateNationalId(c, c.encrypt(r[6]));
  }

  /** Every row this worker can write carries an id the validator accepts and a birth year after 1995. */
  lemma AcceptedRawCustomersValid(ws: seq<Record>, c: Cipher)
    ensures forall row :: row in Accepted(ws, VerdictFn(Reader(c))) ==>
      ValidateNationalId(c, row.customerNationalId) == Some(true) && ValidBirthDate(row.customerBirthDate)
  {
    var P := (row: CustomerRow) =>
      ValidateNationalId(c, row.customerNationalId) == Some(true) && ValidBirthDate(row.customerBirthDate);
    forall r | Reader(c)(r).Success? && Reader(c)(r).value.Some?
      ensures P(Reader(c)(r).value.value)
    {
    }
    AcceptedCustomers(ws, Reader(c), P);
  }
}

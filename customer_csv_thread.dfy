/**
 * The customer chunk worker of package `Threads`: it encrypts the national id of each
 * in-range record, validates the ciphertext (the validator decrypts it again), checks
 * the birth date and inserts the row with the encrypted id.
 */
module CustomerCsvThread {
  import opened Base
  import opened JavaLib
  import opened Crypto
  import opened CustomerMethods
  import opened Scheduling
  import opened Sink
  import opened Chunk
  import opened CustomerRecords

  /** Reading and checking one record; the id that is validated and stored is `encrypt(col6)`. */
  function ReadCustomer(c: Cipher, r: Record): Result<Option<CustomerRow>, ChunkError>
  {
    var h :- ReadCustomerHead(r);
    CheckCustomer(c, r, h, c.encrypt(h.customerNationalId))
  }

  function Reader(c: Cipher): Record -> Result<Option<CustomerRow>, ChunkError>
  {
    r => ReadCustomer(c, r)
  }

  /** The loop body on an in-range record: None to go on, Some(e) when exception e leaves it. */
  method ProcessRecord(c: Cipher, record: Record, store: Store) returns (thrown: Option<ChunkError>)
    modifies store
    ensures (if thrown.None? then Next(store.db) else Stop(thrown.value)) ==
      CustomerStep(ReadCustomer(c, record), store.fault, old(store.db))
    ensures thrown.Some? ==> store.db == old(store.db)
  {
    var head := ReadCustomerHead(record);
    if head.Failure? {
      return Some(head.error);
    }
    var h := head.value;
    var customerNationalIdEncrypt := c.encrypt(h.customerNationalId);
    var checked := CheckCustomer(c, record, h, customerNationalIdEncrypt);
    if checked.Failure? {
      return Some(checked.error);
    }
    if checked.value.None? {
      return None;
    }
    var written := store.WriteCustomer(checked.value.value);
    if !written {
      return Some(SqlError);
    }
    return None;
  }

  /** `execute`: the same range scan as the account worker, over the customer file. */
  method Execute(c: Cipher, file: Option<seq<Record>>, job: JobDetail, store: Store) returns (outcome: Outcome)
    modifies store
    ensures ChunkResult(store.db, outcome) ==
      RunChunk(file, job.startRecord, job.endRecord, old(store.db), CustomerStepFn(Reader(c), store.fault))
  {
    var startRecord := job.startRecord;
    var endRecord := job.endRecord;
    if file.None? {
      return Aborted(IoError);
    }
    var records := file.value;
    ghost var step := CustomerStepFn(Reader(c), store.fault);
    var currentIndex := 0;
    while currentIndex < |records|
      invariant 0 <= currentIndex <= |records|
      invariant RunChunk(file, startRecord, endRecord, old(store.db), step) ==
        ScanFrom(records, currentIndex, startRecord, endRecord, store.db, step)
    {
      var record := records[currentIndex];
      currentIndex := currentIndex + 1;
      if currentIndex < startRecord {
        continue;
      }
      if currentIndex > endRecord {
        break;
      }
      var thrown := ProcessRecord(c, record, store);
      if thrown.Some? {
        return Aborted(thrown.value);
      }
    }
    return Finished;
  }

  /**
   * With a cipher whose decryption inverts encryption, a record is accepted iff its columns
   * parse, its plaintext id is ten ASCII digits and its birth year is after 1995; the row
   * holds columns 1 to 5 unchanged, the encrypted id and the parsed date.
   */
  lemma CustomerAccept(c: Cipher, r: Record, row: CustomerRow)
    requires RoundTrips(c)
    ensures ReadCustomer(c, r) == Success(Some(row)) <==>
      |r| > 7 && ParseInt(r[1]).Some? && ParseInt(r[5]).Some? && TenDigits(r[6]) &&
      ParseDate(r[7]).Some? && ValidBirthDate(ParseDate(r[7]).value) &&
      row == CustomerRow(ParseInt(r[1]).value, r[2], r[3], r[4], ParseInt(r[5]).value,
                         c.encrypt(r[6]), ParseDate(r[7]).value)
  {
    if |r| > 6 && ParseInt(r[1]).Some? && ParseInt(r[5]).Some? {
      ValidateEncryptedId(c, r[6]);
      MatchesDigitsIff(r[6], 10);
    }
  }

  /**
   * The birth date is looked at only after the id passes: a record with a well-formed head
   * whose plaintext id is not ten digits is skipped whatever column 7 holds, even when it is missing.
   */
  lemma IdCheckedBeforeDate(c: Cipher, r: Record)
    requires RoundTrips(c)
    requires |r| > 6 && ParseInt(r[1]).Some? && ParseInt(r[5]).Some? && !TenDigits(r[6])
    ensures ReadCustomer(c, r) == Success(None)
  {
    ValidateEncryptedId(c, r[6]);
    MatchesDigitsIff(r[6], 10);
  }

  /** With such a cipher the validator never throws inside this worker. */
  lemma NoDecryptionFailure(c: Cipher, r: Record)
    requires RoundTrips(c)
    ensures ReadCustomer(c, r) != Failure(DecryptionError)
  {
    var h := ReadCustomerHead(r);
    if h.Success? {
      ValidateEncryptedId(c, h.value.customerNationalId);
    }
  }

  /**
   * An accepted record stores `encrypt(col6)` in place of column 6; with an encryption
   * that changes every string, the stored id is never the plaintext of the file.
   */
  lemma StoresCiphertext(c: Cipher, r: Record)
    requires ReadCustomer(c, r).Success? && ReadCustomer(c, r).value.Some?
    ensures |r| > 6 && ReadCustomer(c, r).value.value.customerNationalId == c.encrypt(r[6])
    ensures (forall x :: c.encrypt(x) != x) ==> ReadCustomer(c, r).value.value.customerNationalId != r[6]
  {
  }

  /** A valid stored id: the encryption of a ten-digit plaintext. */
  ghost predicate EncryptedTenDigits(c: Cipher, s: string)
  {
    exists x :: s == c.encrypt(x) && TenDigits(x)
  }

  lemma AcceptedRowEncrypted(c: Cipher, r: Record)
    requires RoundTrips(c) && ReadCustomer(c, r).Success? && ReadCustomer(c, r).value.Some?
    ensures EncryptedTenDigits(c, ReadCustomer(c, r).value.value.customerNationalId)
    ensures ValidBirthDate(ReadCustomer(c, r).value.value.customerBirthDate)
  {
    var row := ReadCustomer(c, r).value.value;
    CustomerAccept(c, r, row);
    assert row.customerNationalId == c.encrypt(r[6]) && TenDigits(r[6]);
  }

  /** Every row this worker can write stores the encryption of a ten-digit id, rather than column 6, and a birth year after 1995. */
  lemma AcceptedCustomersEncrypted(ws: seq<Record>, c: Cipher)
    requires RoundTrips(c)
    ensures forall row :: row in Accepted(ws, VerdictFn(Reader(c))) ==>
      EncryptedTenDigits(c, row.customerNationalId) && ValidBirthDate(row.customerBirthDate)
  {
    var P := (row: CustomerRow) => EncryptedTenDigits(c, row.customerNationalId) && ValidBirthDate(row.customerBirthDate);
    forall r | Reader(c)(r).Success? && Reader(c)(r).value.Some?
      ensures P(Reader(c)(r).value.value)
    {
      AcceptedRowEncrypted(c, r);
    }
    AcceptedCustomers(ws, Reader(c), P);
  }
}

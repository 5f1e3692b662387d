/** The customer field validators and the customer job schedule. */
module CustomerMethods {
  import opened Base
  import opened JavaLib
  import opened Crypto
  import Scheduling

  /** The regular expression `[0-9]{10}` of the national-id check. */
  predicate TenDigits(s: string)
  {
    MatchesDigits(s, 10)
  }

  /**
   * `validateCustomerNationalID(s)`: decrypt s, then match the plaintext against
   * `[0-9]{10}`. None: the decryption throws, and so does the validator.
   */
  function ValidateNationalId(c: Cipher, s: string): (r: Option<bool>)
    ensures r.Some? <==> c.decrypt(s).Some?
    ensures r == Some(true) <==> exists x :: c.decrypt(s) == Some(x) && |x| == 10 && AllDigits(x)
  {
    match c.decrypt(s)
    case None => None
    case Some(plain) =>
      MatchesDigitsIff(plain, 10);
      Some(TenDigits(plain))
  }

  /** An encrypted id passes iff its plaintext is ten ASCII digits. */
  lemma ValidateEncryptedId(c: Cipher, id: string)
    requires RoundTrips(c)
    ensures ValidateNationalId(c, c.encrypt(id)) == Some(|id| == 10 && AllDigits(id))
  {
    MatchesDigitsIff(id, 10);
  }

  /** `validateCustomerBirthDate`: born after 1995 (1995 itself fails). */
  predicate ValidBirthDate(d: Date)
  {
    d.year > 1995
  }

  /** Only the year matters, and the dates of the unit tests behave as expected. */
  lemma BirthDateOnlyYear(d: Date, month: int, day: int)
    ensures ValidBirthDate(d) == ValidBirthDate(Date(d.year, month, day))
    ensures ValidBirthDate(Date(2015, 10, 12)) && !ValidBirthDate(Date(1700, 10, 12))
    ensures !ValidBirthDate(Date(1995, 12, 31)) && ValidBirthDate(Date(1996, 1, 1))
  {
  }

  const NUM_JOBS: int := 2
  const RECORDS_PER_JOB: int := 5

  /**
   * The scheduling part of `readCustomerFile`: two customer jobs of five records each.
   * Starting the scheduler, the wait and the shutdown are not modelled.
   */
  method ReadCustomerFile(scheduler: Scheduling.Scheduler)
    modifies scheduler
    ensures scheduler.jobs == old(scheduler.jobs) + [
      Scheduling.JobDetail(Scheduling.CustomerCsvJob, 1, 1, 5),
      Scheduling.JobDetail(Scheduling.CustomerCsvJob, 2, 6, 10)]
  {
    Scheduling.ScheduleChunks(scheduler, Scheduling.CustomerCsvJob, NUM_JOBS, RECORDS_PER_JOB);
    Scheduling.DefaultJobs(Scheduling.CustomerCsvJob);
  }
}

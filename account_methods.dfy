/** The account field validators and the account job schedule. */
module AccountMethods {
  import opened Base
  import opened JavaLib
  import opened AccountTypes
  import Scheduling

  /** `validateAccountNumber`: the whole string matches `0\d{21}`. */
  predicate ValidAccountNumber(s: string)
  {
    |s| > 0 && s[0] == '0' && MatchesDigits(s[1..], 21)
  }

  /** An account number is valid iff it has 22 characters, a leading '0' and 21 ASCII digits after it. */
  lemma ValidAccountNumberIff(s: string)
    ensures ValidAccountNumber(s) <==>
      |s| == 22 && s[0] == '0' && forall i :: 1 <= i < 22 ==> IsDigit(s[i])
  {
    if |s| > 0 {
      MatchesDigitsIff(s[1..], 21);
      if |s| == 22 && s[0] == '0' && forall i :: 1 <= i < 22 ==> IsDigit(s[i]) {
        forall i | 0 <= i < 21 ensures IsDigit(s[1..][i]) { assert s[1..][i] == s[i + 1]; }
      }
      if ValidAccountNumber(s) {
        forall i | 1 <= i < 22 ensures IsDigit(s[i]) { assert s[i] == s[1..][i - 1]; }
      }
    }
  }

  lemma TestNumberTail()
    ensures MatchesDigits("440888451237986539873", 21)
  {
    assert AllDigits("440888451237986539873");
    MatchesDigitsIff("440888451237986539873", 21);
  }

  /** The account number the unit test expects to pass. */
  lemma AccountNumberExamples()
    ensures ValidAccountNumber("0440888451237986539873")
  {
    TestNumberTail();
    assert "0440888451237986539873"[1..] == "440888451237986539873";
  }

  /** A number that does not start with '0' is refused. */
  lemma AccountNumberLeadingDigit()
    ensures !ValidAccountNumber("1440888451237986539873")
  {
  }

  /** `validateAccountType`: the reference (None models `null`) is one of the three constants. */
  predicate ValidAccountType(t: Option<AccountType>)
  {
    t == Some(Savings) || t == Some(RecurringDeposit) || t == Some(FixedDepositAccount)
  }

  /** Every variant passes and `null` fails. */
  lemma ValidAccountTypeIff(t: Option<AccountType>)
    ensures ValidAccountType(t) <==> t.Some?
  {
    match t
    case None =>
    case Some(v) =>
      match v
      case Savings =>
      case RecurringDeposit =>
      case FixedDepositAccount =>
  }

  /** `validateAccountBalance`: the balance does not exceed the limit (equality passes). */
  predicate ValidAccountBalance(accountLimit: int, accountBalance: int)
  {
    accountBalance <= accountLimit
  }

  lemma AccountBalanceExamples()
    ensures ValidAccountBalance(1000, 200) && !ValidAccountBalance(1000, 1200)
    ensures forall l :: ValidAccountBalance(l, l)
  {
  }

  const NUM_JOBS: int := 2
  const RECORDS_PER_JOB: int := 5

  /**
   * The scheduling part of `readAccountFile`: two account jobs of five records each.
   * Starting the scheduler, the wait and the shutdown are not modelled.
   */
  method ReadAccountFile(scheduler: Scheduling.Scheduler)
    modifies scheduler
    ensures scheduler.jobs == old(scheduler.jobs) + [
      Scheduling.JobDetail(Scheduling.AccountCsvJob, 1, 1, 5),
      Scheduling.JobDetail(Scheduling.AccountCsvJob, 2, 6, 10)]
  {
    Scheduling.ScheduleChunks(scheduler, Scheduling.AccountCsvJob, NUM_JOBS, RECORDS_PER_JOB);
    Scheduling.DefaultJobs(Scheduling.AccountCsvJob);
  }
}

/**
 * The whole ingestion run with its jobs executed one after the other: the customer jobs
 * of `readCustomerFile`, then the account jobs of `readAccountFile`, each job starting
 * from the state the previous one left, whether or not that one finished.
 */
module Pipeline {
  import opened Base
  import opened JavaLib
  import opened Crypto
  import opened Scheduling
  import opened Sink
  import opened Chunk
  import AccountMethods
  import CustomerMethods
  import opened AccountCsvThread
  import opened CustomerRecords
  import CustomerCsvThread

  /** Running jobs in registration order; the outcomes are listed in the same order. */
  function RunJobs(file: Option<seq<Record>>, jobs: seq<JobDetail>, db: Db, step: (Record, Db) -> Step): (Db, seq<Outcome>)
    decreases |jobs|
  {
    if jobs == [] then (db, [])
    else
      var before := RunJobs(file, jobs[..|jobs| - 1], db, step);
      var job := jobs[|jobs| - 1];
      var res := RunChunk(file, job.startRecord, job.endRecord, before.0, step);
      (res.db, before.1 + [res.outcome])
  }

  predicate AllFinished(os: seq<Outcome>)
  {
    forall j :: 0 <= j < |os| ==> os[j] == Finished
  }

  /** A scan that finishes over [a, c] also finishes over any shorter range [a, b]. */
  lemma {:induction false} PrefixFinishes(recs: seq<Record>, i: nat, a: int, b: int, c: int, db: Db, step: (Record, Db) -> Step)
    requires i <= |recs| && b <= c
    requires ScanFrom(recs, i, a, c, db, step).outcome == Finished
    ensures ScanFrom(recs, i, a, b, db, step).outcome == Finished
    decreases |recs| - i
  {
    if i < |recs| {
      if i + 1 < a {
        PrefixFinishes(recs, i + 1, a, b, c, db, step);
      } else if i + 1 <= b {
        match step(recs[i], db)
        case Next(d') => PrefixFinishes(recs, i + 1, a, b, c, d', step);
        case Stop(_) =>
      }
    }
  }

  lemma RunJobsSnoc(file: Option<seq<Record>>, jobs: seq<JobDetail>, job: JobDetail, db: Db, step: (Record, Db) -> Step)
    ensures var before := RunJobs(file, jobs, db, step);
      var res := RunChunk(file, job.startRecord, job.endRecord, before.0, step);
      RunJobs(file, jobs + [job], db, step) == (res.db, before.1 + [res.outcome])
  {
    assert (jobs + [job])[..|jobs|] == jobs;
  }

  lemma AllFinishedSnoc(os: seq<Outcome>, o: Outcome)
    ensures AllFinished(os + [o]) <==> AllFinished(os) && o == Finished
  {
    if AllFinished(os + [o]) {
      assert (os + [o])[|os|] == o;
      forall j | 0 <= j < |os| ensures os[j] == Finished {
        assert (os + [o])[j] == os[j];
      }
    }
  }

  /**
   * The n jobs of k records each finish iff one scan of records 1 to n*k finishes, and then
   * they leave the state that scan leaves: the partition into jobs changes nothing.
   */
  lemma JobsAsOneScan(recs: seq<Record>, kind: JobKind, n: int, k: int, db: Db, step: (Record, Db) -> Step)
    requires NoOverflow(n, k)
    ensures var run := RunJobs(Some(recs), Jobs(kind, n, k), db, step);
      var scan := ScanFrom(recs, 0, 1, n * k, db, step);
      (AllFinished(run.1) <==> scan.outcome == Finished) &&
      (AllFinished(run.1) ==> run.0 == scan.db)
  {
    JobsUpTo(recs, kind, n, k, n * k, db, step);
  }

  /** JobsAsOneScan with the product n * k given as c, so that the induction needs no multiplication. */
  lemma {:induction false} JobsUpTo(recs: seq<Record>, kind: JobKind, n: int, k: int, c: int, db: Db, step: (Record, Db) -> Step)
    requires NoOverflow(n, k) && c == n * k
    ensures var run := RunJobs(Some(recs), Jobs(kind, n, k), db, step);
      var scan := ScanFrom(recs, 0, 1, c, db, step);
      (AllFinished(run.1) <==> scan.outcome == Finished) &&
      (AllFinished(run.1) ==> run.0 == scan.db)
    decreases n
  {
    if n == 0 {
      assert ScanFrom(recs, 0, 1, 0, db, step) == ChunkResult(db, Finished);
    } else {
      var m := c - k;
      JobsLast(kind, n, k, m);
      JobsUpTo(recs, kind, n - 1, k, m, db, step);
      RunJobsSnoc(Some(recs), Jobs(kind, n - 1, k), JobDetail(kind, n, m + 1, c), db, step);
      ComposeStep(recs, m, c, RunJobs(Some(recs), Jobs(kind, n - 1, k), db, step), db, step);
    }
  }

  /** One more job [m + 1, c] after jobs that behave like the scan [1, m] behaves like the scan [1, c]. */
  lemma ComposeStep(recs: seq<Record>, m: int, c: int, before: (Db, seq<Outcome>), db: Db, step: (Record, Db) -> Step)
    requires 0 <= m < c
    requires AllFinished(before.1) <==> ScanFrom(recs, 0, 1, m, db, step).outcome == Finished
    requires AllFinished(before.1) ==> before.0 == ScanFrom(recs, 0, 1, m, db, step).db
    ensures var res := ScanFrom(recs, 0, m + 1, c, before.0, step);
      var scan := ScanFrom(recs, 0, 1, c, db, step);
      (AllFinished(before.1 + [res.outcome]) <==> scan.outcome == Finished) &&
      (AllFinished(before.1 + [res.outcome]) ==> res.db == scan.db)
  {
    var res := ScanFrom(recs, 0, m + 1, c, before.0, step);
    AllFinishedSnoc(before.1, res.outcome);
    if AllFinished(before.1) {
      ChunksCompose(recs, 0, 1, m, c, db, step);
    } else if ScanFrom(recs, 0, 1, c, db, step).outcome == Finished {
      PrefixFinishes(recs, 0, 1, m, c, db, step);
    }
  }

  /** The last of n jobs covers records (n-1)*k+1 to n*k. */
  lemma JobsLast(kind: JobKind, n: int, k: int, m: int)
    requires NoOverflow(n, k) && n >= 1 && m == n * k - k
    ensures Jobs(kind, n, k) == Jobs(kind, n - 1, k) + [JobDetail(kind, n, m + 1, m + k)]
    ensures NoOverflow(n - 1, k) && m == (n - 1) * k && 0 <= m < n * k
  {
    MulMono(n - 1, n, k);
    assert (n - 1) * k == n * k - k;
    JobForAt(kind, n - 1, k, m);
  }

  lemma JobForAt(kind: JobKind, i: int, k: int, m: int)
    requires 0 <= m && m == i * k && m + k <= INT_MAX && 1 <= k
    ensures JobFor(kind, i, k) == JobDetail(kind, i + 1, m + 1, m + k)
  {
  }

  /** A property of the state that every step keeps holds after any sequence of jobs. */
  lemma {:induction false} RunJobsPreserves(file: Option<seq<Record>>, jobs: seq<JobDetail>, db: Db,
                                            step: (Record, Db) -> Step, P: Db -> bool)
    requires P(db)
    requires forall r, d :: P(d) && step(r, d).Next? ==> P(step(r, d).db)
    ensures P(RunJobs(file, jobs, db, step).0)
    decreases |jobs|
  {
    if jobs != [] {
      RunJobsPreserves(file, jobs[..|jobs| - 1], db, step, P);
      var before := RunJobs(file, jobs[..|jobs| - 1], db, step);
      var job := jobs[|jobs| - 1];
      if file.Some? {
        ScanPreserves(file.value, 0, job.startRecord, job.endRecord, before.0, step, P);
      }
    }
  }

  lemma {:induction false} ScanPreserves(recs: seq<Record>, i: nat, start: int, end: int, db: Db,
                                         step: (Record, Db) -> Step, P: Db -> bool)
    requires i <= |recs| && P(db)
    requires forall r, d :: P(d) && step(r, d).Next? ==> P(step(r, d).db)
    ensures P(ScanFrom(recs, i, start, end, db, step).db)
    decreases |recs| - i
  {
    if i < |recs| {
      if i + 1 < start {
        ScanPreserves(recs, i + 1, start, end, db, step, P);
      } else if i + 1 <= end && step(recs[i], db).Next? {
        ScanPreserves(recs, i + 1, start, end, step(recs[i], db).db, step, P);
      }
    }
  }

  /** `main`: the customer file is ingested first, then the account file. */
  function Ingest(c: Cipher, customerFile: Option<seq<Record>>, accountFile: Option<seq<Record>>, db: Db, fault: Fault)
    : (Db, Db, seq<Outcome>, seq<Outcome>)
  {
    var customers := RunJobs(customerFile, Jobs(CustomerCsvJob, CustomerMethods.NUM_JOBS, CustomerMethods.RECORDS_PER_JOB),
                             db, CustomerStepFn(CustomerCsvThread.Reader(c), fault));
    var accounts := RunJobs(accountFile, Jobs(AccountCsvJob, AccountMethods.NUM_JOBS, AccountMethods.RECORDS_PER_JOB),
                            customers.0, AccountStepFn(fault));
    (customers.0, accounts.0, customers.1, accounts.1)
  }

  /** The customer stage never writes accounts and the account stage never writes customers. */
  lemma IngestSeparatesTables(c: Cipher, customerFile: Option<seq<Record>>, accountFile: Option<seq<Record>>, db: Db, fault: Fault)
    ensures var (mid, last, _, _) := Ingest(c, customerFile, accountFile, db, fault);
      mid.accounts == db.accounts && last.customers == mid.customers && last.customerIds == mid.customerIds
  {
    var cstep := CustomerStepFn(CustomerCsvThread.Reader(c), fault);
    forall r: Record, d: Db | d.accounts == db.accounts && cstep(r, d).Next?
      ensures cstep(r, d).db.accounts == db.accounts
    {
      assert cstep(r, d) == CustomerStep(CustomerCsvThread.ReadCustomer(c, r), fault, d);
    }
    RunJobsPreserves(customerFile, Jobs(CustomerCsvJob, CustomerMethods.NUM_JOBS, CustomerMethods.RECORDS_PER_JOB),
                     db, cstep, (d: Db) => d.accounts == db.accounts);
    var mid := Ingest(c, customerFile, accountFile, db, fault).0;
    var astep := AccountStepFn(fault);
    forall r: Record, d: Db | d.customers == mid.customers && d.customerIds == mid.customerIds && astep(r, d).Next?
      ensures astep(r, d).db.customers == mid.customers && astep(r, d).db.customerIds == mid.customerIds
    {
    }
    RunJobsPreserves(accountFile, Jobs(AccountCsvJob, AccountMethods.NUM_JOBS, AccountMethods.RECORDS_PER_JOB),
                     mid, astep, (d: Db) => d.customers == mid.customers && d.customerIds == mid.customerIds);
  }

  /**
   * With a sink that never fails and every job finishing, the run inserts exactly the
   * accepted customers of records 1 to 10, then exactly the accepted accounts of records
   * 1 to 10, judged against the customer ids committed before plus those just inserted.
   */
  lemma IngestWithoutFaults(c: Cipher, customers: seq<Record>, accounts: seq<Record>, db: Db, fault: Fault)
    requires forall d, op :: !fault(d, op)
    ensures var (mid, last, cos, aos) := Ingest(c, Some(customers), Some(accounts), db, fault);
      var crows := Accepted(Window(customers, 1, 10), VerdictFn(CustomerCsvThread.Reader(c)));
      var ids := db.customerIds + IdsOf(crows);
      AllFinished(cos) && AllFinished(aos) ==>
        last == Db(ids, db.customers + crows,
                   db.accounts + Accepted(Window(accounts, 1, 10), AccountVerdictFn(ids)))
  {
    var (mid, last, cos, aos) := Ingest(c, Some(customers), Some(accounts), db, fault);
    if AllFinished(cos) && AllFinished(aos) {
      var cstep := CustomerStepFn(CustomerCsvThread.Reader(c), fault);
      JobsAsOneScan(customers, CustomerCsvJob, 2, 5, db, cstep);
      CustomerChunkWithoutFaults(customers, 1, 10, db, fault, CustomerCsvThread.Reader(c));
      JobsAsOneScan(accounts, AccountCsvJob, 2, 5, mid, AccountStepFn(fault));
      AccountChunkWithoutFaults(accounts, 1, 10, mid, fault);
    }
  }
}

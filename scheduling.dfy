/**
 * Chunk scheduling shared by account and customer ingestion: the loop that cuts the
 * record stream into `numJobs` ranges of `recordsPerJob` records and registers one
 * job per range on a scheduler. The ranges are computed with Java `int` arithmetic.
 */
module Scheduling {
  import opened Base
  import opened JavaLib

  /** Which worker class a job runs (AccountCsvThread or CustomerCsvThread). */
  datatype JobKind = AccountCsvJob | CustomerCsvJob

  /** A scheduled job: its ordinal (the `i + 1` of its name) and its data map entries. */
  datatype JobDetail = JobDetail(kind: JobKind, ordinal: int, startRecord: int, endRecord: int)

  /** The job built in iteration i: `startRecord = i * k + 1`, `endRecord = startRecord + k - 1`. */
  function JobFor(kind: JobKind, i: int, k: int): JobDetail
  {
    var start := Int32(i * k + 1);
    JobDetail(kind, i + 1, start, Int32(start + k - 1))
  }

  /** The jobs the loop registers, in registration order. */
  function Jobs(kind: JobKind, n: int, k: int): (js: seq<JobDetail>)
    ensures |js| == Max(n, 0)
    decreases n
  {
    if n <= 0 then [] else Jobs(kind, n - 1, k) + [JobFor(kind, n - 1, k)]
  }

  /** The job scheduler: the jobs registered so far, in order. */
  class Scheduler {
    var jobs: seq<JobDetail>

    constructor ()
      ensures jobs == []
    {
      jobs := [];
    }

    method ScheduleJob(job: JobDetail)
      modifies this
      ensures jobs == old(jobs) + [job]
    {
      jobs := jobs + [job];
    }
  }

  /** The `for` loop of `readAccountFile` / `readCustomerFile`. */
  method ScheduleChunks(scheduler: Scheduler, kind: JobKind, numJobs: int, recordsPerJob: int)
    requires InInt32(numJobs) && InInt32(recordsPerJob)
    modifies scheduler
    ensures scheduler.jobs == old(scheduler.jobs) + Jobs(kind, numJobs, recordsPerJob)
  {
    var i := 0;
    while i < numJobs
      invariant 0 <= i <= Max(numJobs, 0)
      invariant scheduler.jobs == old(scheduler.jobs) + Jobs(kind, i, recordsPerJob)
    {
      var startRecord := Int32(i * recordsPerJob + 1);
      var endRecord := Int32(startRecord + recordsPerJob - 1);
      scheduler.ScheduleJob(JobDetail(kind, i + 1, startRecord, endRecord));
      i := i + 1;
    }
  }

  /** The hypotheses under which no range computation wraps around. */
  predicate NoOverflow(n: int, k: int)
  {
    0 <= n && 1 <= k && n * k <= INT_MAX
  }

  lemma {:induction false} JobsAt(kind: JobKind, n: int, k: int, i: int)
    requires 0 <= i < n
    ensures Jobs(kind, n, k)[i] == JobFor(kind, i, k)
    decreases n
  {
    if i < n - 1 {
      JobsAt(kind, n - 1, k, i);
    }
  }

  lemma MulBelow(i: int, n: int, k: int)
    requires 0 <= i < n && 1 <= k
    ensures 0 <= i * k && i * k + k <= n * k
  {
    MulMono(0, i, k);
    MulMono(i + 1, n, k);
    assert (i + 1) * k == i * k + k;
  }

  /** Job i covers exactly the k records `[i*k + 1, i*k + k]`, numbered `i + 1`, of the requested kind. */
  lemma JobRange(kind: JobKind, n: int, k: int, i: int)
    requires NoOverflow(n, k) && 0 <= i < n
    ensures |Jobs(kind, n, k)| == n
    ensures Jobs(kind, n, k)[i] == JobDetail(kind, i + 1, i * k + 1, i * k + k)
  {
    JobsAt(kind, n, k, i);
    MulBelow(i, n, k);
    var m := i * k;
    assert InInt32(m + 1) && InInt32(m + k);
    assert JobFor(kind, i, k) == JobDetail(kind, i + 1, Int32(m + 1), Int32(m + 1 + k - 1));
  }

  /** Consecutive jobs are adjacent: each starts right after the previous one ends. */
  lemma JobsAdjacent(kind: JobKind, n: int, k: int, i: int)
    requires NoOverflow(n, k) && 0 <= i && i + 1 < n
    ensures Jobs(kind, n, k)[i].endRecord + 1 == Jobs(kind, n, k)[i + 1].startRecord
  {
    JobRange(kind, n, k, i);
    JobRange(kind, n, k, i + 1);
  }

  /** Earlier jobs cover strictly smaller record numbers, so no two jobs overlap. */
  lemma JobsAscending(kind: JobKind, n: int, k: int, i: int, j: int)
    requires NoOverflow(n, k) && 0 <= i < j < n
    ensures Jobs(kind, n, k)[i].endRecord < Jobs(kind, n, k)[j].startRecord
  {
    JobRange(kind, n, k, i);
    JobRange(kind, n, k, j);
    MulBelow(i, j, k);
  }

  /** A record number lies in job i's range. */
  predicate InJob(job: JobDetail, p: int)
  {
    job.startRecord <= p <= job.endRecord
  }

  lemma MulMono(a: int, b: int, k: int)
    requires a <= b && 0 <= k
    ensures a * k <= b * k
  {
    assert (b - a) * k >= 0;
  }

  lemma DivBounds(x: int, k: int)
    requires 0 <= x && 1 <= k
    ensures 0 <= x / k && (x / k) * k <= x < (x / k) * k + k
  {
  }

  /** The ranges together cover exactly the record numbers `[1, n*k]`. */
  lemma JobsCover(kind: JobKind, n: int, k: int, p: int)
    requires NoOverflow(n, k)
    ensures |Jobs(kind, n, k)| == n
    ensures (1 <= p <= n * k) <==> exists i :: 0 <= i < n && InJob(Jobs(kind, n, k)[i], p)
  {
    var js := Jobs(kind, n, k);
    if 1 <= p <= n * k {
      var i := (p - 1) / k;
      DivBounds(p - 1, k);
      if i >= n {
        MulMono(n, i, k);
        assert false;
      }
      JobRange(kind, n, k, i);
      assert InJob(js[i], p);
    }
    if exists i :: 0 <= i < n && InJob(js[i], p) {
      var i :| 0 <= i < n && InJob(js[i], p);
      JobRange(kind, n, k, i);
      MulBelow(i, n, k);
    }
  }

  /** No record number belongs to two different jobs. */
  lemma JobsDisjoint(kind: JobKind, n: int, k: int, i: int, j: int, p: int)
    requires NoOverflow(n, k) && 0 <= i < n && 0 <= j < n && i != j
    requires InJob(Jobs(kind, n, k)[i], p)
    ensures !InJob(Jobs(kind, n, k)[j], p)
  {
    if i < j { JobsAscending(kind, n, k, i, j); } else { JobsAscending(kind, n, k, j, i); }
  }

  /** With the fixed configuration of 2 jobs of 5 records the ranges are [1, 5] and [6, 10]. */
  lemma DefaultJobs(kind: JobKind)
    ensures Jobs(kind, 2, 5) == [JobDetail(kind, 1, 1, 5), JobDetail(kind, 2, 6, 10)]
  {
    assert Jobs(kind, 1, 5) == [JobFor(kind, 0, 5)];
  }
}

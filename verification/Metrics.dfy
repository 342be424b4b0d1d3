// Job counts and the success rate (metrics/metrics.service.ts).
module Metrics {
  import opened Records
  import opened Lifecycle
  import opened FaultyRuns
  import opened CrashFreeRuns
  import opened Listing

  // The rate in hundredths of a percent: 100 * completed / processed, rounded to two decimals,
  // halves up.
  function SuccessRateHundredths(completed: nat, failed: nat): int {
    var processed := completed + failed;
    if processed == 0 then 0 else (20000 * completed + processed) / (2 * processed)
  }

  lemma RoundedBounds(completed: nat, failed: nat)
    requires completed + failed > 0
    ensures var p := completed + failed; var r := SuccessRateHundredths(completed, failed);
      2 * r * p <= 20000 * completed + p < 2 * r * p + 2 * p
  {
    var p := completed + failed;
    var t := 20000 * completed + p;
    assert t == (2 * p) * (t / (2 * p)) + t % (2 * p);
  }

  // The reported rate is a percentage, within half a hundredth of the exact ratio, halves up; it
  // shows 100 % exactly when something was processed and at most one job in 20000 failed, and 0 %
  // exactly when nothing was processed or fewer than one job in 20000 completed.
  lemma RateIsRounded(completed: nat, failed: nat)
    ensures var p := completed + failed; var r := SuccessRateHundredths(completed, failed);
      && 0 <= r <= 10000
      && (p > 0 ==> -p < 2 * (r * p - 10000 * completed) <= p)
      && (r == 10000 <==> p > 0 && 20000 * failed <= p)
      && (r == 0 <==> p == 0 || 20000 * completed < p)
  {
    if completed + failed > 0 {
      PositiveRate(completed, failed);
    }
  }

  lemma PositiveRate(completed: nat, failed: nat)
    requires completed + failed > 0
    ensures var p := completed + failed; var r := SuccessRateHundredths(completed, failed);
      && 0 <= r <= 10000
      && -p < 2 * (r * p - 10000 * completed) <= p
      && (r == 10000 <==> 20000 * failed <= p)
      && (r == 0 <==> 20000 * completed < p)
  {
    var p := completed + failed;
    var r := SuccessRateHundredths(completed, failed);
    RoundedBounds(completed, failed);
    hide SuccessRateHundredths;
    var t := r * p;
    assert 2 * r * p == 2 * t;
    if r > 10000 {
      Product(10001, r, p);
    }
    if r < 10000 {
      Product(r, 9999, p);
    }
    if r > 0 {
      Product(1, r, p);
    }
  }

  lemma Product(a: int, b: int, p: nat)
    requires a <= b
    ensures a * p <= b * p
  {
  }

  lemma CancelFactor(a: int, b: int, d: nat)
    requires d > 0 && a * d <= b * d
    ensures a <= b
  {
    assert (b + 1) * d == b * d + d;
    if a > b {
      Product(b + 1, a, d);
    }
  }

  // Quotients compare as the fractions do.
  lemma QuotientsCompare(t: nat, d: nat, u: nat, e: nat)
    requires d > 0 && e > 0 && t * e <= u * d
    ensures t / d <= u / e
  {
    var q: int := t / d;
    assert t == d * q + t % d;
    Product(q * d, t, e);
    assert (q * e) * d == (q * d) * e;
    CancelFactor(q * e, u, d);
    assert u == e * (u / e) + u % e;
    assert q * e < (u / e + 1) * e;
    CancelFactor(q, u / e, e) by {
      AtMostQuotient(q, u, e);
    }
  }

  lemma AtMostQuotient(q: int, u: nat, e: nat)
    requires e > 0 && q * e <= u
    ensures q * e <= (u / e) * e
  {
    assert u == e * (u / e) + u % e;
    if q > u / e {
      Product(u / e + 1, q, e);
    } else {
      Product(q, u / e, e);
    }
  }

  // One more completed job never lowers the rate, one more failed job never raises it.
  lemma RateIsMonotone(completed: nat, failed: nat)
    ensures SuccessRateHundredths(completed, failed) <= SuccessRateHundredths(completed + 1, failed)
    ensures SuccessRateHundredths(completed, failed + 1) <= SuccessRateHundredths(completed, failed)
  {
    var c, p := completed, completed + failed;
    if p > 0 {
      CrossProducts(c, p);
      QuotientsCompare(20000 * c + p, 2 * p, 20000 * (c + 1) + (p + 1), 2 * (p + 1));
      QuotientsCompare(20000 * c + (p + 1), 2 * (p + 1), 20000 * c + p, 2 * p);
    }
  }

  lemma CrossProducts(c: nat, p: nat)
    requires c <= p
    ensures (20000 * c + p) * (2 * (p + 1)) <= (20000 * (c + 1) + (p + 1)) * (2 * p)
    ensures (20000 * c + (p + 1)) * (2 * p) <= (20000 * c + p) * (2 * (p + 1))
  {
    var x, y := c * p, p * p;
    assert (20000 * c + p) * (2 * (p + 1)) == 40000 * x + 40000 * c + 2 * y + 2 * p;
    assert (20000 * (c + 1) + (p + 1)) * (2 * p) == 40000 * x + 40000 * p + 2 * y + 2 * p;
    assert (20000 * c + (p + 1)) * (2 * p) == 40000 * x + 2 * y + 2 * p;
  }

  // ---------- The answer ----------

  datatype Report = Report(
    jobsProcessed: nat, completedJobs: nat, failedJobs: nat, queueLength: nat, activeJobs: nat,
    averageProcessingTimeMs: real, successRateHundredths: int)

  // The counts are those of the stored rows. The average lies between the shortest and the longest
  // duration of a completed job, and is 0 when there is none; the rate is 0 exactly when nothing was
  // processed or fewer than one processed job in 20000 completed.
  method GetMetrics(table: JobTable, waiting: nat, active: nat) returns (r: Report)
    ensures r.completedJobs == |set i | 0 <= i < |table.rows| && table.rows[i].job.status == JobStatus.Completed|
    ensures r.failedJobs == |set i | 0 <= i < |table.rows| && table.rows[i].job.status == JobStatus.Failed|
    ensures r.jobsProcessed == r.completedJobs + r.failedJobs
    ensures r.queueLength == waiting && r.activeJobs == active
    ensures r.jobsProcessed == 0 ==> r.successRateHundredths == 0
    ensures r.jobsProcessed > 0 ==>
      var p: int := r.jobsProcessed; -p < 2 * (r.successRateHundredths * p - 10000 * r.completedJobs) <= p
    ensures r.successRateHundredths == 0 <==> r.jobsProcessed == 0 || 20000 * r.completedJobs < r.jobsProcessed
    ensures Durations(table.rows) == [] ==> r.averageProcessingTimeMs == 0.0
    ensures Durations(table.rows) != [] ==>
      r.averageProcessingTimeMs * |Durations(table.rows)| as real == Sum(Durations(table.rows)) as real
    ensures forall low: int, high: int ::
      Durations(table.rows) != [] && AllBetween(table.rows, low, high) ==>
        low as real <= r.averageProcessingTimeMs <= high as real
  {
    hide Durations;
    hide Sum;
    hide AllBetween;
    hide SuccessRateHundredths;
    var completed := table.CountCompletedJobs();
    var failed := table.CountFailedJobs();
    var average := table.AverageProcessingTimeMs();
    RateIsRounded(completed, failed);
    r := Report(completed + failed, completed, failed, waiting, active,
                if average.Some? then average.value else 0.0, SuccessRateHundredths(completed, failed));
    if average.Some? {
      AverageHasBounds(table.rows, average.value);
    }
  }

  lemma AverageHasBounds(rows: seq<Row>, average: real)
    requires Durations(rows) != [] && average * |Durations(rows)| as real == Sum(Durations(rows)) as real
    ensures forall low: int, high: int :: AllBetween(rows, low, high) ==> low as real <= average <= high as real
  {
    forall low: int, high: int | AllBetween(rows, low, high)
      ensures low as real <= average <= high as real
    {
      AverageIsBetween(rows, low, high, average);
    }
  }

  // The durations of all completed rows lie between two bounds.
  ghost predicate AllBetween(rows: seq<Row>, low: int, high: int) {
    forall row :: row in rows && row.job.status == JobStatus.Completed && row.job.processingTimeMs.Some? ==>
      low <= row.job.processingTimeMs.value <= high
  }

  lemma AverageIsBetween(rows: seq<Row>, low: int, high: int, average: real)
    requires AllBetween(rows, low, high) && Durations(rows) != []
    requires average * |Durations(rows)| as real == Sum(Durations(rows)) as real
    ensures low as real <= average <= high as real
  {
    hide Durations;
    hide Sum;
    var durations := Durations(rows);
    forall d | d in durations
      ensures low <= d <= high
    {
      DurationsAre(rows, d);
    }
    hide AllBetween;
    SumIsBetween(durations, low, high);
    BetweenScaled(low, high, average, |durations|, Sum(durations));
  }

  lemma BetweenScaled(low: int, high: int, average: real, n: nat, sum: int)
    requires n > 0 && low * n <= sum <= high * n && average * n as real == sum as real
    ensures low as real <= average <= high as real
  {
    ProductAsReal(low, n);
    ProductAsReal(high, n);
    CancelReal(low as real, average, n as real);
    CancelReal(average, high as real, n as real);
  }

  lemma ProductAsReal(a: int, b: int)
    ensures (a * b) as real == a as real * b as real
  {
  }

  lemma CancelReal(a: real, b: real, n: real)
    requires n > 0.0 && a * n <= b * n
    ensures a <= b
  {
    assert a == (a * n) / n && b == (b * n) / n;
  }

  // ---------- The failed jobs ----------

  function DeadLetters(s: State): set<JobId> {
    set id | id in s.lanes && IsDeadLetter(s.lanes[id].row)
  }

  function OutOfAttempts(s: State): set<JobId> {
    set id | id in s.lanes && HasExhaustedAttempts(s.lanes[id].row)
  }

  // In every reachable state with atomic adds, whatever else fails: the jobs counted as failed are
  // the dead letters and the jobs whose enqueue failed, no job is both, the dead letters are the
  // jobs without attempts left, and all the others were never attempted.
  lemma FailedJobsSplit(cfg: Config, s: State)
    requires !cfg.lossyAdd && Reachable(cfg, s)
    ensures WithStatus(s, JobStatus.Failed) == DeadLetters(s) + EnqueueFailures(s)
    ensures |WithStatus(s, JobStatus.Failed)| == |DeadLetters(s)| + |EnqueueFailures(s)|
    ensures DeadLetters(s) == OutOfAttempts(s)
    ensures forall id :: id in EnqueueFailures(s) ==> s.lanes[id].entry.None? && s.lanes[id].attempts == map[]
  {
    AtomicAddsMakeDeadLettersExact(cfg);
    forall id | id in s.lanes
      ensures id in WithStatus(s, JobStatus.Failed) <==> id in DeadLetters(s) || id in EnqueueFailures(s)
      ensures !(id in DeadLetters(s) && id in EnqueueFailures(s))
      ensures id in EnqueueFailures(s) ==> s.lanes[id].entry.None? && s.lanes[id].attempts == map[]
    {
      EnqueueFailureIsRecorded(cfg, s, id);
    }
    DisjointSizes(DeadLetters(s), EnqueueFailures(s));
  }
}

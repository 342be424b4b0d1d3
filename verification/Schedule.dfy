// When a submitted job may first run (jobs/jobs.service.ts, resolveDelay).
module Schedule {
  import opened Wrappers
  import opened Records

  datatype ScheduleRequest = ScheduleRequest(delayMs: Option<int>, runAt: Option<Time>)

  datatype ResolvedSchedule = ResolvedSchedule(delayMs: Option<int>, runAt: Option<Time>)

  datatype ScheduleError = BothGiven | NotInFuture | NegativeDelay

  // A request is accepted exactly when it names at most one schedule and that one is not in the
  // past; the resolved delay is the only delay stored, positive, and ends at a requested time. A
  // request that names none, or no delay, is resolved to none.
  function ResolveDelay(input: ScheduleRequest, now: Time): (r: Result<ResolvedSchedule, ScheduleError>)
    ensures r.Success? <==>
      && !(input.delayMs.Some? && input.runAt.Some?)
      && (input.runAt.Some? ==> input.runAt.value > now)
      && (input.delayMs.Some? ==> input.delayMs.value >= 0)
    ensures r.Success? ==>
      && r.value.runAt == input.runAt
      && (r.value.delayMs.Some? ==> r.value.delayMs.value > 0)
      && (r.value.runAt.Some? ==> now + EnqueueDelay(r.value.delayMs) == r.value.runAt.value)
      && (input.delayMs.Some? ==> EnqueueDelay(r.value.delayMs) == input.delayMs.value)
    ensures r.Success? && input.runAt.None? && (input.delayMs.None? || input.delayMs.value == 0) ==>
      r.value.delayMs.None?
    ensures r.Success? && input.runAt.Some? ==> r.value.delayMs == Some(input.runAt.value - now)
    ensures r.Success? && input.delayMs.Some? && input.delayMs.value > 0 ==> r.value.delayMs == input.delayMs
    ensures r.Failure? ==>
      r.error == if input.delayMs.Some? && input.runAt.Some? then BothGiven
                 else if input.runAt.Some? then NotInFuture else NegativeDelay
  {
    if input.delayMs.Some? && input.runAt.Some? then Failure(BothGiven)
    else if input.runAt.Some? then
      var delayMs := input.runAt.value - now;
      if delayMs <= 0 then Failure(NotInFuture)
      else Success(ResolvedSchedule(Some(delayMs), input.runAt))
    else if input.delayMs.Some? then
      if input.delayMs.value < 0 then Failure(NegativeDelay)
      else if input.delayMs.value == 0 then Success(ResolvedSchedule(None, None))
      else Success(ResolvedSchedule(input.delayMs, None))
    else Success(ResolvedSchedule(None, None))
  }

  // The delay handed to the queue: the option is only set when it is positive.
  function EnqueueDelay(delayMs: Option<int>): (r: nat)
    ensures delayMs.Some? && delayMs.value > 0 ==> r == delayMs.value
    ensures delayMs.None? || delayMs.value <= 0 ==> r == 0
  {
    if delayMs.Some? && delayMs.value > 0 then delayMs.value else 0
  }

  // The delay column is a 32-bit integer; the insert is rejected when the delay does not fit.
  predicate FitsColumn(delayMs: Option<int>): (r: bool)
    ensures r <==> delayMs.None? || -2147483648 <= delayMs.value <= 2147483647
  {
    delayMs.Some? ==> -INT4_MAX - 1 <= delayMs.value <= INT4_MAX
  }
}

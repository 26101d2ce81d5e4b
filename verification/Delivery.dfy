/** Webhook deliveries: the retry state machine, its time table and its budget over whole runs. */
module Delivery {
  import opened Wrappers

  datatype Status = Pending | InFlight | Succeeded | Failed | DeadLetter | Canceled

  predicate Terminal(s: Status) {
    s.Succeeded? || s.DeadLetter? || s.Canceled?
  }

  const MAX_ATTEMPTS: int := 10

  // Times are nanoseconds.
  const MINUTE: int := 60_000_000_000
  const HOUR: int := 60 * MINUTE
  const MAX_RETRY_AFTER: int := HOUR

  /** Base interval before attempt n. */
  function Backoff(n: int): (d: int)
    ensures d >= 0 && (n >= 2 ==> d >= MINUTE)
  {
    if n <= 1 then 0
    else if n == 2 then MINUTE
    else if n == 3 then 5 * MINUTE
    else if n == 4 then 30 * MINUTE
    else if n == 5 then 2 * HOUR
    else if n == 6 then 6 * HOUR
    else if n == 7 then 12 * HOUR
    else 24 * HOUR
  }

  /** 2 to the power -50: no rounding in the factor or the product is off by more, relative to the base. */
  const TINY: real := 1.0 / 1125899906842624.0

  type Rounding = e: real | -TINY <= e <= TINY witness 0.0

  /** The random number behind a retry, and what floating point makes of the factor computed from it. */
  datatype Jitter = Jitter(rnd: real, error: Rounding) {

    function Factor(): real {
      0.8 + 0.4 * (if rnd < 0.0 then 0.0 else if rnd >= 1.0 then 0.999999 else rnd) + error
    }
  }

  /** When to try again after attempt failedNo: the backoff of the next one, jittered by 20% and cut to whole
      nanoseconds. */
  function NextAttemptAt(now: int, failedNo: int, jitter: Jitter): int {
    var base := Backoff(failedNo + 1);
    if base == 0 then now else now + (base as real * jitter.Factor()).Floor
  }

  /** A delay within 20% of the base, but for one nanosecond that rounding may cost. */
  predicate InWindow(delay: int, base: int) {
    8 * base - 10 <= 10 * delay <= 12 * base
  }

  /** The waits after attempts 1 to 9, in minutes: 1, 5 and 30 minutes, 2, 6 and 12 hours, then a day each. */
  const WAITS: seq<int> := [1, 5, 30, 120, 360, 720, 1440, 1440, 1440]

  lemma NextAttemptWindow(now: int, failedNo: int, jitter: Jitter)
    requires 1 <= failedNo
    ensures InWindow(NextAttemptAt(now, failedNo, jitter) - now,
                     60_000_000_000 * if failedNo <= 9 then WAITS[failedNo - 1] else 1440)
  {
    var base := Backoff(failedNo + 1);
    var b, x := base as real, base as real * jitter.Factor();
    assert b * 0.8 - b * TINY <= x <= b * 1.2 + b * TINY by { Scaled(b, jitter.Factor() - jitter.error, jitter.error); }
    assert b * TINY < 0.1;
    assert base % 5 == 0;
    assert (base / 5 * 4) as real == b * 0.8 && (base / 5 * 6) as real == b * 1.2;
  }

  lemma Scaled(b: real, f: real, e: real)
    requires b >= 0.0 && 0.8 <= f <= 1.2 && -TINY <= e <= TINY
    ensures b * 0.8 - b * TINY <= b * (f + e) <= b * 1.2 + b * TINY
  {
    assert b * 0.8 <= b * f <= b * 1.2;
    assert -(b * TINY) <= b * e <= b * TINY;
    assert b * (f + e) == b * f + b * e;
  }

  /** What a delivery row carries through its transitions. */
  datatype Row = Row(attemptNo: int, status: Status, nextAt: int, deliveredAt: Option<int>, version: int)

  /** One HTTP attempt; code 0 is no response. */
  datatype Outcome = Outcome(code: int, retryAfter: int)

  predicate Accepted(o: Outcome) {
    200 <= o.code < 300
  }

  predicate IsDue(d: Row, now: int) {
    (d.status.Pending? || d.status.Failed?) && d.nextAt <= now
  }

  function Claimed(d: Row): Row {
    d.(status := InFlight, attemptNo := d.attemptNo + 1, version := d.version + 1)
  }

  function AfterOutcome(d: Row, now: int, o: Outcome, jitter: Jitter): Row {
    var e := d.(version := d.version + 1);
    if Accepted(o) then e.(status := Succeeded, deliveredAt := Some(now))
    else if o.code == 410 then e.(status := Canceled)
    else if d.attemptNo >= MAX_ATTEMPTS then e.(status := DeadLetter)
    else if o.code == 429 && o.retryAfter > 0 then
      e.(status := Failed, nextAt := now + if o.retryAfter < MAX_RETRY_AFTER then o.retryAfter else MAX_RETRY_AFTER)
    else e.(status := Failed, nextAt := NextAttemptAt(now, d.attemptNo, jitter))
  }

  function Reaped(d: Row, now: int): Row {
    d.(status := if d.attemptNo >= MAX_ATTEMPTS then DeadLetter else Failed, nextAt := now, version := d.version + 1)
  }

  function Released(d: Row, now: int, retryIn: int): Row {
    d.(attemptNo := if d.attemptNo > 0 then d.attemptNo - 1 else d.attemptNo, status := Failed,
       nextAt := now + retryIn, version := d.version + 1)
  }

  function Reset(d: Row, now: int): Row {
    d.(status := Pending, attemptNo := 0, nextAt := now, deliveredAt := None, version := d.version + 1)
  }

  class Delivery {
    var attemptNo: int
    var status: Status
    var nextAttemptAt: int
    var deliveredAt: Option<int>
    var version: int

    function Contents(): Row
      reads this
    {
      Row(attemptNo, status, nextAttemptAt, deliveredAt, version)
    }

    constructor (now: int)
      ensures Contents() == NewRow(now)
    {
      attemptNo, status, nextAttemptAt, deliveredAt, version := 0, Pending, now, None, 0;
    }

    method Claim(now: int) returns (ok: bool)
      modifies this
      ensures ok == IsDue(old(Contents()), now)
      ensures Contents() == if ok then Claimed(old(Contents())) else old(Contents())
    {
      if !((status == Pending || status == Failed) && nextAttemptAt <= now) { return false; }
      status := InFlight;
      attemptNo := attemptNo + 1;
      version := version + 1;
      return true;
    }

    method ApplyOutcome(now: int, o: Outcome, jitter: Jitter) returns (ok: bool)
      modifies this
      ensures ok == old(status).InFlight?
      ensures Contents() == if ok then AfterOutcome(old(Contents()), now, o, jitter) else old(Contents())
    {
      if status != InFlight { return false; }
      version := version + 1;
      if Accepted(o) {
        status := Succeeded;
        deliveredAt := Some(now);
      } else if o.code == 410 {
        status := Canceled;
      } else if attemptNo >= MAX_ATTEMPTS {
        status := DeadLetter;
      } else {
        status := Failed;
        if o.code == 429 && o.retryAfter > 0 {
          nextAttemptAt := now + if o.retryAfter < MAX_RETRY_AFTER then o.retryAfter else MAX_RETRY_AFTER;
        } else {
          nextAttemptAt := NextAttemptAt(now, attemptNo, jitter);
        }
      }
      return true;
    }

    method Reap(now: int) returns (ok: bool)
      modifies this
      ensures ok == old(status).InFlight?
      ensures Contents() == if ok then Reaped(old(Contents()), now) else old(Contents())
    {
      if status != InFlight { return false; }
      nextAttemptAt := now;
      if attemptNo >= MAX_ATTEMPTS { status := DeadLetter; } else { status := Failed; }
      version := version + 1;
      return true;
    }

    method Cancel() returns (changed: bool)
      modifies this
      ensures changed == !Terminal(old(status))
      ensures Contents() == if changed then old(Contents()).(status := Canceled, version := old(version) + 1)
              else old(Contents())
    {
      if Terminal(status) { return false; }
      status := Canceled;
      version := version + 1;
      return true;
    }

    method ResetForRetry(now: int) returns (ok: bool)
      modifies this
      ensures ok == (old(status) in {Failed, DeadLetter, Succeeded})
      ensures Contents() == if ok then Reset(old(Contents()), now) else old(Contents())
    {
      if status != Failed && status != DeadLetter && status != Succeeded { return false; }
      status := Pending;
      attemptNo := 0;
      nextAttemptAt := now;
      deliveredAt := None;
      version := version + 1;
      return true;
    }

    method Release(now: int, retryIn: int) returns (ok: bool)
      modifies this
      ensures ok == old(status).InFlight?
      ensures Contents() == if ok then Released(old(Contents()), now, retryIn) else old(Contents())
    {
      if status != InFlight { return false; }
      if attemptNo > 0 { attemptNo := attemptNo - 1; }
      status := Failed;
      nextAttemptAt := now + retryIn;
      version := version + 1;
      return true;
    }
  }

  function NewRow(now: int): Row {
    Row(0, Pending, now, None, 0)
  }

  // ---- whole runs ----

  datatype Action =
    | DoClaim(now: int)
    | DoOutcome(now: int, o: Outcome, jitter: Jitter)
    | DoReap(now: int)
    | DoCancel
    | DoReset(now: int)
    | DoRelease(now: int, retryIn: int)

  /** A delivery, and how many outcomes it has had since it was created or last reset by hand. */
  datatype Trace = Trace(row: Row, outcomes: nat)

  /** A refused call changes nothing. */
  function Step(t: Trace, a: Action): Trace {
    var d := t.row;
    match a
    case DoClaim(now) => if IsDue(d, now) then t.(row := Claimed(d)) else t
    case DoOutcome(now, o, jitter) =>
      if d.status.InFlight? then Trace(AfterOutcome(d, now, o, jitter), t.outcomes + 1) else t
    case DoReap(now) => if d.status.InFlight? then t.(row := Reaped(d, now)) else t
    case DoCancel => if Terminal(d.status) then t else t.(row := d.(status := Canceled, version := d.version + 1))
    case DoReset(now) =>
      if d.status in {Failed, DeadLetter, Succeeded} then Trace(Reset(d, now), 0) else t
    case DoRelease(now, retryIn) => if d.status.InFlight? then t.(row := Released(d, now, retryIn)) else t
  }

  function Run(t: Trace, acts: seq<Action>): Trace {
    if acts == [] then t else Step(Run(t, acts[..|acts| - 1]), acts[|acts| - 1])
  }

  predicate Budget(t: Trace) {
    && 0 <= t.row.attemptNo <= MAX_ATTEMPTS
    && (t.row.status.Pending? || t.row.status.Failed? ==> t.row.attemptNo < MAX_ATTEMPTS)
    && (t.row.status.InFlight? ==> 1 <= t.row.attemptNo)
    && t.outcomes <= t.row.attemptNo - (if t.row.status.InFlight? then 1 else 0)
  }

  /** Over every run of a delivery: pending or failed leaves at least one attempt, in flight is one of
      attempts 1 to 10, and at most 10 outcomes are recorded between manual resets. */
  lemma {:induction false} RetryBudget(created: int, acts: seq<Action>)
    ensures var t := Run(Trace(NewRow(created), 0), acts);
            && (t.row.status.Pending? || t.row.status.Failed? ==> 0 <= t.row.attemptNo < 10)
            && (t.row.status.InFlight? ==> 1 <= t.row.attemptNo <= 10)
            && t.outcomes <= 10
            && Budget(t)
  {
    if acts == [] {
    } else {
      RetryBudget(created, acts[..|acts| - 1]);
    }
  }

  /** Nothing leaves canceled. */
  lemma {:induction false} CanceledIsAbsorbing(t: Trace, acts: seq<Action>)
    requires t.row.status.Canceled?
    ensures Run(t, acts) == t
  {
    if acts == [] {
    } else {
      CanceledIsAbsorbing(t, acts[..|acts| - 1]);
    }
  }

  /** What becomes of a delivery in flight, by the response: a 2xx is success, a 410 cancels, the tenth failure gives
      up; before that a 429 with a delay is retried after the delay but within an hour, and anything else after
      its wait. In flight is the only status in which an outcome counts. */
  lemma OutcomeExactly(t: Trace, now: int, o: Outcome, jitter: Jitter)
    ensures var d, e := t.row, Step(t, DoOutcome(now, o, jitter)).row;
            if d.status != InFlight then e == d
            else if 200 <= o.code <= 299 then
              e == Row(d.attemptNo, Succeeded, d.nextAt, Some(now), d.version + 1)
            else if o.code == 410 then e == Row(d.attemptNo, Canceled, d.nextAt, d.deliveredAt, d.version + 1)
            else if d.attemptNo >= 10 then e == Row(d.attemptNo, DeadLetter, d.nextAt, d.deliveredAt, d.version + 1)
            else
              && e == Row(d.attemptNo, Failed, e.nextAt, d.deliveredAt, d.version + 1)
              && (o.code == 429 && o.retryAfter > 0 ==>
                    e.nextAt == now + if o.retryAfter < 3600_000_000_000 then o.retryAfter else 3600_000_000_000)
              && (!(o.code == 429 && o.retryAfter > 0) && 1 <= d.attemptNo ==>
                    InWindow(e.nextAt - now, 60_000_000_000 * WAITS[d.attemptNo - 1]))
  {
    if 1 <= t.row.attemptNo { NextAttemptWindow(now, t.row.attemptNo, jitter); }
  }

  /** The other steps: a due delivery is claimed with one more attempt; an abandoned one is failed at once, or given
      up after the tenth attempt; one released gets its attempt back; a manual reset starts over; one that has not
      ended can be canceled. */
  lemma StepsExactly(t: Trace, now: int, retryIn: int)
    ensures NewRow(now) == Row(0, Pending, now, None, 0)
    ensures var d := t.row;
            && Step(t, DoClaim(now)).row
               == (if d.status in {Pending, Failed} && d.nextAt <= now
                   then Row(d.attemptNo + 1, InFlight, d.nextAt, d.deliveredAt, d.version + 1) else d)
            && Step(t, DoReap(now)).row
               == (if d.status == InFlight
                   then Row(d.attemptNo, if d.attemptNo >= 10 then DeadLetter else Failed, now, d.deliveredAt,
                            d.version + 1) else d)
            && Step(t, DoRelease(now, retryIn)).row
               == (if d.status == InFlight
                   then Row(if d.attemptNo > 0 then d.attemptNo - 1 else d.attemptNo, Failed, now + retryIn,
                            d.deliveredAt, d.version + 1) else d)
            && Step(t, DoReset(now)).row
               == (if d.status in {Failed, DeadLetter, Succeeded} then Row(0, Pending, now, None, d.version + 1) else d)
            && Step(t, DoCancel).row
               == (if d.status in {Pending, Failed, InFlight}
                   then Row(d.attemptNo, Canceled, d.nextAt, d.deliveredAt, d.version + 1) else d)
  {
  }

  /** In any run, an outcome that schedules a retry makes it due between 0.8 and 1.2 times the
      backoff of the next attempt, one nanosecond aside, unless a 429 asked for a delay, which is at most one hour. */
  lemma RetryWindow(created: int, acts: seq<Action>, now: int, o: Outcome, jitter: Jitter)
    requires Run(Trace(NewRow(created), 0), acts).row.status.InFlight?
    ensures var d := Run(Trace(NewRow(created), 0), acts).row;
            var e := Step(Run(Trace(NewRow(created), 0), acts), DoOutcome(now, o, jitter)).row;
            e.status.Failed? ==>
              && 1 <= d.attemptNo <= 9
              && if o.code == 429 && o.retryAfter > 0 then now < e.nextAt <= now + 3600_000_000_000
                 else InWindow(e.nextAt - now, 60_000_000_000 * WAITS[d.attemptNo - 1])
  {
    RetryBudget(created, acts);
    NextAttemptWindow(now, Run(Trace(NewRow(created), 0), acts).row.attemptNo, jitter);
  }
}

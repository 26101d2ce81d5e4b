/** The outbox relay: rows are published first and marked published afterwards, in one batch
    transaction that may fail to commit. */
module Outbox {
  import opened Wrappers

  const MILLISECOND: int := 1_000_000

  /** The ids whose publish succeeded, among the first n of a batch. */
  function Delivered(ids: seq<nat>, up: nat -> bool, n: nat): seq<nat>
    requires n <= |ids|
  {
    if n == 0 then [] else Delivered(ids, up, n - 1) + if up(n - 1) then [ids[n - 1]] else []
  }

  function Marked(published: set<nat>, ids: seq<nat>, up: nat -> bool, n: nat): set<nat>
    requires n <= |ids|
  {
    if n == 0 then published else Marked(published, ids, up, n - 1) + if up(n - 1) then {ids[n - 1]} else {}
  }

  function Failures(up: nat -> bool, n: nat): nat {
    if n == 0 then 0 else Failures(up, n - 1) + if up(n - 1) then 0 else 1
  }

  /** Rows marked published in a batch are exactly the ones that reached the bus. */
  lemma {:induction false} MarkedAreDelivered(published: set<nat>, ids: seq<nat>, up: nat -> bool, n: nat)
    requires n <= |ids|
    ensures forall id :: id in Marked(published, ids, up, n) <==> id in published || id in Delivered(ids, up, n)
    ensures forall id :: id in Delivered(ids, up, n) <==> exists i | 0 <= i < n :: up(i) && ids[i] == id
    ensures |Delivered(ids, up, n)| + Failures(up, n) == n
  {
    if n == 0 {
    } else {
      MarkedAreDelivered(published, ids, up, n - 1);
    }
  }

  class Relay {
    const maxBackoff: int
    const pollInterval: int
    const batchSize: int
    var bus: seq<nat>
    var published: set<nat>
    var backoff: int

    /** Settings that are not positive fall back to their defaults: 500ms, 30s and 100 rows. */
    constructor (poll: int, max: int, batch: int)
      ensures bus == [] && published == {} && backoff == 0
      ensures pollInterval == (if poll > 0 then poll else 500 * MILLISECOND)
      ensures maxBackoff == (if max > 0 then max else 30_000 * MILLISECOND)
      ensures batchSize == if batch > 0 then batch else 100
      ensures Valid()
    {
      pollInterval := if poll > 0 then poll else 500 * MILLISECOND;
      maxBackoff := if max > 0 then max else 30_000 * MILLISECOND;
      batchSize := if batch > 0 then batch else 100;
      bus, published, backoff := [], {}, 0;
    }

    predicate Valid()
      reads this
    {
      0 < pollInterval && 0 < maxBackoff && 0 <= backoff <= maxBackoff
    }

    /** Publishes every row of the batch; one that fails does not stop the others. */
    method Publish(ids: seq<nat>, up: nat -> bool) returns (results: seq<bool>)
      modifies this`bus
      ensures |results| == |ids| && forall i | 0 <= i < |ids| :: results[i] == up(i)
      ensures bus == old(bus) + Delivered(ids, up, |ids|)
    {
      results := [];
      for i := 0 to |ids|
        invariant |results| == i && forall k | 0 <= k < i :: results[k] == up(k)
        invariant bus == old(bus) + Delivered(ids, up, i)
      {
        if up(i) { bus := bus + [ids[i]]; }
        results := results + [up(i)];
      }
    }

    /** One batch. A row is marked only after its publish succeeded; if the transaction does not commit
        the marks are lost, the messages are not, and the rows will be published again. */
    method ProcessBatch(ids: seq<nat>, up: nat -> bool, committed: bool) returns (failed: nat)
      modifies this`bus, this`published
      ensures bus == old(bus) + Delivered(ids, up, |ids|)
      ensures published == if committed then Marked(old(published), ids, up, |ids|) else old(published)
      ensures failed == Failures(up, |ids|)
      ensures (forall id | id in old(published) :: id in old(bus)) ==> forall id | id in published :: id in bus
    {
      var results := Publish(ids, up);
      var marks := published;
      failed := 0;
      for i := 0 to |ids|
        invariant marks == Marked(old(published), ids, up, i) && failed == Failures(up, i)
      {
        if !results[i] {
          failed := failed + 1;
          continue;
        }
        marks := marks + {ids[i]};
      }
      if committed { published := marks; }
      MarkedAreDelivered(old(published), ids, up, |ids|);
    }

    /** The wait before the next batch: after failures the back-off starts at the poll interval, doubles
        each time and is cut at the maximum; otherwise there is none after a full batch. */
    method NextDelay(total: nat, failed: nat, error: bool) returns (delay: int)
      requires Valid()
      modifies this`backoff
      ensures Valid()
      ensures error || failed > 0 ==>
                delay == backoff == Min(maxBackoff, if old(backoff) == 0 then pollInterval else 2 * old(backoff))
      ensures !error && failed == 0 ==> backoff == 0 && delay == if total >= batchSize then 0 else pollInterval
    {
      if error || failed > 0 {
        if backoff == 0 { backoff := pollInterval; } else { backoff := backoff * 2; }
        if backoff > maxBackoff { backoff := maxBackoff; }
        return backoff;
      }
      backoff := 0;
      if total >= batchSize { return 0; }
      return pollInterval;
    }
  }

  function Min(a: int, b: int): int {
    if a <= b then a else b
  }

  /** The back-off after n failed batches in a row. */
  function BackoffAfter(n: nat, poll: int, max: int): int {
    if n == 0 then 0
    else Min(max, if BackoffAfter(n - 1, poll, max) == 0 then poll else 2 * BackoffAfter(n - 1, poll, max))
  }

  function Doubled(poll: int, n: nat): int {
    if n == 0 then poll else 2 * Doubled(poll, n - 1)
  }

  /** The n-th wait in a row is the poll interval doubled n - 1 times, cut at the maximum. */
  lemma {:induction false} BackoffDoubles(n: nat, poll: int, max: int)
    requires 0 < poll && 0 < max
    ensures BackoffAfter(n + 1, poll, max) == Min(max, Doubled(poll, n)) > 0
  {
    if n == 0 {
      assert BackoffAfter(0, poll, max) == 0;
    } else {
      BackoffDoubles(n - 1, poll, max);
    }
  }
}

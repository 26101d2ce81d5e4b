/** When the ledger catches up: which deliveries are processed, and when delivering everything makes the
    ledger equal to the payment rows. */
module Settling {
  import opened Wrappers
  import opened Amounts
  import opened Accounts
  import B = Balances
  import opened Templates
  import opened Messages
  import opened Postable
  import opened MoneyPath
  import D = Deliveries
  import J = Journals
  import L = LedgerService
  import R = LedgerRuns
  import P = PaymentRuns

  /** Every account the message has an effect on is active or new, and has room for the effect. */
  ghost predicate HasRoom(s: L.Ledger, m: Message, pol: Policy) {
    forall k | Worth(m, pol, k) != 0 :: R.Open(s, k, Worth(m, pol, k))
  }

  /** A first delivery is processed exactly when its message is acceptable and, if it is to be posted, its
      accounts are active and their balances stay in range. Until then nothing changes. */
  lemma ProcessedExactlyWhen(w: World, pol: Policy, id: nat)
    requires Inv(w, pol) && id in w.outbox && id !in w.ledger.inbox
    ensures id in Deliver1(w, id, pol).inbox <==>
              && Acceptable(w.outbox[id], id, pol)
              && (MovesMoney(w.outbox[id].typ) && L.ByEvent(w.ledger.journals, id).None? ==>
                    HasRoom(w.ledger, w.outbox[id], pol))
    ensures id !in Deliver1(w, id, pol).inbox ==> Deliver1(w, id, pol) == w.ledger
  {
    hide Inv, R.Inv, L.Handle, L.ByEvent, FromMessage, Posts, EventEffect, R.Open, Worth;
    LedgerInv(w, pol);
    if FromMessage(w.outbox[id], id).Ok? {
      var ev := FromMessage(w.outbox[id], id).value;
      SameIdAndType(w.outbox[id], id);
      forall k ensures EventEffect(ev, pol, k) == Worth(w.outbox[id], pol, k) {
        WorthIsEvent(w.outbox[id], id, pol, k);
      }
      D.HandledExactlyWhen(w.ledger, ev, pol);
    }
  }

  lemma LedgerInv(w: World, pol: Policy)
    requires Inv(w, pol)
    ensures R.Inv(w.ledger)
  {
    hide R.Inv, CellsInOrder, Listed, RowsMatchOutbox, LedgerMatchesInbox, ProcessedRight;
  }

  lemma SameIdAndType(m: Message, id: nat)
    requires FromMessage(m, id).Ok?
    ensures FromMessage(m, id).value.eventId == id && FromMessage(m, id).value.typ == m.typ
  {
  }

  // ---- delivering everything ----

  function DeliverEach(w: World, ids: seq<nat>, pol: Policy): World {
    if ids == [] then w else Step(DeliverEach(w, ids[..|ids| - 1], pol), Deliver(ids[|ids| - 1]), pol)
  }

  /** The events the ledger can read off the outbox. */
  function EventsOf(outbox: Outgoing): R.Catalog {
    map id | id in outbox && FromMessage(outbox[id], id).Ok? :: FromMessage(outbox[id], id).value
  }

  /** Delivering messages is delivering the events they carry. */
  lemma {:induction false} DeliveredAsEvents(w: World, ids: seq<nat>, pol: Policy)
    requires forall id | id in ids :: id in w.bus && id in w.outbox
    ensures DeliverEach(w, ids, pol) == w.(ledger := D.DeliverEach(w.ledger, EventsOf(w.outbox), ids, pol))
  {
    hide FromMessage, L.Handle;
    if ids == [] {
    } else {
      var init, id := ids[..|ids| - 1], ids[|ids| - 1];
      assert id in ids && forall x | x in init :: x in ids;
      DeliveredAsEvents(w, init, pol);
    }
  }

  /** Open accounts and room on the balances for everything in the outbox that the ledger has not processed
      and can post. */
  ghost predicate Prepared(w: World, pol: Policy) {
    D.NoneBlocked(w.ledger, EventsOf(w.outbox), pol) && D.RoomForAll(w.ledger, EventsOf(w.outbox), pol)
  }

  lemma PreparedIsReady(w: World, pol: Policy)
    requires Inv(w, pol) && Prepared(w, pol)
    ensures D.Ready(w.ledger, EventsOf(w.outbox), pol)
  {
    hide Inv, R.Inv, FromMessage, D.NoneBlocked, D.RoomForAll;
    LedgerInv(w, pol);
    forall id | id in EventsOf(w.outbox) ensures EventsOf(w.outbox)[id].eventId == id {
      SameIdAndType(w.outbox[id], id);
    }
  }

  lemma AcceptableIsDeliverable(outbox: Outgoing, id: nat, pol: Policy)
    requires id in outbox
    ensures Acceptable(outbox[id], id, pol) <==>
              id in EventsOf(outbox) && D.Deliverable(EventsOf(outbox)[id], pol)
  {
    hide FromMessage, Posts;
    if FromMessage(outbox[id], id).Ok? { SameIdAndType(outbox[id], id); }
  }

  /** What has been processed after some deliveries, and what stays the same. */
  lemma EachDelivered(w: World, ids: seq<nat>, pol: Policy)
    requires Inv(w, pol) && Prepared(w, pol) && forall id | id in ids :: id in w.bus && id in w.outbox
    ensures var t := DeliverEach(w, ids, pol);
            && t == w.(ledger := t.ledger) && w.ledger.inbox <= t.ledger.inbox
            && (OnlyEventJournals(w.ledger.journals) ==> OnlyEventJournals(t.ledger.journals))
            && forall id | id in ids && Acceptable(w.outbox[id], id, pol) :: id in t.ledger.inbox
  {
    hide Inv, Prepared, D.Ready, Acceptable, FromMessage, D.Deliverable, DeliverEach, D.DeliverEach;
    PreparedIsReady(w, pol);
    DeliveredAsEvents(w, ids, pol);
    D.HandledExactly(w.ledger, EventsOf(w.outbox), ids, pol);
    forall id | id in ids && Acceptable(w.outbox[id], id, pol)
      ensures id in EventsOf(w.outbox) && D.Deliverable(EventsOf(w.outbox)[id], pol)
    {
      AcceptableIsDeliverable(w.outbox, id, pol);
    }
  }

  lemma ReachableStep(w: World, a: Action, pol: Policy)
    requires Reachable(w, pol)
    ensures Reachable(Step(w, a, pol), pol)
  {
    hide Step;
    var actions :| w == Run(actions, pol);
    var more := actions + [a];
    assert more[..|more| - 1] == actions;
    assert Run(more, pol) == Step(w, a, pol);
  }

  lemma {:induction false} ReachableEach(w: World, ids: seq<nat>, pol: Policy)
    requires Reachable(w, pol)
    ensures Reachable(DeliverEach(w, ids, pol), pol)
  {
    hide Reachable, Step;
    if ids == [] {
    } else {
      ReachableEach(w, ids[..|ids| - 1], pol);
      ReachableStep(DeliverEach(w, ids[..|ids| - 1], pol), Deliver(ids[|ids| - 1]), pol);
    }
  }

  /** Every payment's messages can be posted. */
  predicate AllSound(w: World) {
    forall i | 0 <= i < |w.cells| :: Sound(w.cells[i].store)
  }

  /** The outbox is acceptable throughout exactly when every payment is sound. */
  lemma AcceptableExactlyWhenAllSound(w: World, pol: Policy)
    requires Inv(w, pol)
    ensures (forall id | id in w.outbox :: Acceptable(w.outbox[id], id, pol)) <==> AllSound(w)
  {
    hide P.CellInv, Acceptable, Sound, R.Inv, RowsMatchOutbox, LedgerMatchesInbox, ProcessedRight;
    if AllSound(w) {
      forall id | id in w.outbox ensures Acceptable(w.outbox[id], id, pol) {
        assert SentBySome(w.cells, w.outbox[id]);
        var i :| 0 <= i < |w.cells| && w.outbox[id] in w.cells[i].store.sent;
        AcceptableExactlyWhenSound(w.cells[i], pol);
      }
    }
    if forall id | id in w.outbox :: Acceptable(w.outbox[id], id, pol) {
      forall i | 0 <= i < |w.cells| ensures Sound(w.cells[i].store) {
        forall m, one: nat | m in w.cells[i].store.sent && one != NIL ensures Acceptable(m, one, pol) {
          assert InOutbox(w.outbox, m);
          var id :| id in w.outbox && w.outbox[id] == m;
          AnyIdWillDo(w.cells[i], m, one, id, pol);
        }
        AcceptableExactlyWhenSound(w.cells[i], pol);
      }
    }
  }

  /** From any reachable state with everything on the bus, no needed account blocked and room on the balances:
      delivering every message, in any order and with any repeats, processes them all if and only if every
      payment is sound. */
  lemma AllIsProcessedExactlyWhen(w: World, ids: seq<nat>, pol: Policy)
    requires Reachable(w, pol) && Prepared(w, pol)
    requires (forall id | id in w.outbox :: id in w.bus && id in ids) && forall id | id in ids :: id in w.outbox
    ensures var t := DeliverEach(w, ids, pol);
            && Reachable(t, pol) && t.cells == w.cells && t.outbox == w.outbox
            && (t.ledger.inbox == t.outbox.Keys <==> AllSound(w))
  {
    hide Reachable, Inv, Prepared, Acceptable, Sound;
    ReachableInv(w, pol);
    EachDelivered(w, ids, pol);
    ReachableEach(w, ids, pol);
    AcceptableExactlyWhenAllSound(w, pol);
    var t := DeliverEach(w, ids, pol);
    ReachableInv(t, pol);
    ProcessedAreAcceptable(t, pol);
    if t.ledger.inbox == t.outbox.Keys {
      assert forall id | id in w.outbox :: id in t.ledger.inbox;
    }
    if AllSound(w) {
      assert t.ledger.inbox == t.outbox.Keys;
    }
  }

  lemma ProcessedAreAcceptable(w: World, pol: Policy)
    requires Inv(w, pol)
    ensures w.ledger.inbox <= w.outbox.Keys && forall id | id in w.ledger.inbox :: Acceptable(w.outbox[id], id, pol)
  {
    hide R.Inv, CellsInOrder, Listed, RowsMatchOutbox, LedgerMatchesInbox, Acceptable, L.ByEvent;
  }

  /** So, for sound payments and a ledger without postings by hand, delivering everything makes each balance
      what the payment rows say. */
  lemma TheLedgerCatchesUp(w: World, ids: seq<nat>, pol: Policy, k: AccountKey)
    requires Reachable(w, pol) && Prepared(w, pol) && AllSound(w)
    requires OnlyEventJournals(w.ledger.journals)
    requires (forall id | id in w.outbox :: id in w.bus && id in ids) && forall id | id in ids :: id in w.outbox
    ensures B.Of(DeliverEach(w, ids, pol).ledger.balances, k) == RowsView(w.cells, k)
  {
    hide Reachable, Inv, Prepared, AllSound, OnlyEventJournals, RowsView, B.Of;
    AllIsProcessedExactlyWhen(w, ids, pol);
    ReachableInv(w, pol);
    EachDelivered(w, ids, pol);
    WhenAllIsProcessed(DeliverEach(w, ids, pol), pol, k);
  }
}

/** Delivering catalogued events to a ledger, in any order and with any repeats: which of them get through. */
module Deliveries {
  import opened Wrappers
  import opened Amounts
  import opened Accounts
  import opened Templates
  import opened Sums
  import B = Balances
  import J = Journals
  import L = LedgerService
  import R = LedgerRuns

  /** The catalogue lists each event under its own id. */
  predicate Labelled(cat: R.Catalog) {
    forall id | id in cat :: cat[id].eventId == id
  }

  /** The event moves no money, or has everything it needs to be posted. */
  predicate Deliverable(ev: PaymentEvent, pol: Policy) {
    MovesMoney(ev.typ) ==> Posts(ev, pol)
  }

  /** Every account the event has an effect on is active or new, and has room for the effect. */
  ghost predicate HasRoom(s: L.Ledger, ev: PaymentEvent, pol: Policy) {
    forall k | EventEffect(ev, pol, k) != 0 :: R.Open(s, k, EventEffect(ev, pol, k))
  }

  /** A first delivery gets through exactly when its event is deliverable and, if it is to be posted, its accounts are
      open to it. */
  lemma HandledExactlyWhen(s: L.Ledger, ev: PaymentEvent, pol: Policy)
    requires R.Inv(s) && ev.eventId !in s.inbox
    ensures L.Handle(s, ev, pol).result.Pass? <==>
              && Deliverable(ev, pol)
              && (MovesMoney(ev.typ) && L.ByEvent(s.journals, ev.eventId).None? ==> HasRoom(s, ev, pol))
    ensures L.Handle(s, ev, pol).state.inbox
            == if L.Handle(s, ev, pol).result.Pass? then s.inbox + {ev.eventId} else s.inbox
    ensures L.Handle(s, ev, pol).result.Fail? ==> L.Handle(s, ev, pol).state == s
  {
    hide R.Inv, L.Handle, L.ByEvent, Posts, R.AdmitsEvent, EventEffect, R.Open, R.JournalOf;
    R.HandleDoesExactly(s, ev, pol);
    if Posts(ev, pol) { R.AdmitsExactly(s, ev, pol); }
  }

  function DeliverOne(s: L.Ledger, cat: R.Catalog, id: nat, pol: Policy): L.Ledger {
    if id in cat then L.Handle(s, cat[id], pol).state else s
  }

  function DeliverEach(s: L.Ledger, cat: R.Catalog, ids: seq<nat>, pol: Policy): L.Ledger {
    if ids == [] then s else DeliverOne(DeliverEach(s, cat, ids[..|ids| - 1], pol), cat, ids[|ids| - 1], pol)
  }

  // ---- room ----

  function Abs(x: int): int {
    if x < 0 then -x else x
  }

  /** The deliverable events not handled yet. */
  function Due(s: L.Ledger, cat: R.Catalog, pol: Policy): set<nat> {
    set id | id in cat && id !in s.inbox && Deliverable(cat[id], pol)
  }

  function TurnoverAt(cat: R.Catalog, pol: Policy, k: AccountKey): nat -> int {
    (id: nat) => if id in cat then Abs(EventEffect(cat[id], pol, k)) else 0
  }

  /** No account is blocked that an event still due has an effect on. */
  ghost predicate NoneBlocked(s: L.Ledger, cat: R.Catalog, pol: Policy) {
    forall k, id | k in s.accounts && s.accounts[k] != L.Active && id in Due(s, cat, pol) ::
      EventEffect(cat[id], pol, k) == 0
  }

  /** A balance and all the effects still due, signs aside, fit an int64. */
  ghost predicate RoomForAll(s: L.Ledger, cat: R.Catalog, pol: Policy) {
    forall k :: RoomAt(s, cat, pol, k)
  }

  ghost predicate RoomAt(s: L.Ledger, cat: R.Catalog, pol: Policy, k: AccountKey) {
    Abs(B.Of(s.balances, k)) + SumSet(Due(s, cat, pol), TurnoverAt(cat, pol, k)) <= MAX_INT64
  }

  lemma {:induction false} TurnoverNotNegative(ids: set<nat>, cat: R.Catalog, pol: Policy, k: AccountKey)
    ensures SumSet(ids, TurnoverAt(cat, pol, k)) >= 0
    decreases |ids|
  {
    hide EventEffect;
    if ids == {} {
    } else {
      var x :| x in ids;
      SumSetRemove(ids, TurnoverAt(cat, pol, k), x);
      TurnoverNotNegative(ids - {x}, cat, pol, k);
    }
  }

  /** There is room for any one event that is due. */
  lemma RoomForOne(s: L.Ledger, cat: R.Catalog, pol: Policy, id: nat, k: AccountKey)
    requires RoomAt(s, cat, pol, k) && id in Due(s, cat, pol)
    ensures R.Within(B.Of(s.balances, k) + EventEffect(cat[id], pol, k))
    ensures Abs(B.Of(s.balances, k)) + Abs(EventEffect(cat[id], pol, k))
            + SumSet(Due(s, cat, pol) - {id}, TurnoverAt(cat, pol, k)) <= MAX_INT64
  {
    hide EventEffect, SumSet, B.Of, Deliverable;
    SumSetRemove(Due(s, cat, pol), TurnoverAt(cat, pol, k), id);
    TurnoverNotNegative(Due(s, cat, pol) - {id}, cat, pol, k);
  }

  // ---- one delivery ----

  /** How the ledger changes when an event is handled for the first time: its mark, its effect on the balances
      or none, accounts only ever added active, journals only ever its own. */
  predicate Grown(s: L.Ledger, t: L.Ledger, ev: PaymentEvent, pol: Policy, k: AccountKey) {
    && t.inbox == s.inbox + {ev.eventId}
    && (B.Of(t.balances, k) == B.Of(s.balances, k)
        || B.Of(t.balances, k) == B.Of(s.balances, k) + EventEffect(ev, pol, k))
    && (k in t.accounts ==> t.accounts[k] == if k in s.accounts then s.accounts[k] else L.Active)
  }

  /** New journals are the events' own. */
  predicate OwnJournals(s: L.Ledger, t: L.Ledger) {
    forall j | j in t.journals :: j in s.journals || j.source == J.PaymentEventSource
  }

  lemma HandledGrows(s: L.Ledger, ev: PaymentEvent, pol: Policy, k: AccountKey)
    requires R.Inv(s) && ev.eventId !in s.inbox && L.Handle(s, ev, pol).result.Pass?
    ensures Grown(s, L.Handle(s, ev, pol).state, ev, pol, k) && OwnJournals(s, L.Handle(s, ev, pol).state)
  {
    hide R.Inv, L.Handle, L.ByEvent, Posts, R.AdmitsEvent, EventEffect, B.Of, R.JournalOf, TemplateFor, L.Ensured;
    R.HandleDoesExactly(s, ev, pol);
    R.EventJournal(s, ev, pol);
    if L.ByEvent(s.journals, ev.eventId).Some? {
      R.ShadowedOnlyMarks(s, ev, pol);
    } else {
      R.HandleAddsEffect(s, ev, pol, k);
      AccountsGrow(s, ev, pol, k);
    }
  }

  lemma AccountsGrow(s: L.Ledger, ev: PaymentEvent, pol: Policy, k: AccountKey)
    requires L.Handle(s, ev, pol).result.Pass? && ev.eventId !in s.inbox && L.ByEvent(s.journals, ev.eventId).None?
    ensures var t := L.Handle(s, ev, pol).state;
            k in t.accounts ==> t.accounts[k] == if k in s.accounts then s.accounts[k] else L.Active
  {
    hide L.Ensured, TemplateFor, L.ByEvent, L.PostTx, L.Linked, J.AccountKeysOf;
    if TemplateFor(ev, pol).Ok? {
      R.HandleAccounts(s, ev, pol);
      R.EnsuredExactly(s.accounts, J.AccountKeysOf(TemplateFor(ev, pol).value.entries));
    }
  }

  /** Everything needed for the events still due to get through. */
  ghost predicate Ready(s: L.Ledger, cat: R.Catalog, pol: Policy) {
    R.Inv(s) && Labelled(cat) && NoneBlocked(s, cat, pol) && RoomForAll(s, cat, pol)
  }

  /** What a ready ledger becomes by one delivery: the event is handled exactly when it is deliverable. */
  lemma DeliveryKeepsReady(s: L.Ledger, cat: R.Catalog, id: nat, pol: Policy)
    requires Ready(s, cat, pol)
    ensures var t := DeliverOne(s, cat, id, pol);
            && Ready(t, cat, pol) && OwnJournals(s, t)
            && t.inbox == s.inbox + if id in cat && Deliverable(cat[id], pol) then {id} else {}
  {
    hide R.Inv, L.Handle, Deliverable, EventEffect, B.Of, RoomAt, SumSet, L.ByEvent;
    if id in cat && id !in s.inbox {
      HandledExactlyWhen(s, cat[id], pol);
      R.HandleKeepsInv(s, cat[id], pol);
      if Deliverable(cat[id], pol) {
        forall k | EventEffect(cat[id], pol, k) != 0 ensures R.Open(s, k, EventEffect(cat[id], pol, k)) {
          assert RoomAt(s, cat, pol, k);
          RoomForOne(s, cat, pol, id, k);
        }
        HandledLeavesRoom(s, cat, id, pol);
      }
    } else if id in cat {
      R.SeenChangesNothing(s, cat[id], pol);
    }
  }

  lemma HandledLeavesRoom(s: L.Ledger, cat: R.Catalog, id: nat, pol: Policy)
    requires Ready(s, cat, pol) && id in Due(s, cat, pol) && L.Handle(s, cat[id], pol).result.Pass?
    ensures var t := L.Handle(s, cat[id], pol).state;
            NoneBlocked(t, cat, pol) && RoomForAll(t, cat, pol) && OwnJournals(s, t)
  {
    hide R.Inv, L.Handle, Deliverable, EventEffect, B.Of, RoomAt, SumSet, OwnJournals;
    var t := L.Handle(s, cat[id], pol).state;
    forall k ensures RoomAt(t, cat, pol, k) && Grown(s, t, cat[id], pol, k) && OwnJournals(s, t) {
      HandledGrows(s, cat[id], pol, k);
      assert RoomAt(s, cat, pol, k);
      RoomForOne(s, cat, pol, id, k);
      StillRoom(s, t, cat, id, pol, k);
    }
    assert Grown(s, t, cat[id], pol, AccountKey(NIL, FeeRevenue, Other(""), true));
    forall k, x | k in t.accounts && t.accounts[k] != L.Active && x in Due(t, cat, pol)
      ensures EventEffect(cat[x], pol, k) == 0
    {
      assert Grown(s, t, cat[id], pol, k);
    }
  }

  lemma StillRoom(s: L.Ledger, t: L.Ledger, cat: R.Catalog, id: nat, pol: Policy, k: AccountKey)
    requires Labelled(cat) && id in Due(s, cat, pol) && Grown(s, t, cat[id], pol, k)
    requires Abs(B.Of(s.balances, k)) + Abs(EventEffect(cat[id], pol, k))
             + SumSet(Due(s, cat, pol) - {id}, TurnoverAt(cat, pol, k)) <= MAX_INT64
    ensures RoomAt(t, cat, pol, k)
  {
    hide EventEffect, SumSet, B.Of, Deliverable;
    assert Due(t, cat, pol) == Due(s, cat, pol) - {id};
  }

  // ---- all deliveries ----

  /** On a ledger with its accounts open and room on its balances, deliveries in any order and with any repeats
      handle exactly the deliverable events among them, whatever else is delivered in between. */
  lemma {:induction false} HandledExactly(s: L.Ledger, cat: R.Catalog, ids: seq<nat>, pol: Policy)
    requires Ready(s, cat, pol)
    ensures var t := DeliverEach(s, cat, ids, pol);
            && Ready(t, cat, pol) && OwnJournals(s, t)
            && t.inbox == s.inbox + set id | id in ids && id in cat && Deliverable(cat[id], pol)
  {
    hide Ready, Deliverable, DeliverOne, OwnJournals;
    if ids == [] {
      assert OwnJournals(s, s) by { SameJournals(s); }
    } else {
      var init, id := ids[..|ids| - 1], ids[|ids| - 1];
      HandledExactly(s, cat, init, pol);
      var m := DeliverEach(s, cat, init, pol);
      DeliveryKeepsReady(m, cat, id, pol);
      OwnInTurn(s, m, DeliverOne(m, cat, id, pol));
      assert forall x :: x in ids <==> x in init || x == id;
    }
  }

  lemma SameJournals(s: L.Ledger)
    ensures OwnJournals(s, s)
  {
  }

  lemma OwnInTurn(s: L.Ledger, m: L.Ledger, t: L.Ledger)
    requires OwnJournals(s, m) && OwnJournals(m, t)
    ensures OwnJournals(s, t)
  {
  }

  // ---- a ledger fed by the catalogue ----

  lemma {:induction false} DeliveriesFeed(s: L.Ledger, cat: R.Catalog, ids: seq<nat>, pol: Policy)
    requires Labelled(cat) && R.FedByEvents(s, cat, pol)
    ensures R.FedByEvents(DeliverEach(s, cat, ids, pol), cat, pol)
  {
    hide R.FedByEvents, L.Handle;
    if ids == [] {
    } else {
      var m, id := DeliverEach(s, cat, ids[..|ids| - 1], pol), ids[|ids| - 1];
      DeliveriesFeed(s, cat, ids[..|ids| - 1], pol);
      if id in cat { OneMoreDelivery(m, cat, id, pol); }
    }
  }

  lemma OneMoreDelivery(s: L.Ledger, cat: R.Catalog, id: nat, pol: Policy)
    requires Labelled(cat) && R.FedByEvents(s, cat, pol) && id in cat
    ensures R.FedByEvents(L.Handle(s, cat[id], pol).state, cat, pol)
  {
    hide L.Handle;
    var actions :| R.OnlyEvents(actions, cat) && s == R.Run(actions, pol);
    var more := actions + [R.Event(cat[id])];
    assert more[..|more| - 1] == actions;
    assert R.OnlyEvents(more, cat);
  }

  /** What such a ledger has handled is in the catalogue and deliverable. */
  lemma {:induction false} RunHandlesDeliverable(actions: seq<R.Action>, cat: R.Catalog, pol: Policy)
    requires R.OnlyEvents(actions, cat)
    ensures forall id | id in R.Run(actions, pol).inbox :: id in cat && Deliverable(cat[id], pol)
  {
    hide L.Handle, Deliverable, R.Inv, HasRoom, L.ByEvent;
    if actions == [] {
    } else {
      var init, a := actions[..|actions| - 1], actions[|actions| - 1];
      assert a in actions && forall x | x in init :: x in actions;
      RunHandlesDeliverable(init, cat, pol);
      R.RunKeepsInv(init, pol);
      if a.Event? {
        if a.ev.eventId in R.Run(init, pol).inbox {
          R.SeenChangesNothing(R.Run(init, pol), a.ev, pol);
        } else {
          HandledExactlyWhen(R.Run(init, pol), a.ev, pol);
        }
      }
    }
  }

  lemma FedIsInOrder(s: L.Ledger, cat: R.Catalog, pol: Policy)
    requires R.FedByEvents(s, cat, pol)
    ensures R.Inv(s) && forall id | id in s.inbox :: id in cat && Deliverable(cat[id], pol)
  {
    hide R.Inv, R.Run, R.OnlyEvents, Deliverable;
    var actions :| R.OnlyEvents(actions, cat) && s == R.Run(actions, pol);
    R.RunKeepsInv(actions, pol);
    RunHandlesDeliverable(actions, cat, pol);
  }

  /** A ledger fed by catalogued events, with open accounts and room for those still due: delivering the whole
      catalogue, in any order and with any repeats, handles all of it if and only if every event is deliverable. */
  lemma AllIsHandledExactlyWhen(s: L.Ledger, cat: R.Catalog, ids: seq<nat>, pol: Policy)
    requires Labelled(cat) && R.FedByEvents(s, cat, pol) && NoneBlocked(s, cat, pol) && RoomForAll(s, cat, pol)
    requires forall id | id in cat :: id in ids
    ensures var t := DeliverEach(s, cat, ids, pol);
            && R.FedByEvents(t, cat, pol)
            && (t.inbox == cat.Keys <==> forall id | id in cat :: Deliverable(cat[id], pol))
  {
    hide R.FedByEvents, R.Inv, Labelled, NoneBlocked, RoomForAll, Deliverable, OwnJournals, DeliverEach;
    FedIsInOrder(s, cat, pol);
    HandledExactly(s, cat, ids, pol);
    DeliveriesFeed(s, cat, ids, pol);
    FedIsInOrder(DeliverEach(s, cat, ids, pol), cat, pol);
  }
}

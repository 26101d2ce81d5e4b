/** Refunds and disputes of one merchant in one currency and mode, over any number of payments and providers,
    interleaved in any way with each other and with any other events: what the ledger holds back is exactly what
    is still open. */
module Lifecycles {
  import opened Wrappers
  import opened Amounts
  import opened Accounts
  import opened Balances
  import opened Templates
  import opened Sums
  import D = Deliveries
  import L = LedgerService
  import R = LedgerRuns

  /** Whose holding accounts are looked at. */
  datatype Context = Context(merchant: nat, currency: Currency, live: bool) {

    function Account(code: Code): AccountKey {
      AccountKey(merchant, code, currency, live)
    }

    /** Whether the event is about a refund or dispute held in these accounts. */
    predicate Holds(ev: PaymentEvent) {
      HoldsMoney(ev.typ) && ev.merchant == merchant && ev.amount.currency == currency && ev.live == live
    }
  }

  predicate HoldsMoney(t: EventType) {
    MovesMoney(t) && !t.PaymentCaptured?
  }

  /** An open refund or dispute: its payment, that payment's provider, and its amount. */
  datatype Item = Item(paymentId: string, provider: string, amount: int64)

  type Items = map<string, Item>

  datatype Move =
    | OpenRefund(id: string, item: Item)
    | RefundPaid(id: string, fee: int64)
    | RefundRefused(id: string)
    | OpenDispute(id: string, item: Item, fee: int64)
    | DisputeGone(id: string)
    | DisputeKept(id: string, fee: int64)
    | Elsewhere(ev: PaymentEvent)

  /** What is open, by id, and the events so far; each event's id is its place. */
  datatype Book = Book(refunds: Items, disputes: Items, events: seq<PaymentEvent>)

  function Add(b: Book, cx: Context, typ: EventType, item: Item, fee: int64, refundId: string,
               disputeId: string): Book {
    var ev := PaymentEvent(|b.events| + 1, typ, cx.merchant, item.paymentId, cx.live, item.provider,
                           Money(item.amount, cx.currency), Money(fee, cx.currency), refundId, disputeId);
    b.(events := b.events + [ev])
  }

  /** A refund or dispute is opened once and closed once; a move that does not fit does nothing. Captures, other
      merchants' events and the like happen elsewhere. */
  function Apply(b: Book, cx: Context, m: Move): Book {
    match m
    case OpenRefund(id, item) =>
      if id in b.refunds then b else Add(b.(refunds := b.refunds[id := item]), cx, RefundCreated, item, 0, id, "")
    case RefundPaid(id, fee) =>
      if id !in b.refunds then b
      else Add(b.(refunds := b.refunds - {id}), cx, RefundSucceeded, b.refunds[id], fee, id, "")
    case RefundRefused(id) =>
      if id !in b.refunds then b else Add(b.(refunds := b.refunds - {id}), cx, RefundFailed, b.refunds[id], 0, id, "")
    case OpenDispute(id, item, fee) =>
      if id in b.disputes then b else Add(b.(disputes := b.disputes[id := item]), cx, DisputeOpened, item, fee, "", id)
    case DisputeGone(id) =>
      if id !in b.disputes then b
      else Add(b.(disputes := b.disputes - {id}), cx, DisputeLost, b.disputes[id], 0, "", id)
    case DisputeKept(id, fee) =>
      if id !in b.disputes then b
      else Add(b.(disputes := b.disputes - {id}), cx, DisputeWon, b.disputes[id], fee, "", id)
    case Elsewhere(ev) => if cx.Holds(ev) then b else b.(events := b.events + [ev.(eventId := |b.events| + 1)])
  }

  function Play(cx: Context, moves: seq<Move>): Book {
    if moves == [] then Book(map[], map[], []) else Apply(Play(cx, moves[..|moves| - 1]), cx, moves[|moves| - 1])
  }

  function EffectOfAll(events: seq<PaymentEvent>, pol: Policy, k: AccountKey): int {
    if events == [] then 0 else EffectOfAll(events[..|events| - 1], pol, k) + EventEffect(events[|events| - 1], pol, k)
  }

  function Held(m: Items): string -> int {
    (id: string) => if id in m then m[id].amount as int else 0
  }

  /** What is open adds up to. */
  ghost function Total(m: Items): int {
    SumSet(m.Keys, Held(m))
  }

  lemma HeldMore(m: Items, id: string, item: Item)
    requires id !in m
    ensures Total(m[id := item]) == Total(m) + item.amount
  {
    assert m[id := item].Keys == m.Keys + {id};
    SumSetInsert(m.Keys, Held(m[id := item]), id);
    SumSetSame(m.Keys, Held(m), Held(m[id := item]));
  }

  lemma HeldLess(m: Items, id: string)
    requires id in m
    ensures Total(m - {id}) == Total(m) - m[id].amount
  {
    assert (m - {id}).Keys == m.Keys - {id};
    SumSetRemove(m.Keys, Held(m), id);
    SumSetSame(m.Keys - {id}, Held(m), Held(m - {id}));
  }

  /** The last event's effect on the two holding accounts, by its type. */
  lemma OneMoreEvent(b: Book, n: Book, cx: Context, pol: Policy)
    requires |n.events| == |b.events| + 1 && n.events == b.events + [n.events[|b.events|]]
    ensures var ev := n.events[|b.events|];
            && EffectOfAll(n.events, pol, cx.Account(RefundClearing))
               == EffectOfAll(b.events, pol, cx.Account(RefundClearing))
                  + (if !cx.Holds(ev) then 0
                     else if ev.typ.RefundCreated? then ev.amount.amount
                     else if ev.typ.RefundSucceeded? || ev.typ.RefundFailed? then -(ev.amount.amount as int) else 0)
            && EffectOfAll(n.events, pol, cx.Account(ChargebackReserve))
               == EffectOfAll(b.events, pol, cx.Account(ChargebackReserve))
                  + (if !cx.Holds(ev) then 0
                     else if ev.typ.DisputeOpened? then ev.amount.amount
                     else if ev.typ.DisputeLost? || ev.typ.DisputeWon? then -(ev.amount.amount as int) else 0)
  {
    assert n.events[..|n.events| - 1] == b.events;
  }

  /** What one move adds to the two holding accounts. */
  lemma ApplyHolds(b: Book, cx: Context, m: Move, pol: Policy)
    ensures var n := Apply(b, cx, m);
            && EffectOfAll(n.events, pol, cx.Account(RefundClearing))
               - EffectOfAll(b.events, pol, cx.Account(RefundClearing))
               == Total(n.refunds) - Total(b.refunds)
            && EffectOfAll(n.events, pol, cx.Account(ChargebackReserve))
               - EffectOfAll(b.events, pol, cx.Account(ChargebackReserve))
               == Total(n.disputes) - Total(b.disputes)
  {
    hide Total, EffectOfAll, EventEffect;
    var n := Apply(b, cx, m);
    if n.events != b.events { OneMoreEvent(b, n, cx, pol); }
    match m {
      case OpenRefund(id, item) => if id !in b.refunds { HeldMore(b.refunds, id, item); }
      case RefundPaid(id, fee) => if id in b.refunds { HeldLess(b.refunds, id); }
      case RefundRefused(id) => if id in b.refunds { HeldLess(b.refunds, id); }
      case OpenDispute(id, item, fee) => if id !in b.disputes { HeldMore(b.disputes, id, item); }
      case DisputeGone(id) => if id in b.disputes { HeldLess(b.disputes, id); }
      case DisputeKept(id, fee) => if id in b.disputes { HeldLess(b.disputes, id); }
      case Elsewhere(ev) =>
    }
  }

  lemma {:induction false} PlayHolds(cx: Context, moves: seq<Move>, pol: Policy)
    ensures var b := Play(cx, moves);
            && EffectOfAll(b.events, pol, cx.Account(RefundClearing)) == Total(b.refunds)
            && EffectOfAll(b.events, pol, cx.Account(ChargebackReserve)) == Total(b.disputes)
  {
    hide Total, Apply, EventEffect;
    if moves == [] {
      NothingHeld();
    } else {
      PlayHolds(cx, moves[..|moves| - 1], pol);
      ApplyHolds(Play(cx, moves[..|moves| - 1]), cx, moves[|moves| - 1], pol);
    }
  }

  lemma NothingHeld()
    ensures Total(map[]) == 0
  {
    var none: Items := map[];
    assert none.Keys == {};
  }

  /** The refund was opened at move i, when it was not open, and no later move closed it. */
  predicate OpenedAt(cx: Context, moves: seq<Move>, i: nat, id: string) {
    && i < |moves| && moves[i].OpenRefund? && moves[i].id == id && id !in Play(cx, moves[..i]).refunds
    && forall j | i < j < |moves| ::
         !(moves[j].RefundPaid? && moves[j].id == id) && !(moves[j].RefundRefused? && moves[j].id == id)
  }

  predicate DisputedAt(cx: Context, moves: seq<Move>, i: nat, id: string) {
    && i < |moves| && moves[i].OpenDispute? && moves[i].id == id && id !in Play(cx, moves[..i]).disputes
    && forall j | i < j < |moves| ::
         !(moves[j].DisputeGone? && moves[j].id == id) && !(moves[j].DisputeKept? && moves[j].id == id)
  }

  /** What is open is what was opened and not closed since, with the payment, the provider and the amount it was
      opened with. */
  lemma {:induction false} OpenExactly(cx: Context, moves: seq<Move>, id: string)
    ensures var b := Play(cx, moves);
            && (id in b.refunds <==> exists i: nat :: OpenedAt(cx, moves, i, id))
            && (forall i: nat | OpenedAt(cx, moves, i, id) :: id in b.refunds && b.refunds[id] == moves[i].item)
            && (id in b.disputes <==> exists i: nat :: DisputedAt(cx, moves, i, id))
            && (forall i: nat | DisputedAt(cx, moves, i, id) :: id in b.disputes && b.disputes[id] == moves[i].item)
  {
    hide OpenedAt, DisputedAt, Apply;
    if moves == [] {
      NothingOpened(cx, id);
    } else {
      var init, m := moves[..|moves| - 1], moves[|moves| - 1];
      OpenExactly(cx, init, id);
      OneMoreMove(cx, moves, id);
      AppliedTo(Play(cx, init), cx, m, id);
      forall i: nat | OpenedAt(cx, init, i, id) || DisputedAt(cx, init, i, id)
        ensures i < |init| && init[i] == moves[i]
      {
        WithinMoves(cx, init, i, id);
      }
      if m.OpenRefund? && m.id == id && id !in Play(cx, init).refunds {
        assert OpenedAt(cx, moves, |init|, id);
      }
      if m.OpenDispute? && m.id == id && id !in Play(cx, init).disputes {
        assert DisputedAt(cx, moves, |init|, id);
      }
    }
  }

  lemma NothingOpened(cx: Context, id: string)
    ensures forall i: nat :: !OpenedAt(cx, [], i, id) && !DisputedAt(cx, [], i, id)
  {
  }

  lemma WithinMoves(cx: Context, moves: seq<Move>, i: nat, id: string)
    requires OpenedAt(cx, moves, i, id) || DisputedAt(cx, moves, i, id)
    ensures i < |moves|
  {
  }

  /** What a move does to one refund or dispute. */
  lemma AppliedTo(b: Book, cx: Context, m: Move, id: string)
    ensures var n := Apply(b, cx, m);
            && (id in n.refunds <==>
                  (id in b.refunds && !((m.RefundPaid? || m.RefundRefused?) && m.id == id))
                  || (m.OpenRefund? && m.id == id))
            && (id in n.refunds ==> n.refunds[id] == if id in b.refunds then b.refunds[id] else m.item)
            && (id in n.disputes <==>
                  (id in b.disputes && !((m.DisputeGone? || m.DisputeKept?) && m.id == id))
                  || (m.OpenDispute? && m.id == id))
            && (id in n.disputes ==> n.disputes[id] == if id in b.disputes then b.disputes[id] else m.item)
  {
  }

  lemma OneMoreMove(cx: Context, moves: seq<Move>, id: string)
    requires moves != []
    ensures var init, m := moves[..|moves| - 1], moves[|moves| - 1];
            && (forall i: nat :: OpenedAt(cx, moves, i, id) <==>
                  (OpenedAt(cx, init, i, id) && !((m.RefundPaid? || m.RefundRefused?) && m.id == id))
                  || (i == |init| && m.OpenRefund? && m.id == id && id !in Play(cx, init).refunds))
            && (forall i: nat :: DisputedAt(cx, moves, i, id) <==>
                  (DisputedAt(cx, init, i, id) && !((m.DisputeGone? || m.DisputeKept?) && m.id == id))
                  || (i == |init| && m.OpenDispute? && m.id == id && id !in Play(cx, init).disputes))
  {
    hide Play;
    var n := |moves| - 1;
    forall i: nat | i < n ensures moves[..n][..i] == moves[..i] && moves[..n][i] == moves[i] {}
  }

  // ---- through the ledger ----

  predicate Numbered(events: seq<PaymentEvent>) {
    forall i | 0 <= i < |events| :: events[i].eventId == i + 1
  }

  lemma NoneNumbered()
    ensures Numbered([])
  {
  }

  lemma ApplyNumbers(b: Book, cx: Context, m: Move)
    requires Numbered(b.events)
    ensures Numbered(Apply(b, cx, m).events)
  {
  }

  lemma {:induction false} PlayNumbers(cx: Context, moves: seq<Move>)
    ensures Numbered(Play(cx, moves).events)
  {
    hide Apply, Numbered;
    if moves == [] {
      NoneNumbered();
    } else {
      PlayNumbers(cx, moves[..|moves| - 1]);
      ApplyNumbers(Play(cx, moves[..|moves| - 1]), cx, moves[|moves| - 1]);
    }
  }

  function EventAt(events: seq<PaymentEvent>, id: nat): PaymentEvent
    requires 1 <= id <= |events|
  {
    events[id - 1]
  }

  function CatalogOf(events: seq<PaymentEvent>): R.Catalog {
    map id: nat | 1 <= id <= |events| :: EventAt(events, id)
  }

  lemma NumberedIsLabelled(events: seq<PaymentEvent>)
    requires Numbered(events)
    ensures D.Labelled(CatalogOf(events))
  {
  }

  /** Summing over the ids is summing over the events. */
  lemma {:induction false} SumByIds(events: seq<PaymentEvent>, n: nat, ids: set<nat>, pol: Policy, k: AccountKey)
    requires n <= |events| && forall id :: id in ids <==> 1 <= id <= n
    ensures SumSet(ids, R.EffectOf(CatalogOf(events), pol, k)) == EffectOfAll(events[..n], pol, k)
  {
    hide EventEffect, SumSet;
    if n == 0 {
      assert ids == {};
      R.SumOfNone(R.EffectOf(CatalogOf(events), pol, k));
    } else {
      SumByIds(events, n - 1, ids - {n}, pol, k);
      SumSetRemove(ids, R.EffectOf(CatalogOf(events), pol, k), n);
      assert events[..n][..n - 1] == events[..n - 1];
    }
  }

  /** refund_clearing is the sum of the refunds still pending, chargeback_reserve the sum of the disputes still
      open. */
  ghost predicate HoldsWhatIsOpen(s: L.Ledger, cx: Context, b: Book) {
    && Of(s.balances, cx.Account(RefundClearing)) == Total(b.refunds)
    && Of(s.balances, cx.Account(ChargebackReserve)) == Total(b.disputes)
  }

  /** After any interleaving of refund and dispute lifecycles with any other events, delivered in any order and
      any number of times until each event is handled, the holding accounts are what is open. */
  lemma HoldingsAreWhatIsOpen(cx: Context, moves: seq<Move>, s: L.Ledger, pol: Policy)
    requires R.FedByEvents(s, CatalogOf(Play(cx, moves).events), pol)
    requires s.inbox == CatalogOf(Play(cx, moves).events).Keys
    ensures HoldsWhatIsOpen(s, cx, Play(cx, moves))
  {
    hide Play, R.FedByEvents, SumSet, Total, EffectOfAll, Of;
    var b := Play(cx, moves);
    PlayHolds(cx, moves, pol);
    R.BalancesDependOnEventsAlone(s, s, CatalogOf(b.events), pol, cx.Account(RefundClearing));
    R.BalancesDependOnEventsAlone(s, s, CatalogOf(b.events), pol, cx.Account(ChargebackReserve));
    SumByIds(b.events, |b.events|, s.inbox, pol, cx.Account(RefundClearing));
    SumByIds(b.events, |b.events|, s.inbox, pol, cx.Account(ChargebackReserve));
    assert b.events[..|b.events|] == b.events;
  }

  // ---- delivered to the end ----

  /** What every posting about a refund or dispute needs. */
  predicate Identified(cx: Context, id: string, item: Item) {
    cx.merchant != NIL && Supported(cx.currency) && id != "" && item.paymentId != "" && item.amount > 0
  }

  /** A fee that is posted beside the amount. */
  predicate FeeFits(item: Item, fee: int64) {
    fee >= 0 && item.amount + fee <= MAX_INT64
  }

  /** The move does nothing, or its event has all it needs to be posted. */
  predicate SoundMove(b: Book, cx: Context, m: Move, pol: Policy) {
    match m
    case OpenRefund(id, item) => id !in b.refunds ==> Identified(cx, id, item)
    case RefundPaid(id, fee) =>
      id in b.refunds ==>
        var item := b.refunds[id]; Identified(cx, id, item) && ValidQualifier(item.provider) && FeeFits(item, fee)
    case RefundRefused(id) => id in b.refunds ==> Identified(cx, id, b.refunds[id])
    case OpenDispute(id, item, fee) => id !in b.disputes ==> Identified(cx, id, item) && FeeFits(item, fee)
    case DisputeGone(id) =>
      id in b.disputes ==> Identified(cx, id, b.disputes[id]) && ValidQualifier(b.disputes[id].provider)
    case DisputeKept(id, fee) =>
      id in b.disputes ==>
        var item := b.disputes[id];
        Identified(cx, id, item) && fee >= 0 && (pol.refundChargebackFeeOnWin ==> FeeFits(item, fee))
    case Elsewhere(ev) => !cx.Holds(ev) ==> D.Deliverable(ev.(eventId := 1), pol)
  }

  /** Every move was sound when it was made. */
  predicate AllSound(cx: Context, moves: seq<Move>, pol: Policy) {
    moves == []
    || (AllSound(cx, moves[..|moves| - 1], pol)
        && SoundMove(Play(cx, moves[..|moves| - 1]), cx, moves[|moves| - 1], pol))
  }

  predicate AllDeliverable(events: seq<PaymentEvent>, pol: Policy) {
    forall ev | ev in events :: D.Deliverable(ev, pol)
  }

  /** A move adds no event, or one that is deliverable exactly when the move is sound. */
  lemma SoundMoveDelivers(b: Book, cx: Context, m: Move, pol: Policy)
    ensures var more := Apply(b, cx, m).events;
            if more == b.events then SoundMove(b, cx, m, pol)
            else |more| == |b.events| + 1 && more == b.events + [more[|b.events|]]
                 && (D.Deliverable(more[|b.events|], pol) <==> SoundMove(b, cx, m, pol))
  {
    hide ValidQualifier, Supported;
    match m {
      case OpenRefund(id, item) =>
      case RefundPaid(id, fee) =>
      case RefundRefused(id) =>
      case OpenDispute(id, item, fee) =>
      case DisputeGone(id) =>
      case DisputeKept(id, fee) =>
      case Elsewhere(ev) =>
    }
  }

  /** The events of a play are all deliverable exactly when every move was sound. */
  lemma {:induction false} PlayDelivers(cx: Context, moves: seq<Move>, pol: Policy)
    ensures AllDeliverable(Play(cx, moves).events, pol) <==> AllSound(cx, moves, pol)
  {
    hide Apply, SoundMove, D.Deliverable;
    if moves == [] {
    } else {
      var b, m := Play(cx, moves[..|moves| - 1]), moves[|moves| - 1];
      PlayDelivers(cx, moves[..|moves| - 1], pol);
      SoundMoveDelivers(b, cx, m, pol);
    }
  }

  lemma CatalogIsDeliverable(events: seq<PaymentEvent>, pol: Policy)
    ensures (forall id | id in CatalogOf(events) :: D.Deliverable(CatalogOf(events)[id], pol))
            <==> AllDeliverable(events, pol)
  {
    hide D.Deliverable;
    var cat := CatalogOf(events);
    if forall id | id in cat :: D.Deliverable(cat[id], pol) {
      forall ev | ev in events ensures D.Deliverable(ev, pol) {
        var i :| 0 <= i < |events| && events[i] == ev;
        assert i + 1 in cat && cat[i + 1] == ev;
      }
    }
  }

  /** From any ledger fed by these events so far, with open accounts and room for those still due: delivering
      them, in any order and with any repeats, handles them all if and only if every move was sound, and the
      holding accounts are then what is open. */
  lemma HoldingsOnceDelivered(cx: Context, moves: seq<Move>, s: L.Ledger, ids: seq<nat>, pol: Policy)
    requires var cat := CatalogOf(Play(cx, moves).events);
             && R.FedByEvents(s, cat, pol) && D.NoneBlocked(s, cat, pol) && D.RoomForAll(s, cat, pol)
             && forall id | id in cat :: id in ids
    ensures var b := Play(cx, moves);
            var t := D.DeliverEach(s, CatalogOf(b.events), ids, pol);
            && (t.inbox == CatalogOf(b.events).Keys <==> AllSound(cx, moves, pol))
            && (AllSound(cx, moves, pol) ==> HoldsWhatIsOpen(t, cx, b))
  {
    hide Play, R.FedByEvents, D.NoneBlocked, D.RoomForAll, D.DeliverEach, D.Deliverable, AllDeliverable;
    hide CatalogOf, HoldsWhatIsOpen, AllSound, D.Labelled;
    var events := Play(cx, moves).events;
    PlayNumbers(cx, moves);
    NumberedIsLabelled(events);
    D.AllIsHandledExactlyWhen(s, CatalogOf(events), ids, pol);
    CatalogIsDeliverable(events, pol);
    PlayDelivers(cx, moves, pol);
    if AllSound(cx, moves, pol) {
      HoldingsAreWhatIsOpen(cx, moves, D.DeliverEach(s, CatalogOf(events), ids, pol), pol);
    }
  }

  // ---- round trips ----

  /** Events about the same money: one owner, currency and mode, and the same amount. */
  predicate SameMoney(a: PaymentEvent, b: PaymentEvent) {
    a.merchant == b.merchant && a.live == b.live && a.amount == b.amount
  }

  /** Both events are new to the ledger, and it takes first a and then b. */
  ghost predicate TakesBoth(s: L.Ledger, a: PaymentEvent, b: PaymentEvent, pol: Policy) {
    && R.Inv(s) && a.eventId != b.eventId
    && a.eventId !in s.inbox && L.ByEvent(s.journals, a.eventId).None?
    && b.eventId !in s.inbox && L.ByEvent(s.journals, b.eventId).None?
    && L.Handle(s, a, pol).result.Pass? && L.Handle(L.Handle(s, a, pol).state, b, pol).result.Pass?
  }

  function Both(s: L.Ledger, a: PaymentEvent, b: PaymentEvent, pol: Policy): L.Ledger {
    L.Handle(L.Handle(s, a, pol).state, b, pol).state
  }

  /** Two events taken one after the other add their effects to every balance. */
  lemma BothAddUp(s: L.Ledger, a: PaymentEvent, b: PaymentEvent, pol: Policy, k: AccountKey)
    requires TakesBoth(s, a, b, pol)
    ensures Of(Both(s, a, b, pol).balances, k) == Of(s.balances, k) + EventEffect(a, pol, k) + EventEffect(b, pol, k)
  {
    hide R.Inv, L.Handle, EventEffect, Of, L.ByEvent, Posts, R.AdmitsEvent;
    var t := L.Handle(s, a, pol).state;
    R.HandleDoesExactly(s, a, pol);
    R.HandleKeepsInv(s, a, pol);
    R.HandleAddsEffect(s, a, pol, k);
    OtherEventsStayUnknown(s, t, a, b, pol);
    R.HandleAddsEffect(t, b, pol, k);
  }

  lemma OtherEventsStayUnknown(s: L.Ledger, t: L.Ledger, a: PaymentEvent, b: PaymentEvent, pol: Policy)
    requires a.eventId != b.eventId && L.ByEvent(s.journals, b.eventId).None?
    requires t.journals == s.journals + R.JournalOf(s, a, pol)
    ensures L.ByEvent(t.journals, b.eventId).None?
  {
    hide TemplateFor, L.Linked;
    if TemplateFor(a, pol).Ok? {
      R.TemplateHeader(a, pol);
      R.LinkedKeeps(s.journals, TemplateFor(a, pol).value);
      assert t.journals[..|t.journals| - 1] == s.journals;
    } else {
      assert t.journals == s.journals;
    }
  }

  lemma FailedRefundCancels(created: PaymentEvent, failed: PaymentEvent, pol: Policy, k: AccountKey)
    requires created.typ == RefundCreated && failed.typ == RefundFailed && SameMoney(created, failed)
    ensures EventEffect(created, pol, k) + EventEffect(failed, pol, k) == 0
  {
  }

  /** On any ledger: a refund that is reserved and then fails leaves every balance as it was. */
  lemma FailedRefundRestores(s: L.Ledger, created: PaymentEvent, failed: PaymentEvent, pol: Policy)
    requires TakesBoth(s, created, failed, pol)
    requires created.typ == RefundCreated && failed.typ == RefundFailed && SameMoney(created, failed)
    ensures forall k :: Of(Both(s, created, failed, pol).balances, k) == Of(s.balances, k)
  {
    hide TakesBoth, Both, EventEffect, Of;
    forall k ensures Of(Both(s, created, failed, pol).balances, k) == Of(s.balances, k) {
      BothAddUp(s, created, failed, pol, k);
      FailedRefundCancels(created, failed, pol, k);
    }
  }

  /** What opening and winning a dispute leave behind: the part of the fee that is not given back. */
  lemma WonDisputeLeaves(start: PaymentEvent, won: PaymentEvent, pol: Policy, k: AccountKey)
    requires start.typ == DisputeOpened && won.typ == DisputeWon && SameMoney(start, won)
    ensures var kept := start.fee.amount - if pol.refundChargebackFeeOnWin then won.fee.amount else 0;
            EventEffect(start, pol, k) + EventEffect(won, pol, k)
            == if k == start.Account(MerchantPayable) then -kept
               else if k == start.Account(ChargebackFeeRevenue) then kept else 0
  {
    hide ValidQualifier;
  }

  /** On any ledger: a dispute that is opened and then won leaves every balance as it was exactly when the fee
      charged is given back: the same fee under the policy that returns it, or no fee at all. */
  lemma WonDisputeRestoresExactlyWhen(s: L.Ledger, start: PaymentEvent, won: PaymentEvent, pol: Policy)
    requires TakesBoth(s, start, won, pol)
    requires start.typ == DisputeOpened && won.typ == DisputeWon && SameMoney(start, won)
    ensures (forall k :: Of(Both(s, start, won, pol).balances, k) == Of(s.balances, k))
            <==> start.fee.amount == if pol.refundChargebackFeeOnWin then won.fee.amount else 0
  {
    hide TakesBoth, Both, EventEffect, Of;
    var kept := start.fee.amount - if pol.refundChargebackFeeOnWin then won.fee.amount else 0;
    forall k ensures Of(Both(s, start, won, pol).balances, k) - Of(s.balances, k)
                     == if k == start.Account(MerchantPayable) then -kept
                        else if k == start.Account(ChargebackFeeRevenue) then kept else 0
    {
      BothAddUp(s, start, won, pol, k);
      WonDisputeLeaves(start, won, pol, k);
    }
    var k := start.Account(ChargebackFeeRevenue);
    assert Of(Both(s, start, won, pol).balances, k) - Of(s.balances, k) == kept;
  }

  lemma SumWithTwo(ids: set<nat>, f: nat -> int, a: nat, b: nat)
    requires a !in ids && b !in ids && a != b
    ensures SumSet(ids + {a, b}, f) == SumSet(ids, f) + f(a) + f(b)
  {
    hide SumSet;
    SumSetInsert(ids, f, a);
    SumSetInsert(ids + {a}, f, b);
    assert ids + {a} + {b} == ids + {a, b};
  }

  /** The two events need not come one after the other: with whatever deliveries in between, a ledger that
      has also handled both differs from one that has handled neither by the sum of their effects. */
  lemma PairAddsUp(s: L.Ledger, t: L.Ledger, cat: R.Catalog, pol: Policy, a: nat, b: nat, k: AccountKey)
    requires R.FedByEvents(s, cat, pol) && R.FedByEvents(t, cat, pol) && a in cat && b in cat && a != b
    requires a !in s.inbox && b !in s.inbox && t.inbox == s.inbox + {a, b}
    ensures Of(t.balances, k) == Of(s.balances, k) + EventEffect(cat[a], pol, k) + EventEffect(cat[b], pol, k)
  {
    hide R.FedByEvents, Of, EventEffect, SumSet;
    R.BalancesDependOnEventsAlone(s, s, cat, pol, k);
    R.BalancesDependOnEventsAlone(t, t, cat, pol, k);
    SumWithTwo(s.inbox, R.EffectOf(cat, pol, k), a, b);
  }

  /** So interleaved with any other lifecycles, too, a failed refund leaves no trace in the balances, and a won
      dispute leaves none exactly when its fee is given back. */
  lemma InterleavedPairsRestore(s: L.Ledger, t: L.Ledger, cat: R.Catalog, pol: Policy, a: nat, b: nat)
    requires R.FedByEvents(s, cat, pol) && R.FedByEvents(t, cat, pol) && a in cat && b in cat && a != b
    requires a !in s.inbox && b !in s.inbox && t.inbox == s.inbox + {a, b} && SameMoney(cat[a], cat[b])
    ensures cat[a].typ == RefundCreated && cat[b].typ == RefundFailed ==>
              forall k :: Of(t.balances, k) == Of(s.balances, k)
    ensures cat[a].typ == DisputeOpened && cat[b].typ == DisputeWon ==>
              ((forall k :: Of(t.balances, k) == Of(s.balances, k))
               <==> cat[a].fee.amount == if pol.refundChargebackFeeOnWin then cat[b].fee.amount else 0)
  {
    hide R.FedByEvents, Of, EventEffect;
    forall k
      ensures Of(t.balances, k) == Of(s.balances, k) + EventEffect(cat[a], pol, k) + EventEffect(cat[b], pol, k)
    {
      PairAddsUp(s, t, cat, pol, a, b, k);
    }
    if cat[a].typ == RefundCreated && cat[b].typ == RefundFailed {
      forall k ensures Of(t.balances, k) == Of(s.balances, k) { FailedRefundCancels(cat[a], cat[b], pol, k); }
    }
    if cat[a].typ == DisputeOpened && cat[b].typ == DisputeWon {
      var kept := cat[a].fee.amount - if pol.refundChargebackFeeOnWin then cat[b].fee.amount else 0;
      forall k ensures Of(t.balances, k) - Of(s.balances, k)
                       == if k == cat[a].Account(MerchantPayable) then -kept
                          else if k == cat[a].Account(ChargebackFeeRevenue) then kept else 0
      {
        WonDisputeLeaves(cat[a], cat[b], pol, k);
      }
      var k := cat[a].Account(ChargebackFeeRevenue);
      assert Of(t.balances, k) - Of(s.balances, k) == kept;
    }
  }
}

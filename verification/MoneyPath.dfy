/** The whole money path: any number of payments, the outbox, a bus that may lose acknowledgements,
    repeat and reorder, and the ledger with its manual postings and reversals. In every reachable state the
    ledger, what is still on its way and what manual journals kept out add up to what the payment rows and
    the other journals say. */
module MoneyPath {
  import opened Wrappers
  import opened Amounts
  import opened Accounts
  import opened Balances
  import opened Templates
  import opened Messages
  import opened Sums
  import opened Outbox
  import opened Postable
  import J = Journals
  import L = LedgerService
  import R = LedgerRuns
  import P = PaymentRuns
  import Payments
  import PaymentStore

  type Outgoing = map<nat, Message>

  /** Payments, the outbox rows by event id, the ids marked published, the ids put on the bus in
      order, and the ledger. */
  datatype World = World(cells: seq<P.Cell>, outbox: Outgoing, nextId: nat, published: set<nat>, bus: seq<nat>,
                         ledger: L.Ledger)

  const START: World := World([], map[], 1, {}, [], L.EMPTY)

  datatype Action =
    | Create(params: Payments.NewParams, provider: string, now: int)
    | Pay(i: nat, action: P.Action)
    | Relay(ids: seq<nat>, up: nat -> bool, committed: bool)
    | Deliver(id: nat)
    | Manual(inp: L.ManualInput)
    | Reverse(id: nat, eventId: Option<nat>)
    | SetStatus(key: AccountKey, status: L.AccountStatus)

  /** Messages get fresh ids in order, in the transaction that wrote the rows. */
  function Enlist(outbox: Outgoing, next: nat, ms: seq<Message>): Outgoing {
    if ms == [] then outbox else Enlist(outbox, next, ms[..|ms| - 1])[next + |ms| - 1 := ms[|ms| - 1]]
  }

  function WithCell(w: World, i: nat, c: P.Cell): World
    requires i < |w.cells|
  {
    var ms := if |c.store.sent| >= |w.cells[i].store.sent| then c.store.sent[|w.cells[i].store.sent|..] else [];
    w.(cells := w.cells[i := c], outbox := Enlist(w.outbox, w.nextId, ms), nextId := w.nextId + |ms|)
  }

  /** One delivery: an unreadable message is refused, any other is handled by the ledger. */
  function Deliver1(w: World, id: nat, pol: Policy): L.Ledger
    requires id in w.outbox
  {
    match FromMessage(w.outbox[id], id)
    case Err(_) => w.ledger
    case Ok(ev) => L.Handle(w.ledger, ev, pol).state
  }

  /** The place of the merchant's payment that was created under the key. */
  function CreatedUnder(cells: seq<P.Cell>, merchant: nat, key: string): (found: Option<nat>)
    ensures found.Some? ==>
              found.value < |cells| && cells[found.value].store.row.merchant == merchant
              && cells[found.value].store.row.key == key
    ensures found.None? ==>
              forall i | 0 <= i < |cells| && cells[i].store.row.merchant == merchant :: cells[i].store.row.key != key
  {
    if cells == [] then None
    else
      var n := |cells| - 1;
      if cells[n].store.row.merchant == merchant && cells[n].store.row.key == key then Some(n)
      else CreatedUnder(cells[..n], merchant, key)
  }

  /** Whether one of the merchant's payments has a refund under the key. */
  predicate RefundedUnder(cells: seq<P.Cell>, merchant: nat, key: string) {
    exists i :: 0 <= i < |cells| && cells[i].store.row.merchant == merchant
                && PaymentStore.KeyTaken(cells[i].store.refunds, key)
  }

  /** The answer to a creation request that does not get as far as creating: it has no key, or its key was used
      before, and then the earlier payment is the answer unless the two requests differ. */
  function Answered(cells: seq<P.Cell>, params: Payments.NewParams): Option<Result<nat, Payments.PaymentError>> {
    if params.key == "" then Some(Err(Payments.MethodMissing))
    else
      match CreatedUnder(cells, params.merchant, params.key)
      case None => None
      case Some(i) =>
        if cells[i].store.row.requestHash != "" && params.requestHash != ""
           && cells[i].store.row.requestHash != params.requestHash
        then Some(Err(Payments.IdempotencyKeyMismatch))
        else Some(Ok(i))
  }

  /** A refund request under a key the merchant has used before is answered with that refund. */
  predicate Repeats(cells: seq<P.Cell>, i: nat, action: P.Action)
    requires i < |cells|
  {
    action.BeginRefund? && RefundedUnder(cells, cells[i].store.row.merchant, action.key)
  }

  function Step(w: World, a: Action, pol: Policy): World {
    match a
    case Create(params, provider, now) =>
      if Answered(w.cells, params).Some? then w
      else
        (match P.Fresh(params, provider, now)
         case None => w
         case Some(c) =>
           w.(cells := w.cells + [c], outbox := Enlist(w.outbox, w.nextId, c.store.sent),
              nextId := w.nextId + |c.store.sent|))
    case Pay(i, action) =>
      if i < |w.cells| && !Repeats(w.cells, i, action) then WithCell(w, i, P.Step(w.cells[i], action)) else w
    case Relay(ids, up, committed) =>
      if forall id | id in ids :: id in w.outbox && id !in w.published
      then w.(bus := w.bus + Delivered(ids, up, |ids|),
              published := if committed then Marked(w.published, ids, up, |ids|) else w.published)
      else w
    case Deliver(id) => if id in w.bus && id in w.outbox then w.(ledger := Deliver1(w, id, pol)) else w
    case Manual(inp) => w.(ledger := R.Next(w.ledger, R.Manual(inp), pol))
    case Reverse(id, eventId) => w.(ledger := R.Next(w.ledger, R.ReverseById(id, eventId), pol))
    case SetStatus(key, status) => w.(ledger := R.Next(w.ledger, R.SetStatus(key, status), pol))
  }

  function Run(actions: seq<Action>, pol: Policy): World {
    if actions == [] then START else Step(Run(actions[..|actions| - 1], pol), actions[|actions| - 1], pol)
  }

  // ---- the equation ----

  /** What all payment rows together say account k should hold. */
  function RowsView(cells: seq<P.Cell>, k: AccountKey): int {
    if cells == [] then 0 else RowsView(cells[..|cells| - 1], k) + P.View(cells[|cells| - 1].store, k)
  }

  /** A journal that is not the event's own holds its id, so that the event is acknowledged unposted. */
  predicate Shadowed(js: seq<J.Journal>, id: nat) {
    L.ByEvent(js, id).Some? && L.ByEvent(js, id).value.source != J.PaymentEventSource
  }

  function WorthAt(outbox: Outgoing, pol: Policy, k: AccountKey): nat -> int {
    (id: nat) => if id in outbox then Worth(outbox[id], pol, k) else 0
  }

  /** The worth of the messages the ledger posted, and of those it acknowledged unposted. */
  function PostedAt(w: World, pol: Policy, k: AccountKey): nat -> int {
    (id: nat) => if Shadowed(w.ledger.journals, id) || id !in w.outbox then 0 else Worth(w.outbox[id], pol, k)
  }

  function ShadowAt(w: World, pol: Policy, k: AccountKey): nat -> int {
    (id: nat) => if Shadowed(w.ledger.journals, id) && id in w.outbox then Worth(w.outbox[id], pol, k) else 0
  }

  ghost function InFlight(w: World, pol: Policy, k: AccountKey): int {
    SumSet(w.outbox.Keys - w.ledger.inbox, WorthAt(w.outbox, pol, k))
  }

  /** What was acknowledged unposted because another journal held the event's id. */
  ghost function KeptOut(w: World, pol: Policy, k: AccountKey): int {
    SumSet(w.ledger.inbox, ShadowAt(w, pol, k))
  }

  /** What manual postings and reversals did to an account. */
  function OtherEffect(js: seq<J.Journal>, k: AccountKey): int {
    if js == [] then 0
    else
      OtherEffect(js[..|js| - 1], k)
      + if js[|js| - 1].source == J.PaymentEventSource then 0 else Effect(J.Lines(js[|js| - 1].entries), k)
  }

  ghost predicate RowsMatchOutbox(w: World, pol: Policy) {
    forall k :: SumSet(w.outbox.Keys, WorthAt(w.outbox, pol, k)) == RowsView(w.cells, k)
  }

  ghost predicate LedgerMatchesInbox(w: World, pol: Policy) {
    forall k ::
      Of(w.ledger.balances, k) == SumSet(w.ledger.inbox, PostedAt(w, pol, k)) + OtherEffect(w.ledger.journals, k)
  }

  /** What was processed was acceptable, and is in the journals if it moves money. */
  predicate ProcessedRight(w: World, pol: Policy) {
    forall id | id in w.ledger.inbox ::
      && id in w.outbox && id in w.bus && Acceptable(w.outbox[id], id, pol)
      && (MovesMoney(w.outbox[id].typ) ==> L.ByEvent(w.ledger.journals, id).Some?)
  }

  ghost predicate CellsInOrder(cells: seq<P.Cell>) {
    forall i | 0 <= i < |cells| :: P.CellInv(cells[i])
  }

  /** Every message a payment sent is in the outbox, and every message there is some payment's. */
  predicate Listed(cells: seq<P.Cell>, outbox: Outgoing) {
    && (forall i, m | 0 <= i < |cells| && m in cells[i].store.sent :: InOutbox(outbox, m))
    && (forall id | id in outbox :: SentBySome(cells, outbox[id]))
  }

  predicate InOutbox(outbox: Outgoing, m: Message) {
    exists id :: id in outbox && outbox[id] == m
  }

  predicate SentBySome(cells: seq<P.Cell>, m: Message) {
    exists i :: 0 <= i < |cells| && m in cells[i].store.sent
  }

  predicate Flow(w: World) {
    && (forall id | id in w.outbox :: 0 < id < w.nextId)
    && (forall id | id in w.bus :: id in w.outbox)
    && (forall id | id in w.published :: id in w.bus)
    && (forall j | j in w.ledger.journals && j.source == J.PaymentEventSource :: j.eventId in w.ledger.inbox)
    && w.nextId > 0
  }

  ghost predicate Inv(w: World, pol: Policy) {
    && CellsInOrder(w.cells) && Listed(w.cells, w.outbox) && Flow(w) && R.Inv(w.ledger)
    && RowsMatchOutbox(w, pol) && LedgerMatchesInbox(w, pol) && ProcessedRight(w, pol)
  }

  // ---- sums ----

  lemma WorthIsEvent(m: Message, id: nat, pol: Policy, k: AccountKey)
    requires FromMessage(m, id).Ok?
    ensures EventEffect(FromMessage(m, id).value, pol, k) == Worth(m, pol, k)
    ensures FromMessage(m, id).value.eventId == id && FromMessage(m, id).value.typ == m.typ
  {
    hide EventEffect;
    WorthIsEffect(m, id, pol, k);
  }

  lemma {:induction false} EnlistKeys(outbox: Outgoing, next: nat, ms: seq<Message>)
    ensures forall id :: id in Enlist(outbox, next, ms) <==> id in outbox || next <= id < next + |ms|
    ensures forall id | id in outbox && id < next :: Enlist(outbox, next, ms)[id] == outbox[id]
  {
    if ms == [] {
    } else {
      EnlistKeys(outbox, next, ms[..|ms| - 1]);
    }
  }

  lemma {:induction false} EnlistWorth(outbox: Outgoing, next: nat, ms: seq<Message>, pol: Policy, k: AccountKey)
    requires forall id | id in outbox :: id < next
    ensures var n := Enlist(outbox, next, ms);
            SumSet(n.Keys, WorthAt(n, pol, k)) == SumSet(outbox.Keys, WorthAt(outbox, pol, k)) + P.WorthOf(ms, pol, k)
  {
    hide Worth, SumSet;
    if ms == [] {
    } else {
      var init := ms[..|ms| - 1];
      var id: nat := next + |ms| - 1;
      var b, n := Enlist(outbox, next, init), Enlist(outbox, next, ms);
      EnlistWorth(outbox, next, init, pol, k);
      EnlistKeys(outbox, next, init);
      assert n.Keys == b.Keys + {id};
      SumSetInsert<nat>(b.Keys, WorthAt(n, pol, k), id);
      SumSetSame(b.Keys, WorthAt(b, pol, k), WorthAt(n, pol, k));
    }
  }

  lemma {:induction false} WorthConcat(a: seq<Message>, b: seq<Message>, pol: Policy, k: AccountKey)
    ensures P.WorthOf(a + b, pol, k) == P.WorthOf(a, pol, k) + P.WorthOf(b, pol, k)
  {
    if b == [] {
      assert a + b == a;
    } else {
      assert (a + b)[..|a + b| - 1] == a + b[..|b| - 1];
      WorthConcat(a, b[..|b| - 1], pol, k);
    }
  }

  lemma {:induction false} RowsViewUpdate(cells: seq<P.Cell>, i: nat, c: P.Cell, k: AccountKey)
    requires i < |cells|
    ensures RowsView(cells[i := c], k) == RowsView(cells, k) - P.View(cells[i].store, k) + P.View(c.store, k)
  {
    hide P.View;
    var n := |cells| - 1;
    if i == n {
      assert cells[i := c][..n] == cells[..n];
    } else {
      RowsViewUpdate(cells[..n], i, c, k);
      assert cells[i := c][..n] == cells[..n][i := c];
    }
  }

  lemma PostedIs(w: World, pol: Policy, k: AccountKey, id: nat)
    ensures PostedAt(w, pol, k)(id)
            == if Shadowed(w.ledger.journals, id) || id !in w.outbox then 0 else Worth(w.outbox[id], pol, k)
  {
    hide Worth, Shadowed;
  }

  /** The ledger's own sum does not see messages enlisted later. */
  lemma LaterMessagesDoNotShow(w: World, n: World, pol: Policy, k: AccountKey)
    requires n.ledger == w.ledger
    requires forall id | id in w.ledger.inbox :: id in w.outbox && id in n.outbox && n.outbox[id] == w.outbox[id]
    ensures SumSet(w.ledger.inbox, PostedAt(n, pol, k)) == SumSet(w.ledger.inbox, PostedAt(w, pol, k))
  {
    hide Worth, SumSet, Shadowed, PostedAt;
    forall id | id in w.ledger.inbox ensures PostedAt(n, pol, k)(id) == PostedAt(w, pol, k)(id) {
      PostedIs(n, pol, k, id);
      PostedIs(w, pol, k, id);
    }
    SumSetSame(w.ledger.inbox, PostedAt(n, pol, k), PostedAt(w, pol, k));
  }

  /** The i-th message of a batch is stored under the i-th id from next on. */
  lemma {:induction false} EnlistAt(outbox: Outgoing, next: nat, ms: seq<Message>, i: nat)
    requires i < |ms|
    ensures next + i in Enlist(outbox, next, ms) && Enlist(outbox, next, ms)[next + i] == ms[i]
  {
    if i == |ms| - 1 {
    } else {
      EnlistAt(outbox, next, ms[..|ms| - 1], i);
    }
  }

  // ---- the steps: payments ----

  /** How the payments and a batch of new messages go together: what was sent is in the old outbox or in the
      batch, and the batch was sent. */
  ghost predicate Batch(w: World, cells: seq<P.Cell>, ms: seq<Message>) {
    && (forall i, m | 0 <= i < |cells| && m in cells[i].store.sent :: m in ms || SentBySome(w.cells, m))
    && (forall m | m in ms || SentBySome(w.cells, m) :: SentBySome(cells, m))
  }

  lemma EnlistKeepsListed(w: World, cells: seq<P.Cell>, ms: seq<Message>)
    requires Listed(w.cells, w.outbox) && Batch(w, cells, ms) && forall id | id in w.outbox :: id < w.nextId
    ensures Listed(cells, Enlist(w.outbox, w.nextId, ms))
  {
    hide Enlist, SentBySome;
    var n := Enlist(w.outbox, w.nextId, ms);
    EnlistKeys(w.outbox, w.nextId, ms);
    forall i, m | 0 <= i < |cells| && m in cells[i].store.sent ensures InOutbox(n, m) {
      if m in ms {
        var j :| 0 <= j < |ms| && ms[j] == m;
        EnlistAt(w.outbox, w.nextId, ms, j);
      } else {
        SentIsListed(w, m);
        var id :| id in w.outbox && w.outbox[id] == m;
        assert id in n && n[id] == m;
      }
    }
    forall id | id in n ensures SentBySome(cells, n[id]) {
      if id !in w.outbox {
        EnlistAt(w.outbox, w.nextId, ms, id - w.nextId);
        assert ms[id - w.nextId] in ms;
      }
    }
  }

  lemma SentIsListed(w: World, m: Message)
    requires Listed(w.cells, w.outbox) && SentBySome(w.cells, m)
    ensures InOutbox(w.outbox, m)
  {
  }

  /** Writing ms to the outbox together with the rows that are worth them. */
  lemma EnlistKeepsInv(w: World, cells: seq<P.Cell>, ms: seq<Message>, pol: Policy)
    requires Inv(w, pol) && CellsInOrder(cells) && Batch(w, cells, ms)
    requires forall k :: RowsView(cells, k) == RowsView(w.cells, k) + P.WorthOf(ms, pol, k)
    ensures Inv(w.(cells := cells, outbox := Enlist(w.outbox, w.nextId, ms), nextId := w.nextId + |ms|), pol)
  {
    hide Worth, SumSet, CellsInOrder, R.Inv, P.WorthOf, RowsView, Acceptable;
    hide Enlist, Of, Batch, Listed, OtherEffect, Shadowed, L.ByEvent;
    var n := w.(cells := cells, outbox := Enlist(w.outbox, w.nextId, ms), nextId := w.nextId + |ms|);
    EnlistKeys(w.outbox, w.nextId, ms);
    EnlistKeepsListed(w, cells, ms);
    assert Flow(n) && ProcessedRight(n, pol);
    forall k ensures SumSet(n.outbox.Keys, WorthAt(n.outbox, pol, k)) == RowsView(n.cells, k) {
      EnlistWorth(w.outbox, w.nextId, ms, pol, k);
    }
    forall k
      ensures Of(n.ledger.balances, k)
              == SumSet(n.ledger.inbox, PostedAt(n, pol, k)) + OtherEffect(n.ledger.journals, k)
    {
      LaterMessagesDoNotShow(w, n, pol, k);
    }
  }

  lemma SuffixWorth(before: seq<Message>, all: seq<Message>, pol: Policy, k: AccountKey)
    requires before <= all
    ensures P.WorthOf(all, pol, k) == P.WorthOf(before, pol, k) + P.WorthOf(all[|before|..], pol, k)
  {
    assert all == before + all[|before|..];
    WorthConcat(before, all[|before|..], pol, k);
  }

  lemma PayKeepsInv(w: World, i: nat, action: P.Action, pol: Policy)
    requires Inv(w, pol) && i < |w.cells|
    ensures Inv(WithCell(w, i, P.Step(w.cells[i], action)), pol)
  {
    hide P.Step, P.CellInv, R.Inv, P.WorthOf, RowsView;
    hide ProcessedRight, Flow, RowsMatchOutbox, LedgerMatchesInbox, P.View;
    hide Enlist, P.Advances, Batch, Listed;
    var c, d := w.cells[i], P.Step(w.cells[i], action);
    P.StepKeepsInv(c, action);
    P.AdvancesIsLater(c.store, d.store);
    LaterSent(c.store, d.store);
    var ms := d.store.sent[|c.store.sent|..];
    forall k ensures RowsView(w.cells[i := d], k) == RowsView(w.cells, k) + P.WorthOf(ms, pol, k) {
      RowsViewUpdate(w.cells, i, d, k);
      SuffixWorth(c.store.sent, d.store.sent, pol, k);
      SentIsView(c, pol, k);
      SentIsView(d, pol, k);
    }
    UpdateIsBatch(w, i, d, ms);
    EnlistKeepsInv(w, w.cells[i := d], ms, pol);
  }

  lemma UpdateIsBatch(w: World, i: nat, d: P.Cell, ms: seq<Message>)
    requires i < |w.cells| && w.cells[i].store.sent <= d.store.sent && ms == d.store.sent[|w.cells[i].store.sent|..]
    ensures Batch(w, w.cells[i := d], ms)
  {
    var cells, before := w.cells[i := d], w.cells[i].store.sent;
    assert d.store.sent == before + ms;
    forall m | m in ms || SentBySome(w.cells, m) ensures SentBySome(cells, m) {
      if m in ms {
        assert m in cells[i].store.sent;
      } else {
        var j :| 0 <= j < |w.cells| && m in w.cells[j].store.sent;
        assert m in cells[j].store.sent;
      }
    }
  }

  lemma LaterSent(s: PaymentStore.Store, t: PaymentStore.Store)
    requires P.Later(s, t)
    ensures s.sent <= t.sent
  {
  }

  lemma SentIsView(c: P.Cell, pol: Policy, k: AccountKey)
    requires P.CellInv(c)
    ensures P.WorthOf(c.store.sent, pol, k) == P.View(c.store, k)
  {
    hide P.WorthOf, P.View, P.Chained, P.RefundsAddUp, P.Rebuilds;
  }

  lemma CreateKeepsInv(w: World, params: Payments.NewParams, provider: string, now: int, pol: Policy)
    requires Inv(w, pol)
    ensures Inv(Step(w, Create(params, provider, now), pol), pol)
  {
    hide P.Fresh, P.CellInv, R.Inv, P.WorthOf, ProcessedRight;
    hide Flow, RowsMatchOutbox, LedgerMatchesInbox, P.View, Enlist;
    hide Batch, Listed;
    if Answered(w.cells, params).None? && P.Fresh(params, provider, now).Some? {
      var c := P.Fresh(params, provider, now).value;
      P.FreshInv(params, provider, now);
      var cells := w.cells + [c];
      assert cells[..|cells| - 1] == w.cells;
      forall k ensures RowsView(cells, k) == RowsView(w.cells, k) + P.WorthOf(c.store.sent, pol, k) {
        SentIsView(c, pol, k);
      }
      NewIsBatch(w, c);
      EnlistKeepsInv(w, cells, c.store.sent, pol);
    }
  }

  lemma NewIsBatch(w: World, c: P.Cell)
    ensures Batch(w, w.cells + [c], c.store.sent)
  {
    var cells := w.cells + [c];
    forall m | m in c.store.sent || SentBySome(w.cells, m) ensures SentBySome(cells, m) {
      if m in c.store.sent {
        assert m in cells[|w.cells|].store.sent;
      } else {
        var j :| 0 <= j < |w.cells| && m in w.cells[j].store.sent;
        assert m in cells[j].store.sent;
      }
    }
  }

  // ---- the steps: relay and ledger ----

  lemma RelayKeepsInv(w: World, ids: seq<nat>, up: nat -> bool, committed: bool, pol: Policy)
    requires Inv(w, pol)
    ensures Inv(Step(w, Relay(ids, up, committed), pol), pol)
  {
    hide CellsInOrder, Listed, R.Inv, RowsMatchOutbox, LedgerMatchesInbox, Acceptable, Delivered, Marked, L.ByEvent;
    MarkedAreDelivered(w.published, ids, up, |ids|);
    var n := Step(w, Relay(ids, up, committed), pol);
    assert forall id | id in w.bus :: id in n.bus;
    assert Flow(n) && ProcessedRight(n, pol);
    SameSums(w, n, pol);
  }

  lemma SameSums(w: World, n: World, pol: Policy)
    requires n.cells == w.cells && n.outbox == w.outbox
    ensures RowsMatchOutbox(w, pol) ==> RowsMatchOutbox(n, pol)
    ensures n.ledger.(accounts := w.ledger.accounts) == w.ledger && LedgerMatchesInbox(w, pol)
            ==> LedgerMatchesInbox(n, pol)
  {
    if n.ledger.(accounts := w.ledger.accounts) == w.ledger && LedgerMatchesInbox(w, pol) {
      forall k
        ensures Of(n.ledger.balances, k)
                == SumSet(n.ledger.inbox, PostedAt(n, pol, k)) + OtherEffect(n.ledger.journals, k)
      {
        SumSetSame(w.ledger.inbox, PostedAt(n, pol, k), PostedAt(w, pol, k));
      }
    }
  }

  lemma SetStatusKeepsInv(w: World, key: AccountKey, status: L.AccountStatus, pol: Policy)
    requires Inv(w, pol)
    ensures Inv(Step(w, SetStatus(key, status), pol), pol)
  {
    hide CellsInOrder, Listed, R.Inv, Acceptable, RowsMatchOutbox, LedgerMatchesInbox, L.ByEvent;
    R.MarkingKeepsInv(w.ledger, w.ledger.inbox, w.ledger.accounts[key := status]);
    SameSums(w, Step(w, SetStatus(key, status), pol), pol);
  }

  /** A journal added under a free event id changes what is known of that id alone. */
  lemma OneMoreJournal(js: seq<J.Journal>, all: seq<J.Journal>, id: nat)
    requires |all| == |js| + 1 && all == js + [all[|js|]]
    ensures all[|js|].eventId != id ==> L.ByEvent(all, id) == L.ByEvent(js, id) && Shadowed(all, id) == Shadowed(js, id)
    ensures all[|js|].eventId == id ==>
              L.ByEvent(all, id) == Some(all[|js|]) && Shadowed(all, id) == (all[|js|].source != J.PaymentEventSource)
  {
    assert all[..|all| - 1] == js;
  }

  lemma OneMoreEffect(js: seq<J.Journal>, all: seq<J.Journal>, k: AccountKey)
    requires |all| == |js| + 1 && all == js + [all[|js|]]
    ensures R.LedgerEffect(all, k) == R.LedgerEffect(js, k) + Effect(J.Lines(all[|js|].entries), k)
    ensures OtherEffect(all, k)
            == OtherEffect(js, k)
               + if all[|js|].source == J.PaymentEventSource then 0 else Effect(J.Lines(all[|js|].entries), k)
  {
    hide Effect, J.Lines;
    assert all[..|all| - 1] == js;
  }

  lemma BalanceIsEffect(s: L.Ledger, k: AccountKey)
    requires R.Inv(s)
    ensures Of(s.balances, k) == R.LedgerEffect(s.journals, k)
  {
    hide R.LedgerEffect, R.AllValid, R.KeysUnique, R.ReversalsMirror, R.ReversalsUnique, R.Announced, Of;
  }

  /** A manual posting or a reversal adds its own effect and keeps what was processed. */
  lemma ManualKeepsInv(w: World, a: R.Action, pol: Policy)
    requires Inv(w, pol) && (a.Manual? || a.ReverseById?)
    ensures Inv(w.(ledger := R.Next(w.ledger, a, pol)), pol)
  {
    hide CellsInOrder, Listed, R.Inv, Acceptable, RowsMatchOutbox, R.Next;
    hide L.ByEvent, Of, OtherEffect, SumSet, PostedAt, R.LedgerEffect;
    var n := w.(ledger := R.Next(w.ledger, a, pol));
    var js, all := w.ledger.journals, n.ledger.journals;
    R.NextKeepsInv(w.ledger, a, pol);
    R.ManualActionsAdd(w.ledger, a, pol);
    SameSums(w, n, pol);
    if all == js {
      forall k ensures Of(n.ledger.balances, k) == SumSet(n.ledger.inbox, PostedAt(n, pol, k)) + OtherEffect(all, k) {
        BalanceIsEffect(w.ledger, k);
        BalanceIsEffect(n.ledger, k);
        SamePosted(w, n, pol, k);
      }
    } else {
      forall id: nat ensures id in w.ledger.inbox && L.ByEvent(js, id).Some? ==> L.ByEvent(all, id).Some? {
        OneMoreJournal(js, all, id);
      }
      forall j | j in all && j.source == J.PaymentEventSource ensures j.eventId in n.ledger.inbox { assert j in js; }
      forall k ensures Of(n.ledger.balances, k) == SumSet(n.ledger.inbox, PostedAt(n, pol, k)) + OtherEffect(all, k) {
        BalanceIsEffect(w.ledger, k);
        BalanceIsEffect(n.ledger, k);
        OneMoreEffect(js, all, k);
        PostedUnderAnotherId(w, n, pol, k);
      }
    }
  }

  lemma SamePosted(w: World, n: World, pol: Policy, k: AccountKey)
    requires n.outbox == w.outbox && n.ledger.journals == w.ledger.journals && n.ledger.inbox == w.ledger.inbox
    ensures SumSet(n.ledger.inbox, PostedAt(n, pol, k)) == SumSet(w.ledger.inbox, PostedAt(w, pol, k))
  {
    hide Worth, SumSet, Shadowed;
    SumSetSame(w.ledger.inbox, PostedAt(n, pol, k), PostedAt(w, pol, k));
  }

  /** A journal under another id, or under the id of a processed message without money, changes no sum. */
  lemma PostedUnderAnotherId(w: World, n: World, pol: Policy, k: AccountKey)
    requires ProcessedRight(w, pol) && n.outbox == w.outbox && n.ledger.inbox == w.ledger.inbox
    requires var js, all := w.ledger.journals, n.ledger.journals;
             |all| == |js| + 1 && all == js + [all[|js|]] && L.ByEvent(js, all[|js|].eventId).None?
    ensures SumSet(n.ledger.inbox, PostedAt(n, pol, k)) == SumSet(w.ledger.inbox, PostedAt(w, pol, k))
  {
    hide Worth, SumSet, Shadowed, L.ByEvent, Acceptable, PostedAt;
    var js, all := w.ledger.journals, n.ledger.journals;
    forall id | id in w.ledger.inbox ensures PostedAt(n, pol, k)(id) == PostedAt(w, pol, k)(id) {
      PostedIs(n, pol, k, id);
      PostedIs(w, pol, k, id);
      OneMoreJournal(js, all, id);
      if all[|js|].eventId == id { NoMoneyNoWorth(w.outbox[id], pol, k); }
    }
    SumSetSame(w.ledger.inbox, PostedAt(n, pol, k), PostedAt(w, pol, k));
  }

  lemma NoMoneyNoWorth(m: Message, pol: Policy, k: AccountKey)
    requires !MovesMoney(m.typ)
    ensures Worth(m, pol, k) == 0
  {
    hide EventEffect;
    R.NoMoneyNoEffect(Described(m, 1), pol, k);
  }

  /** A delivery that goes through moves the message's worth from in flight to the balances, or to what is
      kept out. */
  lemma DeliverKeepsInv(w: World, id: nat, pol: Policy)
    requires Inv(w, pol) && id in w.bus && id in w.outbox
    ensures Inv(w.(ledger := Deliver1(w, id, pol)), pol)
  {
    hide Inv, FromMessage, L.Handle, Worth, EventEffect;
    if FromMessage(w.outbox[id], id).Ok? {
      var ev := FromMessage(w.outbox[id], id).value;
      WorthIsEvent(w.outbox[id], id, pol, AccountKey(NIL, FeeRevenue, Other(""), true));
      if id in w.ledger.inbox {
        R.SeenChangesNothing(w.ledger, ev, pol);
      } else {
        HandledKeepsInv(w, id, ev, pol);
      }
    }
  }

  lemma HandledKeepsInv(w: World, id: nat, ev: PaymentEvent, pol: Policy)
    requires Inv(w, pol) && id in w.bus && id in w.outbox && id !in w.ledger.inbox
    requires FromMessage(w.outbox[id], id) == Ok(ev) && ev.eventId == id && ev.typ == w.outbox[id].typ
    ensures Inv(w.(ledger := L.Handle(w.ledger, ev, pol).state), pol)
  {
    hide CellsInOrder, Listed, R.Inv, RowsMatchOutbox, L.Handle, LedgerMatchesInbox;
    hide FromMessage, Posts, L.ByEvent, R.AdmitsEvent, R.JournalOf;
    var h := L.Handle(w.ledger, ev, pol);
    var n := w.(ledger := h.state);
    R.HandleDoesExactly(w.ledger, ev, pol);
    R.HandleKeepsInv(w.ledger, ev, pol);
    SameSums(w, n, pol);
    if h.result.Pass? {
      if L.ByEvent(w.ledger.journals, id).Some? {
        R.ShadowedOnlyMarks(w.ledger, ev, pol);
        AcknowledgedUnposted(w, n, id, pol);
      } else {
        R.EventJournal(w.ledger, ev, pol);
        PostedAsOwn(w, n, id, ev, pol);
      }
    }
  }

  /** Another journal holds the id: nothing is posted and the message counts as kept out. */
  lemma AcknowledgedUnposted(w: World, n: World, id: nat, pol: Policy)
    requires Flow(w) && LedgerMatchesInbox(w, pol) && ProcessedRight(w, pol) && id in w.bus && id in w.outbox
             && id !in w.ledger.inbox
    requires L.ByEvent(w.ledger.journals, id).Some? && Acceptable(w.outbox[id], id, pol)
    requires n == w.(ledger := w.ledger.(inbox := w.ledger.inbox + {id}))
    ensures Flow(n) && LedgerMatchesInbox(n, pol) && ProcessedRight(n, pol)
  {
    hide L.ByEvent, Acceptable, SumSet, Worth, OtherEffect, Of;
    R.ByEventMeans(w.ledger.journals, id);
    assert Shadowed(w.ledger.journals, id);
    forall k
      ensures Of(n.ledger.balances, k)
              == SumSet(n.ledger.inbox, PostedAt(n, pol, k)) + OtherEffect(n.ledger.journals, k)
    {
      SumSetInsert(w.ledger.inbox, PostedAt(n, pol, k), id);
      SumSetSame(w.ledger.inbox, PostedAt(n, pol, k), PostedAt(w, pol, k));
    }
  }

  /** No journal holds the id: what the event is worth is in the balances, in a journal of its own if any. */
  lemma PostedAsOwn(w: World, n: World, id: nat, ev: PaymentEvent, pol: Policy)
    requires Flow(w) && LedgerMatchesInbox(w, pol) && ProcessedRight(w, pol) && R.Inv(w.ledger)
    requires id in w.bus && id in w.outbox && id !in w.ledger.inbox && L.ByEvent(w.ledger.journals, id).None?
    requires FromMessage(w.outbox[id], id) == Ok(ev) && ev.eventId == id && ev.typ == w.outbox[id].typ
    requires L.Handle(w.ledger, ev, pol).result.Pass? && n == w.(ledger := L.Handle(w.ledger, ev, pol).state)
    requires n.ledger.inbox == w.ledger.inbox + {id} && (MovesMoney(ev.typ) ==> Posts(ev, pol))
    requires var more := R.JournalOf(w.ledger, ev, pol);
             && n.ledger.journals == w.ledger.journals + more && (MovesMoney(ev.typ) ==> |more| == 1)
             && (!MovesMoney(ev.typ) ==> more == [])
             && forall j | j in more :: j.eventId == id && j.source == J.PaymentEventSource
    ensures Flow(n) && LedgerMatchesInbox(n, pol) && ProcessedRight(n, pol)
  {
    hide L.ByEvent, FromMessage, SumSet, Worth, OtherEffect, Of, L.Handle;
    hide R.Inv, R.JournalOf, Posts, Shadowed, PostedAt, EventEffect;
    var js, all := w.ledger.journals, n.ledger.journals;
    if MovesMoney(ev.typ) {
      assert all == js + [all[|js|]] && all[|js|] in R.JournalOf(w.ledger, ev, pol);
      forall x: nat ensures x != id ==> L.ByEvent(all, x) == L.ByEvent(js, x) && Shadowed(all, x) == Shadowed(js, x)
                    ensures x == id ==> L.ByEvent(all, x).Some? && !Shadowed(all, x) { OneMoreJournal(js, all, x); }
    } else {
      assert all == js;
      assert !Shadowed(all, id) by { NoJournalNoShadow(all, id); }
    }
    forall k ensures Of(n.ledger.balances, k) == SumSet(n.ledger.inbox, PostedAt(n, pol, k)) + OtherEffect(all, k) {
      R.HandleAddsEffect(w.ledger, ev, pol, k);
      WorthIsEvent(w.outbox[id], id, pol, k);
      if MovesMoney(ev.typ) { OneMoreEffect(js, all, k); }
      forall x: nat | x in n.ledger.inbox ensures x != id ==> PostedAt(n, pol, k)(x) == PostedAt(w, pol, k)(x) {
        PostedIs(n, pol, k, x);
        PostedIs(w, pol, k, x);
      }
      PostedIs(n, pol, k, id);
      SumSetInsert(w.ledger.inbox, PostedAt(n, pol, k), id);
      SumSetSame(w.ledger.inbox, PostedAt(n, pol, k), PostedAt(w, pol, k));
    }
  }

  lemma NoJournalNoShadow(js: seq<J.Journal>, id: nat)
    requires L.ByEvent(js, id).None?
    ensures !Shadowed(js, id)
  {
  }

  lemma StepKeepsInv(w: World, a: Action, pol: Policy)
    requires Inv(w, pol)
    ensures Inv(Step(w, a, pol), pol)
  {
    hide Inv, WithCell, Deliver1, R.Next;
    match a {
      case Create(params, provider, now) => CreateKeepsInv(w, params, provider, now, pol);
      case Pay(i, action) => if i < |w.cells| { PayKeepsInv(w, i, action, pol); }
      case Relay(ids, up, committed) => RelayKeepsInv(w, ids, up, committed, pol);
      case Deliver(id) => if id in w.bus && id in w.outbox { DeliverKeepsInv(w, id, pol); }
      case Manual(inp) => ManualKeepsInv(w, R.Manual(inp), pol);
      case Reverse(id, eventId) => ManualKeepsInv(w, R.ReverseById(id, eventId), pol);
      case SetStatus(key, status) => SetStatusKeepsInv(w, key, status, pol);
    }
  }

  lemma StartInv(pol: Policy)
    ensures Inv(START, pol)
  {
    hide Worth;
    R.EmptyInv();
    assert START.outbox.Keys == {};
    forall k
      ensures Of(START.ledger.balances, k)
              == SumSet(START.ledger.inbox, PostedAt(START, pol, k)) + OtherEffect(START.ledger.journals, k)
    {
    }
  }

  lemma {:induction false} RunKeepsInv(actions: seq<Action>, pol: Policy)
    ensures Inv(Run(actions, pol), pol)
  {
    hide Inv, Step;
    if actions == [] {
      StartInv(pol);
    } else {
      RunKeepsInv(actions[..|actions| - 1], pol);
      StepKeepsInv(Run(actions[..|actions| - 1], pol), actions[|actions| - 1], pol);
    }
  }

  // ---- the results ----

  lemma {:induction false} SplitSum(all: set<nat>, part: set<nat>, f: nat -> int)
    requires part <= all
    ensures SumSet(all, f) == SumSet(part, f) + SumSet(all - part, f)
    decreases |part|
  {
    hide SumSet;
    if part == {} {
      assert all - part == all;
      R.SumOfNone(f);
    } else {
      var x :| x in part;
      SumSetRemove(part, f, x);
      SplitSum(all, part - {x}, f);
      SumSetRemove(all - (part - {x}), f, x);
      assert all - (part - {x}) - {x} == all - part;
    }
  }

  /** A state that payments, relay, bus and ledger can get into. */
  ghost predicate Reachable(w: World, pol: Policy) {
    exists actions :: w == Run(actions, pol)
  }

  lemma ReachableInv(w: World, pol: Policy)
    requires Reachable(w, pol)
    ensures Inv(w, pol)
  {
    hide Run, Inv;
    var actions :| w == Run(actions, pol);
    RunKeepsInv(actions, pol);
  }

  lemma PostedAndKeptOut(w: World, pol: Policy, k: AccountKey)
    ensures SumSet(w.ledger.inbox, WorthAt(w.outbox, pol, k))
            == SumSet(w.ledger.inbox, PostedAt(w, pol, k)) + SumSet(w.ledger.inbox, ShadowAt(w, pol, k))
  {
    hide Worth, SumSet, Shadowed;
    SumSetAdd(w.ledger.inbox, PostedAt(w, pol, k), ShadowAt(w, pol, k), WorthAt(w.outbox, pol, k));
  }

  /** In every reachable state, whatever was delivered, repeated, reordered, refused or lost on the way and
      whatever was posted or reversed by hand, each balance, the worth of the messages not yet processed and
      the worth kept out by journals under other events' ids make up what the rows say and the other journals did. */
  lemma MoneyIsNeverLost(w: World, pol: Policy, k: AccountKey)
    requires Reachable(w, pol)
    ensures Of(w.ledger.balances, k) + InFlight(w, pol, k) + KeptOut(w, pol, k)
            == RowsView(w.cells, k) + OtherEffect(w.ledger.journals, k)
  {
    hide Reachable, SumSet, RowsView, R.Inv, CellsInOrder, Listed, Of, Acceptable, OtherEffect, L.ByEvent, Flow;
    ReachableInv(w, pol);
    assert w.ledger.inbox <= w.outbox.Keys;
    SplitSum(w.outbox.Keys, w.ledger.inbox, WorthAt(w.outbox, pol, k));
    PostedAndKeptOut(w, pol, k);
  }

  /** The journals are the events' own: nothing was posted or reversed by hand. */
  predicate OnlyEventJournals(js: seq<J.Journal>) {
    forall j | j in js :: j.source == J.PaymentEventSource
  }

  lemma {:induction false} NoOthersNoEffect(js: seq<J.Journal>, k: AccountKey)
    requires OnlyEventJournals(js)
    ensures OtherEffect(js, k) == 0
  {
    hide Effect, J.Lines;
    if js == [] {
    } else {
      assert js[|js| - 1] in js;
      NoOthersNoEffect(js[..|js| - 1], k);
    }
  }

  lemma NothingKeptOut(w: World, pol: Policy, k: AccountKey)
    requires OnlyEventJournals(w.ledger.journals)
    ensures KeptOut(w, pol, k) == 0
  {
    hide SumSet, L.ByEvent;
    forall id: nat ensures !Shadowed(w.ledger.journals, id) { R.ByEventMeans(w.ledger.journals, id); }
    SumSetSame(w.ledger.inbox, ShadowAt(w, pol, k), (id: nat) => 0);
    SumOfZeros(w.ledger.inbox);
  }

  lemma {:induction false} SumOfZeros(ids: set<nat>)
    ensures SumSet(ids, (id: nat) => 0) == 0
    decreases |ids|
  {
    if ids == {} {
    } else {
      var x :| x in ids;
      SumSetRemove(ids, (id: nat) => 0, x);
      SumOfZeros(ids - {x});
    }
  }

  /** Once every message has been processed by a ledger without postings by hand, the ledger is a plain
      function of the payment rows. */
  lemma WhenAllIsProcessed(w: World, pol: Policy, k: AccountKey)
    requires Reachable(w, pol) && w.ledger.inbox == w.outbox.Keys && OnlyEventJournals(w.ledger.journals)
    ensures Of(w.ledger.balances, k) == RowsView(w.cells, k)
  {
    hide Reachable, RowsView, Of, KeptOut, OtherEffect, OnlyEventJournals;
    MoneyIsNeverLost(w, pol, k);
    NoOthersNoEffect(w.ledger.journals, k);
    NothingKeptOut(w, pol, k);
    assert w.outbox.Keys - w.ledger.inbox == {};
  }

  /** Only what was put on the bus is processed or marked published; what cannot be posted, such as a
      capture whose fee exceeds its amount, is never marked processed. */
  lemma OnlySoundMessagesAreProcessed(w: World, pol: Policy, id: nat)
    requires Reachable(w, pol)
    ensures id in w.published ==> id in w.bus
    ensures id in w.ledger.inbox ==> id in w.outbox && id in w.bus && Acceptable(w.outbox[id], id, pol)
    ensures id in w.ledger.inbox && w.outbox[id].typ == PaymentCaptured ==>
              FeeOf(w.outbox[id].payload).amount <= AmountOf(w.outbox[id].payload).amount
  {
    hide Reachable, R.Inv, CellsInOrder, Listed, RowsMatchOutbox, LedgerMatchesInbox, ValidQualifier, L.ByEvent;
    ReachableInv(w, pol);
  }
}

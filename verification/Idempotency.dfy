/** Requests may be repeated: in every reachable state a merchant's keys are each used once, by one payment and by
    one refund, and repeating a request under a used key writes nothing. */
module Idempotency {
  import opened Wrappers
  import opened Templates
  import opened MoneyPath
  import Amounts
  import opened Accounts
  import opened Messages
  import L = LedgerService
  import A = Attempts
  import Outbox
  import Payments
  import PaymentStore
  import P = PaymentRuns

  /** No two payments of a merchant were created under the same key. */
  predicate PaymentKeysUnique(cells: seq<P.Cell>) {
    forall i, j | 0 <= i < j < |cells| && cells[i].store.row.merchant == cells[j].store.row.merchant ::
      cells[i].store.row.key != cells[j].store.row.key
  }

  /** Refunds of one merchant under the same key, on whatever payments, are the same refund. */
  ghost predicate RefundKeysUnique(cells: seq<P.Cell>) {
    forall i, j, a, b | SameKey(cells, i, a, j, b) :: i == j && a == b
  }

  predicate SameKey(cells: seq<P.Cell>, i: nat, a: string, j: nat, b: string) {
    && i < |cells| && j < |cells| && cells[i].store.row.merchant == cells[j].store.row.merchant
    && a in cells[i].store.refunds && b in cells[j].store.refunds
    && cells[i].store.refunds[a].key == cells[j].store.refunds[b].key
  }

  /** Payments are only added, and no key changes. */
  predicate KeepsAllKeys(cells: seq<P.Cell>, later: seq<P.Cell>) {
    |cells| <= |later| && forall i | 0 <= i < |cells| :: P.KeepsKeys(cells[i].store, later[i].store)
  }

  lemma InOrder(w: World, pol: Policy, i: nat)
    requires Inv(w, pol) && i < |w.cells|
    ensures P.CellInv(w.cells[i])
  {
    hide P.CellInv, Listed, RowsMatchOutbox, LedgerMatchesInbox, ProcessedRight;
  }

  lemma CellKeepsKeys(w: World, i: nat, action: P.Action, pol: Policy)
    requires Inv(w, pol) && i < |w.cells|
    ensures P.KeepsKeys(w.cells[i].store, P.Step(w.cells[i], action).store)
  {
    hide Inv, P.Step, P.CellInv, P.Advances, P.KeepsKeys;
    InOrder(w, pol, i);
    P.StepKeepsInv(w.cells[i], action);
    P.AdvancesKeepsKeys(w.cells[i].store, P.Step(w.cells[i], action).store);
  }

  /** What a step of a payment adds to its refunds: nothing, or one under a key the merchant has not used. */
  lemma PayKeepsKeys(w: World, i: nat, action: P.Action, pol: Policy)
    requires Inv(w, pol) && i < |w.cells| && !Repeats(w.cells, i, action)
    requires PaymentKeysUnique(w.cells) && RefundKeysUnique(w.cells)
    ensures var cells := w.cells[i := P.Step(w.cells[i], action)];
            PaymentKeysUnique(cells) && RefundKeysUnique(cells) && KeepsAllKeys(w.cells, cells)
  {
    hide Inv, P.Step, P.CellInv;
    var c, d := w.cells[i], P.Step(w.cells[i], action);
    var cells := w.cells[i := d];
    CellKeepsKeys(w, i, action, pol);
    forall j: nat, a, k: nat, b | SameKey(cells, j, a, k, b) ensures j == k && a == b {
      if !SameKey(w.cells, j, a, k, b) {
        var id := if j == i && a !in c.store.refunds then a else b;
        InOrder(w, pol, i);
        P.NewRefundsWereAskedFor(c, action, id);
        NewKeyIsNew(w.cells, i, action, j, a);
        NewKeyIsNew(w.cells, i, action, k, b);
        if j == i && a !in c.store.refunds && k == i && b !in c.store.refunds {
          P.NewRefundsWereAskedFor(c, action, b);
        }
      }
    }
  }

  /** A refund recorded so far has another key than one that is only now asked for. */
  lemma NewKeyIsNew(cells: seq<P.Cell>, i: nat, action: P.Action, j: nat, a: string)
    requires i < |cells| && action.BeginRefund? && !Repeats(cells, i, action)
    ensures j < |cells| && cells[j].store.row.merchant == cells[i].store.row.merchant && a in cells[j].store.refunds ==>
              cells[j].store.refunds[a].key != action.key
  {
    if j < |cells| && a in cells[j].store.refunds && cells[j].store.refunds[a].key == action.key {
      assert PaymentStore.KeyTaken(cells[j].store.refunds, action.key);
    }
  }

  lemma CreateKeepsKeys(cells: seq<P.Cell>, params: Payments.NewParams, provider: string, now: int)
    requires PaymentKeysUnique(cells) && RefundKeysUnique(cells)
    requires Answered(cells, params).None? && P.Fresh(params, provider, now).Some?
    ensures var more := cells + [P.Fresh(params, provider, now).value];
            PaymentKeysUnique(more) && RefundKeysUnique(more) && KeepsAllKeys(cells, more)
  {
    hide P.Fresh;
    var c := P.Fresh(params, provider, now).value;
    NewPaymentIsBare(params, provider, now);
    var more := cells + [c];
    forall i: nat, a, j: nat, b | SameKey(more, i, a, j, b) ensures i == j && a == b {
      assert SameKey(cells, i, a, j, b);
    }
  }

  lemma NewPaymentIsBare(params: Payments.NewParams, provider: string, now: int)
    requires P.Fresh(params, provider, now).Some?
    ensures var s := P.Fresh(params, provider, now).value.store;
            s.refunds == map[] && s.row.merchant == params.merchant && s.row.key == params.key
  {
  }

  lemma StepKeepsKeys(w: World, a: Action, pol: Policy)
    requires Inv(w, pol) && PaymentKeysUnique(w.cells) && RefundKeysUnique(w.cells)
    ensures var cells := Step(w, a, pol).cells;
            PaymentKeysUnique(cells) && RefundKeysUnique(cells) && KeepsAllKeys(w.cells, cells)
  {
    hide Inv, P.Step, P.Fresh, PaymentKeysUnique, RefundKeysUnique, KeepsAllKeys, Answered, Repeats, Enlist, Deliver1;
    SameKeepsKeys(w.cells);
    match a {
      case Create(params, provider, now) =>
        if Answered(w.cells, params).None? && P.Fresh(params, provider, now).Some? {
          CreateKeepsKeys(w.cells, params, provider, now);
        }
      case Pay(i, action) => if i < |w.cells| && !Repeats(w.cells, i, action) { PayKeepsKeys(w, i, action, pol); }
      case _ =>
    }
  }

  lemma SameKeepsKeys(cells: seq<P.Cell>)
    ensures KeepsAllKeys(cells, cells)
  {
  }

  lemma {:induction false} RunKeepsKeys(actions: seq<Action>, pol: Policy)
    ensures PaymentKeysUnique(Run(actions, pol).cells) && RefundKeysUnique(Run(actions, pol).cells)
  {
    hide Step, Inv;
    if actions == [] {
    } else {
      RunKeepsInv(actions[..|actions| - 1], pol);
      RunKeepsKeys(actions[..|actions| - 1], pol);
      StepKeepsKeys(Run(actions[..|actions| - 1], pol), actions[|actions| - 1], pol);
    }
  }

  /** In every reachable state each key of a merchant belongs to at most one payment and to at most one refund
      across all payments, however often requests were repeated. */
  lemma KeysAreUsedOnce(w: World, pol: Policy)
    requires Reachable(w, pol)
    ensures PaymentKeysUnique(w.cells) && RefundKeysUnique(w.cells)
  {
    hide Run, PaymentKeysUnique, RefundKeysUnique;
    var actions :| w == Run(actions, pol);
    RunKeepsKeys(actions, pol);
  }

  // ---- repeating a request ----

  /** What becomes of a state by further steps. */
  function Continue(w: World, actions: seq<Action>, pol: Policy): World {
    if actions == [] then w else Step(Continue(w, actions[..|actions| - 1], pol), actions[|actions| - 1], pol)
  }

  lemma {:induction false} ContinueKeepsKeys(w: World, actions: seq<Action>, pol: Policy)
    requires Inv(w, pol) && PaymentKeysUnique(w.cells) && RefundKeysUnique(w.cells)
    ensures var t := Continue(w, actions, pol);
            Inv(t, pol) && PaymentKeysUnique(t.cells) && RefundKeysUnique(t.cells) && KeepsAllKeys(w.cells, t.cells)
  {
    hide Step, Inv, PaymentKeysUnique, RefundKeysUnique, KeepsAllKeys;
    if actions == [] {
      SameKeepsKeys(w.cells);
    } else {
      var m, a := Continue(w, actions[..|actions| - 1], pol), actions[|actions| - 1];
      ContinueKeepsKeys(w, actions[..|actions| - 1], pol);
      StepKeepsInv(m, a, pol);
      StepKeepsKeys(m, a, pol);
      KeysKeptInTurn(w.cells, m.cells, Step(m, a, pol).cells);
    }
  }

  lemma KeysKeptInTurn(cells: seq<P.Cell>, middle: seq<P.Cell>, later: seq<P.Cell>)
    requires KeepsAllKeys(cells, middle) && KeepsAllKeys(middle, later)
    ensures KeepsAllKeys(cells, later)
  {
    forall i | 0 <= i < |cells| ensures P.KeepsKeys(cells[i].store, later[i].store) {
      assert P.KeepsKeys(cells[i].store, middle[i].store) && P.KeepsKeys(middle[i].store, later[i].store);
    }
  }

  /** Once a payment was created under a key, a creation request of that merchant under it writes nothing, now or
      after any further steps, and its answer stays the same: that payment, or the refusal of a different request. */
  lemma RepeatedCreationWritesNothing(w: World, more: seq<Action>, params: Payments.NewParams, provider: string,
                                      now: int, pol: Policy)
    requires Reachable(w, pol) && params.key != "" && CreatedUnder(w.cells, params.merchant, params.key).Some?
    ensures var t := Continue(w, more, pol);
            && Step(t, Create(params, provider, now), pol) == t
            && CreatedUnder(t.cells, params.merchant, params.key)
               == CreatedUnder(w.cells, params.merchant, params.key)
            && Answered(t.cells, params) == Answered(w.cells, params)
  {
    hide Reachable, Inv, Continue, RefundKeysUnique, CreatedUnder;
    ReachableInv(w, pol);
    KeysAreUsedOnce(w, pol);
    ContinueKeepsKeys(w, more, pol);
    var t, i := Continue(w, more, pol), CreatedUnder(w.cells, params.merchant, params.key).value;
    assert P.KeepsKeys(w.cells[i].store, t.cells[i].store);
    var j := CreatedUnder(t.cells, params.merchant, params.key);
    assert j == Some(i);
  }

  /** Once one of a merchant's payments has a refund under a key, a refund request under it writes nothing, on
      whichever of the merchant's payments, now or after any further steps. */
  lemma RepeatedRefundWritesNothing(w: World, more: seq<Action>, merchant: nat, j: nat, rid: nat, id: string,
                                    key: string, amount: Option<Amounts.Money>, pol: Policy)
    requires Reachable(w, pol) && RefundedUnder(w.cells, merchant, key)
    requires var t := Continue(w, more, pol); j < |t.cells| && t.cells[j].store.row.merchant == merchant
    ensures var t := Continue(w, more, pol); Step(t, Pay(j, P.BeginRefund(rid, id, key, amount)), pol) == t
  {
    hide Reachable, Inv, Continue, PaymentKeysUnique, RefundKeysUnique, P.Step;
    ReachableInv(w, pol);
    KeysAreUsedOnce(w, pol);
    ContinueKeepsKeys(w, more, pol);
    var t := Continue(w, more, pol);
    var i :| 0 <= i < |w.cells| && w.cells[i].store.row.merchant == merchant
             && PaymentStore.KeyTaken(w.cells[i].store.refunds, key);
    var a :| a in w.cells[i].store.refunds && w.cells[i].store.refunds[a].key == key;
    assert P.KeepsKeys(w.cells[i].store, t.cells[i].store);
    assert PaymentStore.KeyTaken(t.cells[i].store.refunds, key);
    assert RefundedUnder(t.cells, merchant, key);
  }

  // ---- requests that are not repeated ----

  /** The answer to a creation request under a key, by the payment created under it. */
  lemma AnsweredExactly(cells: seq<P.Cell>, params: Payments.NewParams)
    requires PaymentKeysUnique(cells)
    ensures params.key == "" ==> Answered(cells, params) == Some(Err(Payments.MethodMissing))
    ensures params.key != "" && (forall i | 0 <= i < |cells| && cells[i].store.row.merchant == params.merchant ::
                                   cells[i].store.row.key != params.key) ==>
              Answered(cells, params) == None
    ensures forall i: nat | i < |cells| && params.key == cells[i].store.row.key != ""
                            && params.merchant == cells[i].store.row.merchant ::
              Answered(cells, params)
              == if params.requestHash != "" && cells[i].store.row.requestHash !in {"", params.requestHash}
                 then Some(Err(Payments.IdempotencyKeyMismatch)) else Some(Ok(i))
  {
    hide CreatedUnder;
    forall i: nat | i < |cells| && params.key == cells[i].store.row.key != ""
                    && params.merchant == cells[i].store.row.merchant
      ensures CreatedUnder(cells, params.merchant, params.key) == Some(i)
    {
    }
  }

  /** A creation request under a new key is served whenever the payment can be created: one payment more, its first
      attempt pending, its message in the outbox; nothing else changes. */
  lemma FirstCreationIsServed(w: World, params: Payments.NewParams, provider: string, now: int, pol: Policy)
    requires params.key != "" && PaymentKeysUnique(w.cells)
    requires forall i | 0 <= i < |w.cells| && w.cells[i].store.row.merchant == params.merchant ::
               w.cells[i].store.row.key != params.key
    ensures var t := Step(w, Create(params, provider, now), pol);
            match Payments.NewPayment(params, now)
            case Refused(_) => t == w
            case Changed(row, created) =>
              var attempt := A.AttemptRow(provider, A.AttemptPending, A.NoCategory, "", "");
              var p := row.(attempts := [attempt], provider := provider);
              var m := Message(PaymentCreated, params.merchant, params.paymentId, params.live, CreatedPayload);
              t == w.(cells := w.cells + [P.Cell(PaymentStore.Store(p, map[], [created], [m]), Some(p), map[])],
                      outbox := w.outbox[w.nextId := m], nextId := w.nextId + 1)
  {
    hide CreatedUnder, Payments.NewPayment, P.Fresh, Enlist;
    AnsweredExactly(w.cells, params);
    FreshExactly(params, provider, now);
    if Payments.NewPayment(params, now).Changed? {
      OneEnlisted(w.outbox, w.nextId,
                  Message(PaymentCreated, params.merchant, params.paymentId, params.live, CreatedPayload));
    }
  }

  lemma OneEnlisted(outbox: Outgoing, next: nat, m: Message)
    ensures Enlist(outbox, next, [m]) == outbox[next := m]
  {
    assert [m][..0] == [];
  }

  lemma FreshExactly(params: Payments.NewParams, provider: string, now: int)
    ensures match Payments.NewPayment(params, now)
            case Refused(_) => P.Fresh(params, provider, now) == None
            case Changed(row, created) =>
              var attempt := A.AttemptRow(provider, A.AttemptPending, A.NoCategory, "", "");
              var p := row.(attempts := [attempt], provider := provider);
              var m := Message(PaymentCreated, params.merchant, params.paymentId, params.live, CreatedPayload);
              P.Fresh(params, provider, now)
              == Some(P.Cell(PaymentStore.Store(p, map[], [created], [m]), Some(p), map[]))
  {
    hide Payments.NewPayment;
    if Payments.NewPayment(params, now).Changed? {
      Payments.NewPaymentExactly(params, now);
      var row := Payments.NewPayment(params, now).row;
      assert row.attempts == [] && !row.HasOpenAttempt();
      assert [] + [A.NewAttempt(provider)] == [A.NewAttempt(provider)];
      assert row.StartAttempt(provider).Ok?;
    }
  }

  /** The messages are listed under next and the ids after it, in order. */
  predicate ListedFrom(outbox: Outgoing, next: nat, ms: seq<Message>) {
    forall i: nat | i < |ms| :: ListedAt(outbox, next + i, ms[i])
  }

  predicate ListedAt(outbox: Outgoing, id: nat, m: Message) {
    id in outbox && outbox[id] == m
  }

  lemma {:induction false} EnlistedInOrder(outbox: Outgoing, next: nat, ms: seq<Message>)
    requires forall id | id in outbox :: id < next
    ensures ListedFrom(Enlist(outbox, next, ms), next, ms)
    ensures forall id | id in outbox ::
              id in Enlist(outbox, next, ms) && Enlist(outbox, next, ms)[id] == outbox[id]
  {
    if ms == [] {
    } else {
      EnlistedInOrder(outbox, next, ms[..|ms| - 1]);
      OneMoreListed(Enlist(outbox, next, ms[..|ms| - 1]), next, ms);
    }
  }

  lemma OneMoreListed(outbox: Outgoing, next: nat, ms: seq<Message>)
    requires ms != [] && ListedFrom(outbox, next, ms[..|ms| - 1])
    ensures ListedFrom(outbox[next + |ms| - 1 := ms[|ms| - 1]], next, ms)
  {
    var n := outbox[next + |ms| - 1 := ms[|ms| - 1]];
    forall i: nat | i < |ms| ensures ListedAt(n, next + i, ms[i]) {
      if i < |ms| - 1 {
        assert ms[..|ms| - 1][i] == ms[i];
        assert ListedAt(outbox, next + i, ms[..|ms| - 1][i]);
      }
    }
  }

  /** Any other step of a payment is carried out, and what it sends gets the next ids, in order. */
  lemma OtherStepsAreServed(w: World, i: nat, action: P.Action, pol: Policy)
    requires Inv(w, pol) && i < |w.cells|
    requires action.BeginRefund? ==>
               forall j, id | 0 <= j < |w.cells| && w.cells[j].store.row.merchant == w.cells[i].store.row.merchant
                              && id in w.cells[j].store.refunds :: w.cells[j].store.refunds[id].key != action.key
    ensures var t, d := Step(w, Pay(i, action), pol), P.Step(w.cells[i], action);
            var before := |w.cells[i].store.sent|;
            && t.cells == w.cells[i := d] && w.cells[i].store.sent <= d.store.sent
            && t.nextId == w.nextId + |d.store.sent| - before
            && ListedFrom(t.outbox, w.nextId, d.store.sent[before..])
            && (forall id | id in w.outbox :: id in t.outbox && t.outbox[id] == w.outbox[id])
            && t.ledger == w.ledger && t.bus == w.bus && t.published == w.published
  {
    hide P.Step, Enlist, P.CellInv, CellsInOrder, Listed, RowsMatchOutbox, LedgerMatchesInbox, ProcessedRight;
    var c, d := w.cells[i], P.Step(w.cells[i], action);
    InOrder(w, pol, i);
    P.StepKeepsInv(c, action);
    P.AdvancesIsLater(c.store, d.store);
    LaterSent(c.store, d.store);
    EnlistedInOrder(w.outbox, w.nextId, d.store.sent[|c.store.sent|..]);
    assert !Repeats(w.cells, i, action);
  }

  /** Postings and reversals by hand, and changes of account status, are the ledger's own, and touch nothing else. */
  lemma LedgerStepsAreServed(w: World, inp: L.ManualInput, id: nat, eventId: Option<nat>, key: AccountKey,
                             status: L.AccountStatus, pol: Policy)
    ensures Step(w, Manual(inp), pol) == w.(ledger := L.PostManual(w.ledger, inp).state)
    ensures Step(w, Reverse(id, eventId), pol) == w.(ledger := L.ReverseJournal(w.ledger, id, eventId).state)
    ensures Step(w, SetStatus(key, status), pol)
            == w.(ledger := w.ledger.(accounts := w.ledger.accounts[key := status]))
  {
    hide L.PostManual, L.ReverseJournal;
  }

  /** What the relay publishes reaches the bus, and is marked if the batch is committed. */
  lemma RelayIsServed(w: World, ids: seq<nat>, up: nat -> bool, committed: bool, pol: Policy)
    requires forall id | id in ids :: id in w.outbox && id !in w.published
    ensures var t := Step(w, Relay(ids, up, committed), pol);
            && t == w.(bus := t.bus, published := t.published) && w.bus <= t.bus
            && (forall id :: id in t.bus <==> id in w.bus || exists i | 0 <= i < |ids| :: up(i) && ids[i] == id)
            && (forall id :: id in t.published <==>
                  id in w.published || (committed && exists i | 0 <= i < |ids| :: up(i) && ids[i] == id))
  {
    hide Outbox.Delivered, Outbox.Marked;
    Outbox.MarkedAreDelivered(w.published, ids, up, |ids|);
  }
}

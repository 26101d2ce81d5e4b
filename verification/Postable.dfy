/** Which of the messages a payment sends the ledger can post: a condition on the payment alone. */
module Postable {
  import opened Wrappers
  import opened Amounts
  import opened Accounts
  import opened Templates
  import opened Messages
  import opened Payments
  import PaymentStore
  import A = Attempts
  import P = PaymentRuns

  /** The ledger can read the message and has a journal for it. */
  predicate CanPost(m: Message, id: nat, pol: Policy) {
    FromMessage(m, id).Ok? && Posts(FromMessage(m, id).value, pol)
  }

  /** A message is processed at once or can be posted. */
  predicate Acceptable(m: Message, id: nat, pol: Policy) {
    FromMessage(m, id).Ok? && (MovesMoney(m.typ) ==> Posts(FromMessage(m, id).value, pol))
  }

  /** What the captured payment needs for a message of this type to be posted. */
  predicate Fits(s: PaymentStore.Store, t: EventType) {
    && s.row.merchant != NIL && s.row.paymentId != ""
    && (t == PaymentCaptured || t == RefundSucceeded ==> ValidQualifier(s.row.provider))
    && (t == PaymentCaptured ==> 0 <= P.FeeIn(s.log) <= s.row.captured.amount)
  }

  lemma RightMessagePosts(s: PaymentStore.Store, m: Message, id: nat, pol: Policy)
    requires RowInv(s.row) && P.RightMessage(s, m) && MovesMoney(m.typ) && id != NIL
    ensures CanPost(m, id, pol) <==> Fits(s, m.typ)
  {
    hide ValidQualifier, P.FeeIn;
    match m.typ {
      case PaymentCaptured =>
      case RefundCreated =>
      case RefundSucceeded =>
      case RefundFailed =>
      case _ =>
    }
  }

  lemma SentIsRight(c: P.Cell, m: Message)
    requires P.CellInv(c) && m in c.store.sent
    ensures RowInv(c.store.row) && P.RightMessage(c.store, m)
    ensures c.store.row.captured.amount > 0 ==> exists n :: n in c.store.sent && n.typ == PaymentCaptured
  {
    hide P.Chained, P.Rebuilds, P.OnceEach, P.SentAddsUp, P.RefundsAddUp, P.RefundsOk, P.RightMessage, RowInv;
  }

  /** Every message that moves money, of every payment in every reachable state, is postable if and only if the
      payment has its identifiers, its provider can qualify an account where the message names one, and a
      capture's fee lies between zero and its amount. */
  lemma SentMessagesPostExactly(c: P.Cell, m: Message, id: nat, pol: Policy)
    requires P.Reachable(c) && m in c.store.sent && MovesMoney(m.typ) && id != NIL
    ensures CanPost(m, id, pol) <==> Fits(c.store, m.typ)
  {
    hide P.Reachable, P.CellInv, CanPost, Fits, P.RightMessage;
    P.ReachableInv(c);
    SentIsRight(c, m);
    RightMessagePosts(c.store, m, id, pol);
  }

  /** The payment as a whole: nothing captured yet, or everything its messages need. */
  predicate Sound(s: PaymentStore.Store) {
    s.row.captured.amount == 0
    || (s.row.merchant != NIL && s.row.paymentId != "" && ValidQualifier(s.row.provider)
        && 0 <= P.FeeIn(s.log) <= s.row.captured.amount)
  }

  lemma RightMessageAccepted(s: PaymentStore.Store, m: Message, id: nat, pol: Policy)
    requires RowInv(s.row) && P.RightMessage(s, m) && id != NIL
    ensures Acceptable(m, id, pol) <==> (MovesMoney(m.typ) ==> Fits(s, m.typ))
    ensures MovesMoney(m.typ) ==> s.row.captured.amount > 0
  {
    hide Fits;
    if MovesMoney(m.typ) { RightMessagePosts(s, m, id, pol); }
  }

  /** All of a payment's messages are acceptable exactly when the payment is sound. */
  lemma AcceptableExactlyWhenSound(c: P.Cell, pol: Policy)
    requires P.CellInv(c)
    ensures (forall m, id: nat | m in c.store.sent && id != NIL :: Acceptable(m, id, pol)) <==> Sound(c.store)
  {
    hide P.CellInv, P.RightMessage, Acceptable, RowInv, ValidQualifier, P.FeeIn;
    forall m, id: nat | m in c.store.sent && id != NIL
      ensures Acceptable(m, id, pol) <==> (MovesMoney(m.typ) ==> Fits(c.store, m.typ))
      ensures MovesMoney(m.typ) ==> c.store.row.captured.amount > 0
    {
      SentIsRight(c, m);
      RightMessageAccepted(c.store, m, id, pol);
    }
    AmountNotNegative(c);
    if c.store.row.captured.amount > 0 && forall m, id: nat | m in c.store.sent && id != NIL :: Acceptable(m, id, pol) {
      CaptureWasSent(c);
      var m :| m in c.store.sent && m.typ == PaymentCaptured;
      assert Acceptable(m, 1, pol);
    }
  }

  /** Which id a message travels under makes no difference. */
  lemma AnyIdWillDo(c: P.Cell, m: Message, one: nat, other: nat, pol: Policy)
    requires P.CellInv(c) && m in c.store.sent && one != NIL && other != NIL
    ensures Acceptable(m, one, pol) == Acceptable(m, other, pol)
  {
    hide P.CellInv, P.RightMessage, Acceptable, RowInv, Fits;
    SentIsRight(c, m);
    RightMessageAccepted(c.store, m, one, pol);
    RightMessageAccepted(c.store, m, other, pol);
  }

  lemma AmountNotNegative(c: P.Cell)
    requires P.CellInv(c)
    ensures c.store.row.captured.amount >= 0
  {
    hide P.Chained, P.Rebuilds, P.OnceEach, P.SentAddsUp, P.RefundsAddUp, P.RefundsOk, P.SentRight;
  }

  lemma CaptureWasSent(c: P.Cell)
    requires P.CellInv(c) && c.store.row.captured.amount > 0
    ensures exists m :: m in c.store.sent && m.typ == PaymentCaptured
  {
    hide P.Chained, P.Rebuilds, P.OnceEach, P.SentAddsUp, P.RefundsAddUp, P.RefundsOk, RowInv;
  }

  // ---- a payment the ledger cannot follow ----

  const SAMPLE: NewParams :=
    NewParams(7, "pay", true, Money(100, USD), Chosen(Automatic), "card", map[], "key", "")

  /** The provider authorizes and captures 100 and charges a fee of 101. */
  function FeeAboveAmount(): seq<P.Action> {
    [P.SagaApproved(PaymentStore.Approval("psp", "ref", None, 101, true, Money(0, USD)), true, 0)]
  }

  lemma SampleStarts()
    ensures P.Fresh(SAMPLE, "psp", 0).Some?
    ensures var c := P.Fresh(SAMPLE, "psp", 0).value;
            && c.saga == Some(c.store.row) && c.store.row.status == Created && c.store.row.version == 1
            && c.store.row.attempts == [A.NewAttempt("psp")] && c.store.row.captureMethod == Automatic
            && c.store.row.amount == Money(100, USD) && c.store.row.merchant == 7 && c.store.row.paymentId == "pay"
            && |c.store.log| == 1 && c.store.log[0].typ == PaymentCreated && |c.store.sent| == 1
  {
  }

  /** What that write contains: an authorization, and a capture of 100 with a fee of 101. */
  lemma SampleApproval(p: Row, a: PaymentStore.Approval)
    requires p.status == Created && p.captureMethod == Automatic && p.amount == Money(100, USD) && p.version == 1
    requires a.captured && a.reported == Money(0, USD) && a.fee == 101 && a.authExpiry.None?
    ensures var w := PaymentStore.Approve(p, a, true, 0);
            && w.Ok? && w.value.row.captured == Money(100, USD) && |w.value.events| == 2
            && w.value.events[0].typ == PaymentAuthorized
            && w.value.events[1].typ == PaymentCaptured && w.value.events[1].fee == 101
            && w.value.row.merchant == p.merchant && w.value.row.paymentId == p.paymentId
  {
  }

  lemma StoredApproval(c: P.Cell, p: Row, a: PaymentStore.Approval)
    requires c.saga == Some(p) && c.store.row == p && |p.attempts| == 1
    requires var q := P.LastAttempt(p, (x: A.AttemptRow) => x.MarkApproved(a.reference));
             PaymentStore.Approve(q, a.(provider := P.LastProvider(p)), true, 0).Ok?
    ensures var q := P.LastAttempt(p, (x: A.AttemptRow) => x.MarkApproved(a.reference));
            var w := PaymentStore.Approve(q, a.(provider := P.LastProvider(p)), true, 0).value;
            var d := P.Step(c, P.SagaApproved(a, true, 0));
            d.store.row == w.row && d.store.log == c.store.log + w.events
  {
    hide PaymentStore.Approve;
  }

  lemma FeeOfThree(log: seq<Event>)
    requires |log| == 3 && log[0].typ == PaymentCreated && log[1].typ == PaymentAuthorized
    requires log[2].typ == PaymentCaptured && log[2].fee == 101
    ensures P.FeeIn(log) == 101
  {
    assert log[..2][..1] == log[..1] && log[..1][..0] == [];
    assert P.FeeIn(log[..1]) == 0;
    assert P.FeeIn(log[..2]) == P.FeeIn(log[..1]);
  }

  /** It can happen: a payment of 100 whose capture carries a fee of 101 is reachable, and its capture
      message can be posted under no id and no policy. */
  lemma CaptureTheLedgerRefuses() returns (c: P.Cell)
    ensures P.Reachable(c) && c.store.row.captured == Money(100, USD) && P.FeeIn(c.store.log) == 101
    ensures exists m :: m in c.store.sent && m.typ == PaymentCaptured
    ensures forall m, id: nat, pol | m in c.store.sent && m.typ == PaymentCaptured && id != NIL :: !CanPost(m, id, pol)
  {
    hide P.Step, PaymentStore.Approve, P.FeeIn, P.Reachable, P.CellInv, CanPost;
    var begun := P.Fresh(SAMPLE, "psp", 0).value;
    var p, a := begun.store.row, PaymentStore.Approval("psp", "ref", None, 101, true, Money(0, USD));
    SampleStarts();
    var q := P.LastAttempt(p, (x: A.AttemptRow) => x.MarkApproved(a.reference));
    SampleApproval(q, a.(provider := P.LastProvider(p)));
    StoredApproval(begun, p, a);
    var run := FeeAboveAmount();
    assert run[..0] == [];
    c := P.Run(begun, run);
    assert c == P.Step(begun, run[0]);
    IsReachable(c);
    FeeOfThree(c.store.log);
    P.ReachableInv(c);
    CaptureWasSent(c);
    forall m, id: nat, pol | m in c.store.sent && m.typ == PaymentCaptured && id != NIL ensures !CanPost(m, id, pol) {
      SentMessagesPostExactly(c, m, id, pol);
    }
  }

  lemma IsReachable(c: P.Cell)
    requires P.Fresh(SAMPLE, "psp", 0).Some? && c == P.Run(P.Fresh(SAMPLE, "psp", 0).value, FeeAboveAmount())
    ensures P.Reachable(c)
  {
  }
}

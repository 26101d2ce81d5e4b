/** What each request to a payment writes, stated from the row, the request and the provider's answer alone. */
module Requests {
  import opened Wrappers
  import opened Amounts
  import opened Attempts
  import opened Templates
  import opened Messages
  import opened Payments
  import opened PaymentStore
  import opened PaymentRuns

  /** The rows with one more event and its message. */
  function With(s: Store, row: Row, ev: Event, body: Payload): Store {
    s.(row := row, log := s.log + [ev],
       sent := s.sent + [Message(ev.typ, row.merchant, row.paymentId, row.live, body)])
  }

  function In(s: Store, x: int64): Money {
    Money(x, s.row.amount.currency)
  }

  // ---- captures ----

  /** The payment with x captured at a fee. */
  function WithCapture(s: Store, x: Money, fee: int64): Store {
    var v := s.row.version + 1;
    With(s, s.row.(status := Captured, version := v, captured := x),
         Event(PaymentCaptured, Some(Authorized), Captured, v, x.amount, fee, s.row.provider, ""),
         CapturedPayload(s.row.provider, x, Some(In(s, fee))))
  }

  /** Why a capture of x is refused, if it is. */
  function CaptureFault(p: Row, x: Money, now: int): Option<PaymentError> {
    if p.status != Authorized then Some(InvalidTransition)
    else if x.currency != p.amount.currency then Some(CurrencyDiffers)
    else if x.amount <= 0 then Some(AmountTooSmall)
    else if x.amount > p.authorized.amount then Some(AmountExceedsAuthorized)
    else if p.authExpiresAt.Some? && p.authExpiresAt.value < now then Some(PaymentExpiredError)
    else None
  }

  /** A capture is committed exactly when nobody wrote since it was begun and nothing is against it; then x and no
      other amount is captured, and the one new event and message carry x and the fee. */
  lemma CaptureWrites(s: Store, loaded: nat, x: Money, fee: int64, now: int)
    requires RowInv(s.row)
    ensures CaptureCommit(s, loaded, x, fee, now)
            == if s.row.version != loaded then Err(ConcurrentModification)
               else if CaptureFault(s.row, x, now).Some? then Err(CaptureFault(s.row, x, now).value)
               else Ok(WithCapture(s, x, fee))
  {
    hide RowInv, Row.Capture;
    CaptureExactly(s.row, x, fee, now);
    var c := s.row.Capture(x, fee, now);
    if c.Changed? { OneMessage(c.row, c.event); }
  }

  // ---- voids, failures, expiry ----

  function WithEnd(s: Store, p: Row, typ: EventType, to: Status, x: int64, prov: string): Store {
    var v := p.version + 1;
    With(s, p.(status := to, version := v, expiresAt := None),
         Event(typ, Some(p.status), to, v, x, 0, prov, ""), PlainPayload(p.provider))
  }

  lemma VoidWrites(s: Store, loaded: nat)
    ensures VoidCommit(s, loaded)
            == if s.row.version != loaded then Err(ConcurrentModification)
               else if s.row.status in {Captured, PartiallyRefunded, Refunded, Disputed, ChargebackWon}
               then Err(VoidNotAllowed)
               else if s.row.status != Authorized && s.row.status != RequiresAction then Err(InvalidTransition)
               else Ok(WithEnd(s, s.row, PaymentVoided, Voided, s.row.authorized.amount, s.row.provider))
  {
    hide Row.Void;
    VoidExactly(s.row);
    if s.row.Void().Changed? { OneMessage(s.row.Void().row, s.row.Void().event); }
  }

  /** A failure is written from the copy it was decided on, unless somebody wrote in between. */
  lemma FailureWrites(s: Store, p: Row, loaded: nat, prov: string)
    ensures FailCommit(s, p, loaded, prov)
            == if p.status != Created && p.status != RequiresAction then Err(InvalidTransition)
               else if s.row.version != loaded then Err(ConcurrentModification)
               else Ok(WithEnd(s, p, PaymentFailed, Failed, p.amount.amount, if prov == "" then p.provider else prov))
  {
    hide Row.Fail;
    FailExactly(p, prov);
    if p.Fail(prov).Changed? { OneMessage(p.Fail(prov).row, p.Fail(prov).event); }
  }

  lemma ExpiryWrites(s: Store)
    ensures ExpireCommit(s)
            == if s.row.status != Created && s.row.status != RequiresAction then Err(InvalidTransition)
               else Ok(WithEnd(s, s.row, PaymentExpired, Expired, s.row.amount.amount, s.row.provider))
  {
    hide Row.Expire;
    ExpireExactly(s.row);
    if s.row.Expire().Changed? { OneMessage(s.row.Expire().row, s.row.Expire().event); }
  }

  /** A step an approval may have to wait for: the customer is asked to act. */
  lemma ActionWrites(s: Store, p: Row, loaded: nat, ref: string, expires: Option<int>, now: int)
    ensures var v := p.version + 1;
            PersistChange(s, p.RequireAction(ref, expires, now), loaded)
            == if p.status != Created then Err(InvalidTransition)
               else if s.row.version != loaded then Err(ConcurrentModification)
               else Ok(With(s, p.(status := RequiresAction, version := v, reference := ref,
                                  expiresAt := if expires.Some? then expires else Some(now + 1_800_000_000_000)),
                            Event(PaymentRequiresAction, Some(Created), RequiresAction, v, 0, 0, p.provider, ""),
                            PlainPayload(p.provider)))
  {
    hide Row.RequireAction;
    RequireActionExactly(p, ref, expires, now);
    var c := p.RequireAction(ref, expires, now);
    if c.Changed? { OneMessage(c.row, c.event); }
  }

  // ---- approvals ----

  /** The payment authorized on copy p. */
  function Authorization(p: Row, a: Approval, now: int): Row {
    p.(status := Authorized, version := p.version + 1, authorized := p.amount,
       provider := if a.provider == "" then p.provider else a.provider, reference := a.reference, expiresAt := None,
       authExpiresAt := if a.authExpiry.Some? then a.authExpiry else Some(now + 604_800_000_000_000))
  }

  function AuthorizationEvent(p: Row, a: Approval): Event {
    Event(PaymentAuthorized, Some(p.status), Authorized, p.version + 1, p.amount.amount, a.fee, a.provider, "")
  }

  /** What an immediate capture takes: what the provider says it captured, else the whole amount. */
  function CapturedAtOnce(p: Row, a: Approval): Money {
    if a.reported.amount > 0 then a.reported else p.amount
  }

  function WithAuthorization(s: Store, p: Row, a: Approval, now: int): Store {
    With(s, Authorization(p, a, now), AuthorizationEvent(p, a), PlainPayload(Authorization(p, a, now).provider))
  }

  /** Why an approval is refused, if it is: the payment cannot be authorized any more, or what was captured with it
      cannot have been. */
  function ApprovalFault(p: Row, a: Approval, captures: bool, now: int): Option<PaymentError> {
    if p.status == RequiresAction && p.expiresAt.Some? && p.expiresAt.value < now then Some(PaymentExpiredError)
    else if p.status != Created && p.status != RequiresAction then Some(InvalidTransition)
    else if !captures then None
    else if CapturedAtOnce(p, a).currency != p.amount.currency then Some(CurrencyDiffers)
    else if CapturedAtOnce(p, a).amount > p.amount.amount then Some(AmountExceedsAuthorized)
    else if a.authExpiry.Some? && a.authExpiry.value < now then Some(PaymentExpiredError)
    else None
  }

  /** An approval is written unless the payment refuses it or somebody wrote in between: the authorization, and for
      an automatic payment whose money was captured, then or at once, the capture of what was reported, or of the
      whole amount, at the provider's fee. */
  lemma ApprovalWrites(s: Store, p: Row, loaded: nat, a: Approval, captureOk: bool, now: int)
    requires RowInv(p)
    ensures var captures := p.captureMethod == Automatic && (a.captured || captureOk);
            ApproveCommit(s, p, loaded, a, captureOk, now)
            == if ApprovalFault(p, a, captures, now).Some? then Err(ApprovalFault(p, a, captures, now).value)
               else if s.row.version != loaded then Err(ConcurrentModification)
               else if captures then Ok(WithCapture(WithAuthorization(s, p, a, now), CapturedAtOnce(p, a), a.fee))
               else Ok(WithAuthorization(s, p, a, now))
  {
    hide Row.Authorize, Row.Capture, CanTransition;
    AuthorizeExactly(p, a.provider, a.reference, a.authExpiry, a.fee, now);
    var c := p.Authorize(a.provider, a.reference, a.authExpiry, a.fee, now);
    if c.Changed? {
      AuthorizeKeeps(p, a.provider, a.reference, a.authExpiry, a.fee, now);
      CaptureExactly(c.row, CapturedAtOnce(p, a), a.fee, now);
      OneMessage(c.row, c.event);
      var d := c.row.Capture(CapturedAtOnce(p, a), a.fee, now);
      if d.Changed? {
        TwoMessages(d.row, c.event, d.event);
        assert s.log + [c.event, d.event] == s.log + [c.event] + [d.event];
        var m, n := BuildMessage(d.row, c.event), BuildMessage(d.row, d.event);
        assert s.sent + ([m] + [n]) == s.sent + [m] + [n];
      }
    }
  }

  // ---- refunds ----

  /** The payment with a refund of x set aside. */
  function WithRefund(s: Store, id: string, key: string, x: Money): Store
    requires RowInv(s.row) && RefundFault(s.row, x).None?
  {
    var p, v := s.row, s.row.version + 1;
    With(s, p.(version := v, pending := In(s, p.pending.amount + x.amount)),
         Event(RefundCreated, Some(p.status), p.status, v, x.amount, 0, p.provider, id),
         RefundCreatedPayload(p.provider, id, x))
      .(refunds := s.refunds[id := RefundRow(id, key, x, RefundPending, p.provider, 0)])
  }

  /** What a refund takes: the amount asked for, or all that is captured and neither refunded nor set aside. */
  function Asked(p: Row, want: Option<Money>): Money
    requires RowInv(p)
  {
    if want.Some? then want.value
    else Money(p.captured.amount - p.refunded.amount - p.pending.amount, p.amount.currency)
  }

  /** Why a refund of x is refused, if it is. */
  function RefundFault(p: Row, x: Money): Option<PaymentError> {
    if p.status != Captured && p.status != PartiallyRefunded then Some(NotRefundable)
    else if x.currency != p.amount.currency then Some(CurrencyDiffers)
    else if x.amount <= 0 then Some(AmountTooSmall)
    else if x.amount > p.captured.amount - p.refunded.amount - p.pending.amount then Some(RefundExceedsAvailable)
    else None
  }

  /** A refund request commits exactly when nothing is against the amount asked for and neither its id nor its key is
      taken; then that amount is set aside, and the new refund, event and message carry it. */
  lemma RefundWrites(s: Store, id: string, key: string, want: Option<Money>)
    requires RowInv(s.row)
    ensures var x := Asked(s.row, want);
            RefundBegin(s, id, key, want)
            == if RefundFault(s.row, x).Some? then Err(RefundFault(s.row, x).value)
               else if id in s.refunds || (exists other :: other in s.refunds && s.refunds[other].key == key)
               then Err(ConcurrentModification)
               else Ok(WithRefund(s, id, key, x))
  {
    hide Row.ReserveRefund, Row.AvailableToRefund, CanTransition;
    AvailableIs(s.row);
    var r := RefundRow(id, key, Asked(s.row, want), RefundPending, s.row.provider, 0);
    ReserveExactly(s.row, r);
    var c := s.row.ReserveRefund(r);
    if c.Changed? { OneMessage(c.row, c.event); }
  }

  predicate Covered(s: Store, id: string) {
    id in s.refunds && RowInv(s.row) && 0 < s.refunds[id].amount.amount <= s.row.pending.amount
  }

  function WithSettled(s: Store, id: string): Store
    requires Covered(s, id)
  {
    var p, r, v := s.row, s.refunds[id], s.row.version + 1;
    var back := In(s, p.refunded.amount + r.amount.amount);
    var to := if back == p.captured then Refunded else PartiallyRefunded;
    With(s, p.(status := to, version := v, refunded := back, pending := In(s, p.pending.amount - r.amount.amount)),
         Event(RefundSucceeded, Some(p.status), to, v, r.amount.amount, 0, r.provider, id),
         RefundSucceededPayload(r.provider, id, r.amount, None))
      .(refunds := s.refunds[id := r.(status := RefundSettled, version := 1)])
  }

  function WithReturned(s: Store, id: string): Store
    requires Covered(s, id)
  {
    var p, r, v := s.row, s.refunds[id], s.row.version + 1;
    With(s, p.(version := v, pending := In(s, p.pending.amount - r.amount.amount)),
         Event(RefundFailed, Some(p.status), p.status, v, r.amount.amount, 0, r.provider, id),
         RefundFailedPayload(r.provider, id, r.amount))
      .(refunds := s.refunds[id := r.(status := RefundReturned, version := 1)])
  }

  /** The provider's answer settles the refund, or returns its amount, exactly if it is still pending. */
  lemma RefundEndWrites(s: Store, held: RefundRow, succeeded: bool)
    requires StoreInv(s) && Current(s, Refunding(held))
    ensures s.refunds[held.id].status == RefundPending ==> Covered(s, held.id)
    ensures var t := RefundEnd(s, held, succeeded);
            if s.refunds[held.id].status != RefundPending then t.Err?
            else t == Ok(if succeeded then WithSettled(s, held.id) else WithReturned(s, held.id))
  {
    hide SentRight, Chained, Rebuilds, OnceEach, RefundsAddUp, SentAddsUp, RowInv, CanTransition;
    hide Row.MarkRefunded, Row.ReleaseRefund, Good, AttemptsOk;
    RefundEndGood(s, held, succeeded);
    var id := held.id;
    if s.refunds[id].status == RefundPending {
      PendingIsCovered(s, id);
      var r := held.(status := if succeeded then RefundSettled else RefundReturned, version := 1);
      SettleExactly(s.row, r);
      var c := if succeeded then s.row.MarkRefunded(r) else s.row.ReleaseRefund(r);
      OneMessage(c.row, c.event);
    }
  }

  // ---- whole requests, with anything else in between ----

  /** The action does not end request rid. */
  predicate Spares(a: Action, rid: nat) {
    match a
    case EndCapture(r, _, _, _) => r != rid
    case EndVoid(r) => r != rid
    case EndConfirmFailed(r, _) => r != rid
    case EndConfirmApproved(r, _, _, _, _) => r != rid
    case EndRefund(r, _) => r != rid
    case GiveUp(r) => r != rid
    case _ => true
  }

  predicate AllSpare(actions: seq<Action>, rid: nat) {
    forall a | a in actions :: Spares(a, rid)
  }

  lemma StepSpares(c: Cell, a: Action, rid: nat)
    requires rid in c.requests && Spares(a, rid)
    ensures rid in Step(c, a).requests && Step(c, a).requests[rid] == c.requests[rid]
  {
    hide CaptureCommit, VoidCommit, ConfirmFailed, ConfirmApproved, RefundEnd, RefundBegin, PersistChange, FailCommit;
    hide ApproveCommit, Persist, ExpireCommit;
  }

  lemma {:induction false} RequestStays(c: Cell, actions: seq<Action>, rid: nat)
    requires CellInv(c) && rid in c.requests && AllSpare(actions, rid)
    ensures rid in Run(c, actions).requests && Run(c, actions).requests[rid] == c.requests[rid]
    ensures CellInv(Run(c, actions))
  {
    hide Step, CellInv, Spares;
    if actions == [] {
    } else {
      var init, a := actions[..|actions| - 1], actions[|actions| - 1];
      assert a in actions && forall x | x in init :: x in actions;
      RequestStays(c, init, rid);
      StepSpares(Run(c, init), a, rid);
      StepKeepsInv(Run(c, init), a);
    }
  }

  lemma InOrder(c: Cell)
    requires CellInv(c)
    ensures StoreInv(c.store) && RowInv(c.store.row)
  {
    hide SentRight, Chained, Rebuilds, OnceEach, RefundsAddUp, SentAddsUp, RefundsOk;
  }

  /** What a capture asks for: the amount given, or all that is authorized. */
  function ToCapture(p: Row, want: Option<Money>): Money {
    if want.Some? then want.value else p.authorized
  }

  /** A capture request, from the check before the provider is called to what is written after it answered: it goes
      on exactly when nothing is against the amount asked for, and it captures what the provider reports in that
      currency, or else the amount asked for, if nobody wrote in between. */
  lemma CaptureRequest(c: Cell, rid: nat, want: Option<Money>, now: int, between: seq<Action>, fee: int64,
                       reported: Money, later: int)
    requires CellInv(c) && rid !in c.requests && AllSpare(between, rid)
    ensures var asked := ToCapture(c.store.row, want);
            var d := Run(Step(c, BeginCapture(rid, want, now)), between);
            var x := if reported.currency == asked.currency && reported.amount > 0 then reported else asked;
            if CaptureFault(c.store.row, asked, now).Some? then Step(c, BeginCapture(rid, want, now)) == c
            else
              && Step(c, BeginCapture(rid, want, now)).store == c.store
              && Step(d, EndCapture(rid, fee, reported, later)).store
                 == if d.store.row.version == c.store.row.version && CaptureFault(d.store.row, x, later).None?
                    then WithCapture(d.store, x, fee) else d.store
  {
    hide CellInv, CaptureCommit, RowInv, Step, Run, CaptureFault, WithCapture;
    InOrder(c);
    CaptureBegins(c, rid, want, now);
    var p, asked := c.store.row, ToCapture(c.store.row, want);
    if CaptureFault(p, asked, now).None? {
      var m := Step(c, BeginCapture(rid, want, now));
      StepKeepsInv(c, BeginCapture(rid, want, now));
      RequestStays(m, between, rid);
      var d := Run(m, between);
      InOrder(d);
      var x := if reported.currency == asked.currency && reported.amount > 0 then reported else asked;
      CaptureEnds(d, rid, p.version, asked, fee, reported, later);
      CaptureWrites(d.store, p.version, x, fee, later);
    }
  }

  lemma CaptureBegins(c: Cell, rid: nat, want: Option<Money>, now: int)
    requires RowInv(c.store.row) && rid !in c.requests
    ensures var p, asked := c.store.row, ToCapture(c.store.row, want);
            Step(c, BeginCapture(rid, want, now))
            == if CaptureFault(p, asked, now).Some? then c
               else c.(requests := c.requests[rid := Capturing(p.version, asked)])
  {
    hide RowInv, Row.Capture, Row.RemainingAuthorized;
    var p := c.store.row;
    if p.status == Authorized { AllIsLeft(p); }
    CaptureExactly(p, if want.Some? then want.value else p.RemainingAuthorized(), 0, now);
  }

  lemma CaptureEnds(d: Cell, rid: nat, loaded: nat, asked: Money, fee: int64, reported: Money, later: int)
    requires rid in d.requests && d.requests[rid] == Capturing(loaded, asked)
    ensures var x := if reported.currency == asked.currency && reported.amount > 0 then reported else asked;
            Step(d, EndCapture(rid, fee, reported, later)).store
            == After(d.store, CaptureCommit(d.store, loaded, x, fee, later))
  {
    hide CaptureCommit;
  }

  lemma AllIsLeft(p: Row)
    requires RowInv(p) && p.status == Authorized
    ensures p.RemainingAuthorized() == p.authorized
  {
  }

  /** A refund request: it sets the amount asked for aside exactly when nothing is against it; the answer, whenever it
      comes, settles or returns it unless somebody else has. */
  lemma RefundRequest(c: Cell, rid: nat, id: string, key: string, want: Option<Money>, between: seq<Action>,
                      succeeded: bool)
    requires CellInv(c) && rid !in c.requests && id != "" && key != "" && AllSpare(between, rid)
    ensures RowInv(c.store.row)
    ensures var x := Asked(c.store.row, want);
            var m := Step(c, BeginRefund(rid, id, key, want));
            if RefundFault(c.store.row, x).Some? || id in c.store.refunds || KeyTaken(c.store.refunds, key) then m == c
            else m.store == WithRefund(c.store, id, key, x) && rid in m.requests
                 && m.requests[rid] == Refunding(RefundRow(id, key, x, RefundPending, c.store.row.provider, 0))
    ensures var m := Step(c, BeginRefund(rid, id, key, want));
            var d := Run(m, between);
            rid in m.requests ==>
              && id in d.store.refunds && (d.store.refunds[id].status == RefundPending ==> Covered(d.store, id))
              && Step(d, EndRefund(rid, succeeded)).store
                 == if d.store.refunds[id].status != RefundPending then d.store
                    else if succeeded then WithSettled(d.store, id) else WithReturned(d.store, id)
  {
    hide CellInv, StoreInv, RefundBegin, RefundEnd, RowInv, Covered, Step, Run, KeyTaken, Current;
    hide WithSettled, WithReturned;
    InOrder(c);
    RefundBegins(c, rid, id, key, want);
    var m := Step(c, BeginRefund(rid, id, key, want));
    if rid in m.requests {
      StepKeepsInv(c, BeginRefund(rid, id, key, want));
      RequestStays(m, between, rid);
      var d := Run(m, between);
      InOrder(d);
      var held := m.requests[rid].held;
      IsCurrent(d, rid);
      HeldIsThere(d.store, held);
      RefundEnds(d, rid, held, succeeded);
      RefundEndWrites(d.store, held, succeeded);
    }
  }

  lemma HeldIsThere(s: Store, held: RefundRow)
    requires Current(s, Refunding(held))
    ensures held.id in s.refunds
  {
  }

  lemma RefundBegins(c: Cell, rid: nat, id: string, key: string, want: Option<Money>)
    requires RowInv(c.store.row) && rid !in c.requests && id != "" && key != ""
    ensures var x, p := Asked(c.store.row, want), c.store.row;
            Step(c, BeginRefund(rid, id, key, want))
            == if RefundFault(p, x).Some? || id in c.store.refunds || KeyTaken(c.store.refunds, key) then c
               else Cell(WithRefund(c.store, id, key, x), c.saga,
                         c.requests[rid := Refunding(RefundRow(id, key, x, RefundPending, p.provider, 0))])
  {
    hide RowInv, RefundBegin, Asked, RefundFault;
    RefundWrites(c.store, id, key, want);
  }

  lemma RefundEnds(d: Cell, rid: nat, held: RefundRow, succeeded: bool)
    requires rid in d.requests && d.requests[rid] == Refunding(held)
    ensures Step(d, EndRefund(rid, succeeded)).store == After(d.store, RefundEnd(d.store, held, succeeded))
  {
    hide RefundEnd;
  }

  lemma IsCurrent(c: Cell, rid: nat)
    requires CellInv(c) && rid in c.requests
    ensures Current(c.store, c.requests[rid])
  {
    hide StoreInv;
  }

  /** A void request. */
  lemma VoidRequest(c: Cell, rid: nat, between: seq<Action>)
    requires CellInv(c) && rid !in c.requests && AllSpare(between, rid)
    ensures var p := c.store.row;
            var m := Step(c, BeginVoid(rid));
            var d := Run(m, between);
            if p.status != Authorized && p.status != RequiresAction then m == c
            else
              && m.store == c.store
              && Step(d, EndVoid(rid)).store
                 == if d.store.row.version == p.version
                       && (d.store.row.status == Authorized || d.store.row.status == RequiresAction)
                    then WithEnd(d.store, d.store.row, PaymentVoided, Voided, d.store.row.authorized.amount,
                                 d.store.row.provider)
                    else d.store
  {
    hide CellInv, Row.Void, VoidCommit;
    var p, m := c.store.row, Step(c, BeginVoid(rid));
    VoidExactly(p);
    if p.status == Authorized || p.status == RequiresAction {
      StepKeepsInv(c, BeginVoid(rid));
      RequestStays(m, between, rid);
      VoidWrites(Run(m, between).store, p.version);
    }
  }

  /** The payment expires when nothing was authorized in time. */
  lemma ExpiryRequest(c: Cell)
    ensures Step(c, Expire)
            == if c.store.row.status != Created && c.store.row.status != RequiresAction then c
               else c.(store := WithEnd(c.store, c.store.row, PaymentExpired, Expired, c.store.row.amount.amount,
                                        c.store.row.provider))
  {
    hide ExpireCommit;
    ExpiryWrites(c.store);
  }

  /** Place i holds the attempt that is waiting: the first open one. */
  predicate Waiting(p: Row, i: nat) {
    i < |p.attempts| && p.attempts[i].status.IsOpen() && forall k | 0 <= k < i :: !p.attempts[k].status.IsOpen()
  }

  lemma ConfirmationBegins(c: Cell, rid: nat, i: nat, between: seq<Action>)
    requires CellInv(c) && rid !in c.requests && AllSpare(between, rid) && Waiting(c.store.row, i)
    ensures var m := Step(c, BeginConfirm(rid));
            if c.store.row.status != RequiresAction then m == c
            else
              && m == c.(requests := c.requests[rid := Confirming(c.store.row)])
              && var d := Run(m, between);
                 && CellInv(d) && rid in d.requests && d.requests[rid] == Confirming(c.store.row)
                 && (d.store.row.version == c.store.row.version ==> d.store.row == c.store.row)
  {
    hide CellInv;
    var m := Step(c, BeginConfirm(rid));
    if c.store.row.status == RequiresAction {
      StepKeepsInv(c, BeginConfirm(rid));
      RequestStays(m, between, rid);
      IsCurrent(Run(m, between), rid);
    }
  }

  /** A confirmation the provider answers with a failure: the waiting attempt is declined and the payment has failed,
      if nobody wrote in between. */
  lemma ConfirmationFails(c: Cell, rid: nat, i: nat, between: seq<Action>, code: string)
    requires CellInv(c) && rid !in c.requests && AllSpare(between, rid) && Waiting(c.store.row, i)
    requires c.store.row.status == RequiresAction
    ensures var d := Run(Step(c, BeginConfirm(rid)), between);
            var p, a := c.store.row, c.store.row.attempts[i];
            var declined := AttemptRow(a.provider, Declined, AuthenticationFailed, code, a.reference);
            Step(d, EndConfirmFailed(rid, code)).store
            == if d.store.row.version != p.version then d.store
               else WithEnd(d.store, p.(attempts := p.attempts[i := declined]), PaymentFailed, Failed, p.amount.amount,
                            if a.provider == "" then p.provider else a.provider)
  {
    hide CellInv, FailCommit, Step, Run, WithEnd;
    ConfirmationBegins(c, rid, i, between);
    var d := Run(Step(c, BeginConfirm(rid)), between);
    var p, a := c.store.row, c.store.row.attempts[i];
    var declined := AttemptRow(a.provider, Declined, AuthenticationFailed, code, a.reference);
    ConfirmationDeclined(d, rid, p, i, code);
    FailureWrites(d.store, p.(attempts := p.attempts[i := declined]), p.version, a.provider);
  }

  lemma ConfirmationDeclined(d: Cell, rid: nat, p: Row, i: nat, code: string)
    requires rid in d.requests && d.requests[rid] == Confirming(p) && Waiting(p, i)
    ensures var a := p.attempts[i];
            var declined := AttemptRow(a.provider, Declined, AuthenticationFailed, code, a.reference);
            Step(d, EndConfirmFailed(rid, code)).store
            == After(d.store, FailCommit(d.store, p.(attempts := p.attempts[i := declined]), p.version, a.provider))
  {
    hide FailCommit;
  }

  /** A confirmation the provider answers with an approval: the waiting attempt is approved, and the payment authorized,
      and captured if it captures by itself, as ApprovalWrites says. */
  lemma ConfirmationSucceeds(c: Cell, rid: nat, i: nat, between: seq<Action>, captured: bool, reported: Money,
                             captureOk: bool, later: int)
    requires CellInv(c) && rid !in c.requests && AllSpare(between, rid) && Waiting(c.store.row, i)
    requires c.store.row.status == RequiresAction
    ensures var d := Run(Step(c, BeginConfirm(rid)), between);
            var p, a := c.store.row, c.store.row.attempts[i];
            var q := p.(attempts := p.attempts[i := AttemptRow(a.provider, Approved, NoCategory, "", p.reference)]);
            var approval := Approval(a.provider, p.reference, None, 0, captured, reported);
            var captures := p.captureMethod == Automatic && (captured || captureOk);
            Step(d, EndConfirmApproved(rid, captured, reported, captureOk, later)).store
            == if d.store.row.version != p.version || ApprovalFault(q, approval, captures, later).Some? then d.store
               else if captures then WithCapture(WithAuthorization(d.store, q, approval, later),
                                                 CapturedAtOnce(q, approval), 0)
               else WithAuthorization(d.store, q, approval, later)
  {
    hide CellInv, ApproveCommit, RowInv, Step, Run, WithCapture, WithAuthorization, ApprovalFault, CapturedAtOnce;
    ConfirmationBegins(c, rid, i, between);
    InOrder(c);
    var d := Run(Step(c, BeginConfirm(rid)), between);
    var p, a := c.store.row, c.store.row.attempts[i];
    var q := p.(attempts := p.attempts[i := AttemptRow(a.provider, Approved, NoCategory, "", p.reference)]);
    SameRowInv(q, p);
    ConfirmationApproved(d, rid, p, i, captured, reported, captureOk, later);
    ApprovalWrites(d.store, q, p.version, Approval(a.provider, p.reference, None, 0, captured, reported), captureOk,
                   later);
  }

  lemma ConfirmationApproved(d: Cell, rid: nat, p: Row, i: nat, captured: bool, reported: Money, captureOk: bool,
                             later: int)
    requires rid in d.requests && d.requests[rid] == Confirming(p) && Waiting(p, i)
    ensures var a := p.attempts[i];
            var q := p.(attempts := p.attempts[i := AttemptRow(a.provider, Approved, NoCategory, "", p.reference)]);
            Step(d, EndConfirmApproved(rid, captured, reported, captureOk, later)).store
            == After(d.store, ApproveCommit(d.store, q, p.version,
                                            Approval(a.provider, p.reference, None, 0, captured, reported), captureOk,
                                            later))
  {
    hide ApproveCommit;
  }

  // ---- the saga's own writes ----

  /** The saga's copy with its last attempt marked. */
  function Marked(p: Row, a: AttemptRow): Row
    requires p.attempts != []
  {
    p.(attempts := p.attempts[|p.attempts| - 1 := a])
  }

  /** A failed saga fails the payment from its copy p, unless somebody wrote since. */
  lemma SagaFailureWrites(c: Cell, p: Row, cat: Category, code: string, ref: string)
    requires c.saga == Some(p) && p.attempts != [] && p.status == Created
    ensures var last, s := p.attempts[|p.attempts| - 1], c.store;
            Step(c, SagaFailed(cat, code, ref))
            == Cell(if s.row.version != p.version then s
                    else WithEnd(s, Marked(p, last.MarkFailed(cat, code, ref)), PaymentFailed, Failed, p.amount.amount,
                                 if last.provider == "" then p.provider else last.provider), None, c.requests)
  {
    hide FailCommit, WithEnd;
    var last := p.attempts[|p.attempts| - 1];
    FailureWrites(c.store, Marked(p, last.MarkFailed(cat, code, ref)), p.version, last.provider);
  }

  /** An unknown outcome is written without an event. */
  lemma SagaUnknownWrites(c: Cell, p: Row, cat: Category, code: string, ref: string)
    requires c.saga == Some(p) && p.attempts != []
    ensures var failed := Marked(p, p.attempts[|p.attempts| - 1].MarkFailed(cat, code, ref));
            Step(c, SagaUnknown(cat, code, ref))
            == Cell(if c.store.row.version != p.version then c.store else c.store.(row := failed), None, c.requests)
    ensures Step(c, SagaLost) == c.(saga := None)
  {
  }

  /** A customer action is asked for on the attempt that is waiting. */
  lemma SagaActionWrites(c: Cell, p: Row, ref: string, expires: Option<int>, now: int)
    requires c.saga == Some(p) && p.attempts != [] && p.status == Created
    ensures var s, v := c.store, p.version + 1;
            var acting := Marked(p, p.attempts[|p.attempts| - 1].MarkRequiresAction(ref));
            Step(c, SagaRequiresAction(ref, expires, now))
            == Cell(if s.row.version != p.version then s
                    else With(s, acting.(status := RequiresAction, version := v, reference := ref,
                                         expiresAt := if expires.Some? then expires
                                                      else Some(now + 1_800_000_000_000)),
                              Event(PaymentRequiresAction, Some(Created), RequiresAction, v, 0, 0, p.provider, ""),
                              PlainPayload(p.provider)), None, c.requests)
  {
    hide Row.RequireAction, PersistChange;
    var acting := Marked(p, p.attempts[|p.attempts| - 1].MarkRequiresAction(ref));
    ActionWrites(c.store, acting, p.version, ref, expires, now);
  }

  /** An approval is written as ApprovalWrites says, under the provider of the last attempt. */
  lemma SagaApprovalWrites(c: Cell, p: Row, a: Approval, captureOk: bool, now: int)
    requires c.saga == Some(p) && p.attempts != [] && RowInv(p)
    ensures var last, s := p.attempts[|p.attempts| - 1], c.store;
            var approved, mine := Marked(p, last.MarkApproved(a.reference)), a.(provider := last.provider);
            var captures := p.captureMethod == Automatic && (a.captured || captureOk);
            Step(c, SagaApproved(a, captureOk, now))
            == Cell(if s.row.version != p.version || ApprovalFault(approved, mine, captures, now).Some? then s
                    else if captures
                    then WithCapture(WithAuthorization(s, approved, mine, now), CapturedAtOnce(approved, mine), a.fee)
                    else WithAuthorization(s, approved, mine, now), None, c.requests)
  {
    hide RowInv, ApproveCommit, ApprovalFault, WithCapture, WithAuthorization, CapturedAtOnce;
    var approved := Marked(p, p.attempts[|p.attempts| - 1].MarkApproved(a.reference));
    SameRowInv(approved, p);
    ApprovalWrites(c.store, approved, p.version, a.(provider := p.attempts[|p.attempts| - 1].provider), captureOk, now);
  }

  /** Going on to another provider: the failed attempt and the new one are written, and the saga keeps what it wrote. */
  lemma SagaGoesOn(c: Cell, p: Row, cat: Category, code: string, ref: string, prov: string)
    requires c.saga == Some(p) && p.attempts != [] && p.status == Created
    ensures var failed := Marked(p, p.attempts[|p.attempts| - 1].MarkFailed(cat, code, ref));
            var next := failed.(provider := prov,
                                attempts := failed.attempts + [AttemptRow(prov, AttemptPending, NoCategory, "", "")]);
            Step(c, SagaFailover(cat, code, ref, prov))
            == if c.store.row.version != p.version
                  || exists a :: a in failed.attempts && a.status in {AttemptPending, NeedsAction, Unknown}
               then c.(saga := None)
               else Cell(c.store.(row := next), Some(next), c.requests)
  {
    hide Row.StartAttempt;
    StartExactly(Marked(p, p.attempts[|p.attempts| - 1].MarkFailed(cat, code, ref)), prov);
  }
}

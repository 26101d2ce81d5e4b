/** The payment aggregate: its status machine, its four amounts, and the events it emits. */
module Payments {
  import opened Wrappers
  import opened Amounts
  import opened Attempts
  import opened Templates

  datatype Status =
    | Created | RequiresAction | Authorized | Captured | PartiallyRefunded | Refunded | Voided | Failed | Expired
    | Disputed | ChargebackWon | ChargebackLost

  predicate CanTransition(from: Status, to: Status) {
    match from
    case Created => to.RequiresAction? || to.Authorized? || to.Captured? || to.Failed? || to.Expired?
    case RequiresAction => to.Authorized? || to.Captured? || to.Failed? || to.Expired? || to.Voided?
    case Authorized => to.Captured? || to.Voided?
    case Captured => to.PartiallyRefunded? || to.Refunded? || to.Disputed?
    case PartiallyRefunded => to.PartiallyRefunded? || to.Refunded? || to.Disputed?
    case Refunded => to.Disputed?
    case Disputed => to.ChargebackWon? || to.ChargebackLost?
    case ChargebackWon => to.Disputed? || to.PartiallyRefunded? || to.Refunded?
    case _ => false
  }

  predicate IsTerminal(s: Status) {
    s.Voided? || s.Failed? || s.Expired? || s.ChargebackLost?
  }

  datatype CaptureMethod = Automatic | ManualCapture

  datatype PaymentError =
    | InvalidTransition | OperationInProgress | PaymentExpiredError | CurrencyDiffers | AmountTooSmall | InvalidAmount
    | AmountExceedsAuthorized | VoidNotAllowed | PaymentDisputed | NotRefundable | RefundExceedsAvailable
    | MethodMissing | MetadataTooLarge | ConcurrentModification | ProviderFailed | AlreadySettled
    | IdempotencyKeyMismatch | StorageFailed

  const MINUTE: int := 60_000_000_000
  const CREATED_TTL: int := 60 * MINUTE
  const ACTION_WINDOW: int := 30 * MINUTE
  const AUTH_VALIDITY: int := 7 * 24 * 60 * MINUTE

  /** One emitted event: its place in the payment's history and the payload the ledger needs. */
  datatype Event = Event(typ: EventType, from: Option<Status>, to: Status, seqNo: nat, amount: int64, fee: int64,
                         provider: string, refundId: string)

  datatype RefundStatus = RefundPending | RefundSettled | RefundReturned

  datatype RefundRow = RefundRow(id: string, key: string, amount: Money, status: RefundStatus, provider: string,
                                 version: nat) {

    function Succeed(): Result<RefundRow, PaymentError> {
      if status != RefundPending then Err(AlreadySettled)
      else Ok(this.(status := RefundSettled, version := version + 1))
    }

    function Fail(): Result<RefundRow, PaymentError> {
      if status != RefundPending then Err(AlreadySettled)
      else Ok(this.(status := RefundReturned, version := version + 1))
    }
  }

  datatype Change = Changed(row: Row, event: Event) | Refused(error: PaymentError)

  datatype Row = Row(merchant: nat, paymentId: string, live: bool, amount: Money, captureMethod: CaptureMethod,
                     status: Status, authorized: Money, captured: Money, refunded: Money, pending: Money,
                     provider: string, reference: string, expiresAt: Option<int>, authExpiresAt: Option<int>,
                     version: nat, attempts: seq<AttemptRow>, key: string, requestHash: string) {

    /** Every event raises the version by one and carries the new version as its number. */
    function Emit(typ: EventType, from: Option<Status>, to: Status, x: int64, fee: int64, prov: string,
                  refundId: string): Change {
      Changed(this.(status := to, version := version + 1), Event(typ, from, to, version + 1, x, fee, prov, refundId))
    }

    function Transition(typ: EventType, to: Status, x: int64, fee: int64, prov: string, refundId: string): Change {
      if !CanTransition(status, to) then Refused(InvalidTransition)
      else Emit(typ, Some(status), to, x, fee, prov, refundId)
    }

    predicate HasOpenAttempt() {
      exists i :: 0 <= i < |attempts| && attempts[i].status.IsOpen()
    }

    function StartAttempt(prov: string): Result<Row, PaymentError> {
      if status != Created then Err(InvalidTransition)
      else if HasOpenAttempt() then Err(OperationInProgress)
      else Ok(this.(attempts := attempts + [NewAttempt(prov)], provider := prov))
    }

    function RequireAction(ref: string, expires: Option<int>, now: int): Change {
      match Transition(PaymentRequiresAction, RequiresAction, 0, 0, provider, "")
      case Refused(error) => Refused(error)
      case Changed(r, ev) =>
        Changed(r.(reference := ref,
                   expiresAt := Some(if expires.Some? then expires.value else now + ACTION_WINDOW)), ev)
    }

    function Authorize(prov: string, ref: string, authExpiry: Option<int>, fee: int64, now: int): Change {
      if status == RequiresAction && expiresAt.Some? && now > expiresAt.value then Refused(PaymentExpiredError)
      else match Transition(PaymentAuthorized, Authorized, amount.amount, fee, prov, "")
        case Refused(error) => Refused(error)
        case Changed(r, ev) =>
          Changed(r.(authorized := amount, provider := if prov != "" then prov else provider, reference := ref,
                     authExpiresAt := Some(if authExpiry.Some? then authExpiry.value else now + AUTH_VALIDITY),
                     expiresAt := None), ev)
    }

    function Capture(x: Money, fee: int64, now: int): Change {
      if status != Authorized then Refused(InvalidTransition)
      else if x.currency != amount.currency then Refused(CurrencyDiffers)
      else if !x.IsPositive() then Refused(AmountTooSmall)
      else if x.GreaterThan(authorized) then Refused(AmountExceedsAuthorized)
      else if authExpiresAt.Some? && now > authExpiresAt.value then Refused(PaymentExpiredError)
      else match Transition(PaymentCaptured, Captured, x.amount, fee, provider, "")
        case Refused(error) => Refused(error)
        case Changed(r, ev) => Changed(r.(captured := x), ev)
    }

    function RemainingAuthorized(): Money {
      match authorized.Sub(captured)
      case Ok(m) => m
      case Err(_) => Zero(amount.currency)
    }

    function Void(): Change {
      if status.Captured? || status.PartiallyRefunded? || status.Refunded? || status.Disputed? || status.ChargebackWon?
      then Refused(VoidNotAllowed)
      else match Transition(PaymentVoided, Voided, authorized.amount, 0, provider, "")
        case Refused(error) => Refused(error)
        case Changed(r, ev) => Changed(r.(expiresAt := None), ev)
    }

    function Fail(prov: string): Change {
      match Transition(PaymentFailed, Failed, amount.amount, 0, if prov != "" then prov else provider, "")
      case Refused(error) => Refused(error)
      case Changed(r, ev) => Changed(r.(expiresAt := None), ev)
    }

    function Expire(): Change {
      match Transition(PaymentExpired, Expired, amount.amount, 0, provider, "")
      case Refused(error) => Refused(error)
      case Changed(r, ev) => Changed(r.(expiresAt := None), ev)
    }

    function AvailableToRefund(): Money {
      match captured.Sub(refunded)
      case Err(_) => Zero(amount.currency)
      case Ok(m) =>
        match m.Sub(pending)
        case Err(_) => Zero(amount.currency)
        case Ok(n) => n
    }

    function CanRefund(): Outcome<PaymentError> {
      match status
      case Captured | PartiallyRefunded | ChargebackWon => Pass
      case Disputed => Outcome.Fail(PaymentDisputed)
      case _ => Outcome.Fail(NotRefundable)
    }

    /** Sets the amount aside without changing the status. */
    function ReserveRefund(r: RefundRow): Change {
      if CanRefund().Fail? then Refused(CanRefund().error)
      else if r.amount.currency != amount.currency then Refused(CurrencyDiffers)
      else if !r.amount.IsPositive() then Refused(AmountTooSmall)
      else if r.amount.GreaterThan(AvailableToRefund()) then Refused(RefundExceedsAvailable)
      else match pending.Add(r.amount)
        case Err(_) => Refused(RefundExceedsAvailable)
        case Ok(p) => this.(pending := p).Emit(RefundCreated, Some(status), status, r.amount.amount, 0, provider, r.id)
    }

    function MarkRefunded(r: RefundRow): Change {
      match pending.Sub(r.amount)
      case Err(_) => Refused(RefundExceedsAvailable)
      case Ok(p) =>
        match refunded.Add(r.amount)
        case Err(_) => Refused(RefundExceedsAvailable)
        case Ok(sum) =>
          if sum.GreaterThan(captured) then Refused(RefundExceedsAvailable)
          else
            match Transition(RefundSucceeded, if sum == captured then Refunded else PartiallyRefunded,
                             r.amount.amount, 0,
                             r.provider, r.id)
            case Refused(error) => Refused(error)
            case Changed(n, ev) => Changed(n.(pending := p, refunded := sum), ev)
    }

    function ReleaseRefund(r: RefundRow): Change {
      match pending.Sub(r.amount)
      case Err(_) => Refused(RefundExceedsAvailable)
      case Ok(p) => this.(pending := p).Emit(RefundFailed, Some(status), status, r.amount.amount, 0, r.provider, r.id)
    }
  }

  /** The capture method asked for: none, a known one, or some other text. */
  datatype MethodChoice = Unset | Chosen(known: CaptureMethod) | OtherMethod(text: string)

  datatype NewParams = NewParams(merchant: nat, paymentId: string, live: bool, amount: Money,
                                 captureMethod: MethodChoice,
                                 methodType: string, metadata: map<string, string>, key: string, requestHash: string)

  /** How many bytes a character takes in UTF-8. */
  function ByteWidth(c: char): nat {
    if c < '\U{80}' then 1 else if c < '\U{800}' then 2 else if c < '\U{10000}' then 3 else 4
  }

  function ByteLength(text: string): nat {
    if text == "" then 0 else ByteLength(text[..|text| - 1]) + ByteWidth(text[|text| - 1])
  }

  /** At most 50 entries, names up to 40 bytes and values up to 500. */
  predicate MetadataFits(m: map<string, string>) {
    |m| <= 50 && forall k | k in m :: ByteLength(k) <= 40 && ByteLength(m[k]) <= 500
  }

  function NewPayment(p: NewParams, now: int): Change {
    if p.amount.Validate().Fail? then Refused(InvalidAmount)
    else if !p.amount.IsPositive() then Refused(AmountTooSmall)
    else if p.captureMethod.OtherMethod? then Refused(InvalidTransition)
    else if p.methodType == "" then Refused(MethodMissing)
    else if !MetadataFits(p.metadata) then Refused(MetadataTooLarge)
    else
      var zero := Zero(p.amount.currency);
      Row(p.merchant, p.paymentId, p.live, p.amount,
          if p.captureMethod.Chosen? then p.captureMethod.known else Automatic,
          Created, zero, zero, zero, zero, "", "", Some(now + CREATED_TTL), None, 0, [], p.key, p.requestHash)
        .Emit(PaymentCreated, None, Created, p.amount.amount, 0, "", "")
  }

  function NewRefund(p: Row, id: string, key: string, x: Money): RefundRow {
    RefundRow(id, key, x, RefundPending, p.provider, 0)
  }

  // ---- what every row satisfies ----

  /** One currency, amounts nested one inside the other, and a status that says how far they got. */
  predicate RowInv(p: Row) {
    var c := p.amount.currency;
    && Supported(c) && p.authorized.currency == p.captured.currency == p.refunded.currency == p.pending.currency == c
    && 0 <= p.refunded.amount && 0 <= p.pending.amount && 0 <= p.captured.amount && 0 < p.amount.amount
    && p.refunded.amount + p.pending.amount <= p.captured.amount <= p.authorized.amount <= p.amount.amount
    && !(p.status.Disputed? || p.status.ChargebackWon? || p.status.ChargebackLost?)
    && (p.status.Refunded? <==> p.refunded.amount == p.captured.amount > 0)
    && (p.status.PartiallyRefunded? <==> 0 < p.refunded.amount < p.captured.amount)
    && (p.status.Captured? <==> p.captured.amount > 0 && p.refunded.amount == 0)
    && (p.status.Authorized? ==> p.authorized.amount == p.amount.amount)
    && (p.authorized.amount == 0 || p.authorized.amount == p.amount.amount)
    && (p.status.Created? || p.status.RequiresAction? || p.status.Failed? || p.status.Expired?
        ==> p.authorized.amount == 0)
    && p.version >= 1
  }

  lemma NewPaymentInv(p: NewParams, now: int)
    ensures NewPayment(p, now).Changed? <==>
              && Supported(p.amount.currency) && p.amount.amount > 0 && !p.captureMethod.OtherMethod?
              && p.methodType != "" && MetadataFits(p.metadata)
    ensures NewPayment(p, now).Changed? ==> RowInv(NewPayment(p, now).row) && NewPayment(p, now).row.version == 1
  {
  }

  /** How each event changed the row: version and number move together, the from-status is the old one. */
  predicate Follows(p: Row, c: Change) {
    c.Changed? ==>
      && c.event.seqNo == c.row.version == p.version + 1
      && c.event.from == Some(p.status) && c.event.to == c.row.status
      && (c.event.to == p.status || CanTransition(p.status, c.event.to))
      && c.row.merchant == p.merchant && c.row.paymentId == p.paymentId && c.row.live == p.live
      && c.row.amount == p.amount && c.row.captureMethod == p.captureMethod
      && c.row.key == p.key && c.row.requestHash == p.requestHash
  }

  lemma AuthorizeKeeps(p: Row, prov: string, ref: string, expiry: Option<int>, fee: int64, now: int)
    requires RowInv(p)
    ensures var c := p.Authorize(prov, ref, expiry, fee, now);
            && Follows(p, c)
            && (c.Changed? ==> RowInv(c.row) && c.row.authorized == p.amount && c.row.captured.amount == 0)
  {
  }

  lemma RequireActionKeeps(p: Row, ref: string, expires: Option<int>, now: int)
    requires RowInv(p)
    ensures var c := p.RequireAction(ref, expires, now); Follows(p, c) && (c.Changed? ==> RowInv(c.row))
  {
  }

  /** A capture succeeds exactly within the authorization: its currency, its amount, its time. */
  lemma CaptureKeeps(p: Row, x: Money, fee: int64, now: int)
    requires RowInv(p)
    ensures var c := p.Capture(x, fee, now);
            && Follows(p, c)
            && (c.Changed? <==> p.status == Authorized && x.currency == p.amount.currency
                                && 0 < x.amount <= p.amount.amount
                                && (p.authExpiresAt.Some? ==> now <= p.authExpiresAt.value))
            && (c.Changed? ==> RowInv(c.row) && c.row.captured == x && c.event.amount == x.amount && c.event.fee == fee)
  {
  }

  /** Voiding works exactly before money moved: from an authorization or a pending customer action. */
  lemma VoidKeeps(p: Row)
    requires RowInv(p)
    ensures Follows(p, p.Void()) && (p.Void().Changed? ==> RowInv(p.Void().row))
    ensures p.Void().Changed? <==> p.status == RequiresAction || p.status == Authorized
    ensures p.captured.amount > 0 ==> p.Void() == Refused(VoidNotAllowed)
  {
  }

  lemma FailExpireKeep(p: Row, prov: string)
    requires RowInv(p)
    ensures Follows(p, p.Fail(prov)) && (p.Fail(prov).Changed? ==> RowInv(p.Fail(prov).row))
    ensures Follows(p, p.Expire()) && (p.Expire().Changed? ==> RowInv(p.Expire().row))
    ensures p.Fail(prov).Changed? <==> p.status == Created || p.status == RequiresAction
    ensures p.Expire().Changed? <==> p.status == Created || p.status == RequiresAction
  {
  }

  lemma AvailableIs(p: Row)
    requires RowInv(p)
    ensures p.AvailableToRefund() == Money(p.captured.amount - p.refunded.amount - p.pending.amount, p.amount.currency)
  {
  }

  /** A refund is reserved exactly when the payment is captured and the amount is available. */
  lemma ReserveKeeps(p: Row, r: RefundRow)
    requires RowInv(p)
    ensures var c := p.ReserveRefund(r);
            && Follows(p, c)
            && (c.Changed? <==> (p.status == Captured || p.status == PartiallyRefunded)
                                && r.amount.currency == p.amount.currency
                                && 0 < r.amount.amount <= p.captured.amount - p.refunded.amount - p.pending.amount)
            && (c.Changed? ==> RowInv(c.row) && c.row.status == p.status
                               && c.row.pending.amount == p.pending.amount + r.amount.amount
                               && c.row.refunded == p.refunded)
  {
    AvailableIs(p);
  }

  /** A refund that was reserved can always be settled, either way: no amount check, overflow check or
      status check can refuse it. */
  lemma SettlingNeverFails(p: Row, r: RefundRow)
    requires RowInv(p) && r.amount.currency == p.amount.currency && 0 < r.amount.amount <= p.pending.amount
    ensures var c := p.MarkRefunded(r);
            && Follows(p, c) && c.Changed? && RowInv(c.row)
            && c.row.pending.amount == p.pending.amount - r.amount.amount
            && c.row.refunded.amount == p.refunded.amount + r.amount.amount
    ensures var c := p.ReleaseRefund(r);
            && Follows(p, c) && c.Changed? && RowInv(c.row) && c.row.status == p.status
            && c.row.pending.amount == p.pending.amount - r.amount.amount && c.row.refunded == p.refunded
  {
  }

  // ---- what each change is, field by field ----

  /** An authorization is refused after the deadline of a pending action and from any status but created or a
      pending action; otherwise it covers the whole amount, is good for seven days unless told otherwise, and ends
      the wait. */
  lemma AuthorizeExactly(p: Row, prov: string, ref: string, expiry: Option<int>, fee: int64, now: int)
    ensures p.Authorize(prov, ref, expiry, fee, now)
            == if p.status == RequiresAction && p.expiresAt.Some? && p.expiresAt.value < now
               then Refused(PaymentExpiredError)
               else if p.status != Created && p.status != RequiresAction then Refused(InvalidTransition)
               else Changed(p.(status := Authorized, version := p.version + 1, authorized := p.amount,
                               provider := if prov == "" then p.provider else prov, reference := ref, expiresAt := None,
                               authExpiresAt := if expiry.Some? then expiry else Some(now + 604_800_000_000_000)),
                            Event(PaymentAuthorized, Some(p.status), Authorized, p.version + 1, p.amount.amount, fee,
                                  prov, ""))
  {
  }

  /** An attempt is started only while created and while no other is pending, waiting or unknown. */
  lemma StartExactly(p: Row, prov: string)
    ensures p.StartAttempt(prov)
            == if p.status != Created then Err(InvalidTransition)
               else if exists a :: a in p.attempts && a.status in {AttemptPending, NeedsAction, Unknown}
               then Err(OperationInProgress)
               else Ok(p.(provider := prov,
                          attempts := p.attempts + [AttemptRow(prov, AttemptPending, NoCategory, "", "")]))
  {
    if exists a :: a in p.attempts && a.status in {AttemptPending, NeedsAction, Unknown} {
      var a :| a in p.attempts && a.status in {AttemptPending, NeedsAction, Unknown};
      var i :| 0 <= i < |p.attempts| && p.attempts[i] == a;
      assert p.HasOpenAttempt();
    } else {
      forall i | 0 <= i < |p.attempts| ensures !p.attempts[i].status.IsOpen() { assert p.attempts[i] in p.attempts; }
    }
  }

  /** The status a payment may go to, status by status. */
  lemma TransitionsExactly(to: Status)
    ensures CanTransition(Created, to) <==> to in {RequiresAction, Authorized, Captured, Failed, Expired}
    ensures CanTransition(RequiresAction, to) <==> to in {Authorized, Captured, Failed, Expired, Voided}
    ensures CanTransition(Authorized, to) <==> to in {Captured, Voided}
    ensures CanTransition(Captured, to) <==> to in {PartiallyRefunded, Refunded, Disputed}
    ensures CanTransition(PartiallyRefunded, to) <==> to in {PartiallyRefunded, Refunded, Disputed}
    ensures CanTransition(Refunded, to) <==> to == Disputed
    ensures CanTransition(Disputed, to) <==> to in {ChargebackWon, ChargebackLost}
    ensures CanTransition(ChargebackWon, to) <==> to in {Disputed, PartiallyRefunded, Refunded}
    ensures forall end | end in {Voided, Failed, Expired, ChargebackLost} :: IsTerminal(end) && !CanTransition(end, to)
    ensures IsTerminal(to) ==> to in {Voided, Failed, Expired, ChargebackLost}
  {
  }

  /** An action is asked for only while created, and for half an hour unless told otherwise. */
  lemma RequireActionExactly(p: Row, ref: string, expires: Option<int>, now: int)
    ensures p.RequireAction(ref, expires, now)
            == if p.status != Created then Refused(InvalidTransition)
               else Changed(p.(status := RequiresAction, version := p.version + 1, reference := ref,
                               expiresAt := if expires.Some? then expires else Some(now + 1_800_000_000_000)),
                            Event(PaymentRequiresAction, Some(Created), RequiresAction, p.version + 1, 0, 0,
                                  p.provider, ""))
  {
  }

  lemma CaptureExactly(p: Row, x: Money, fee: int64, now: int)
    requires RowInv(p)
    ensures p.Capture(x, fee, now)
            == if p.status != Authorized then Refused(InvalidTransition)
               else if x.currency != p.amount.currency then Refused(CurrencyDiffers)
               else if x.amount <= 0 then Refused(AmountTooSmall)
               else if x.amount > p.authorized.amount then Refused(AmountExceedsAuthorized)
               else if p.authExpiresAt.Some? && p.authExpiresAt.value < now then Refused(PaymentExpiredError)
               else Changed(p.(status := Captured, version := p.version + 1, captured := x),
                            Event(PaymentCaptured, Some(Authorized), Captured, p.version + 1, x.amount, fee,
                                  p.provider, ""))
  {
  }

  lemma VoidExactly(p: Row)
    ensures p.Void()
            == if p.status in {Captured, PartiallyRefunded, Refunded, Disputed, ChargebackWon}
               then Refused(VoidNotAllowed)
               else if p.status != Authorized && p.status != RequiresAction then Refused(InvalidTransition)
               else Changed(p.(status := Voided, version := p.version + 1, expiresAt := None),
                            Event(PaymentVoided, Some(p.status), Voided, p.version + 1, p.authorized.amount, 0,
                                  p.provider, ""))
  {
  }

  lemma FailExactly(p: Row, prov: string)
    ensures p.Fail(prov)
            == if p.status != Created && p.status != RequiresAction then Refused(InvalidTransition)
               else Changed(p.(status := Failed, version := p.version + 1, expiresAt := None),
                            Event(PaymentFailed, Some(p.status), Failed, p.version + 1, p.amount.amount, 0,
                                  if prov == "" then p.provider else prov, ""))
  {
  }

  lemma ExpireExactly(p: Row)
    ensures p.Expire()
            == if p.status != Created && p.status != RequiresAction then Refused(InvalidTransition)
               else Changed(p.(status := Expired, version := p.version + 1, expiresAt := None),
                            Event(PaymentExpired, Some(p.status), Expired, p.version + 1, p.amount.amount, 0,
                                  p.provider, ""))
  {
  }

  /** Setting a refund aside leaves the status alone. */
  lemma ReserveExactly(p: Row, r: RefundRow)
    requires RowInv(p)
    ensures p.ReserveRefund(r)
            == if p.status != Captured && p.status != PartiallyRefunded then Refused(NotRefundable)
               else if r.amount.currency != p.amount.currency then Refused(CurrencyDiffers)
               else if r.amount.amount <= 0 then Refused(AmountTooSmall)
               else if r.amount.amount > p.captured.amount - p.refunded.amount - p.pending.amount
               then Refused(RefundExceedsAvailable)
               else Changed(p.(version := p.version + 1,
                               pending := Money(p.pending.amount + r.amount.amount, p.amount.currency)),
                            Event(RefundCreated, Some(p.status), p.status, p.version + 1, r.amount.amount, 0,
                                  p.provider, r.id))
  {
    AvailableIs(p);
  }

  /** Settling moves the amount out of what is pending: to what is refunded, completely so when all that was captured
      is, or back. */
  lemma SettleExactly(p: Row, r: RefundRow)
    requires RowInv(p) && r.amount.currency == p.amount.currency && 0 < r.amount.amount <= p.pending.amount
    ensures var left := Money(p.pending.amount - r.amount.amount, p.amount.currency);
            var back := Money(p.refunded.amount + r.amount.amount, p.amount.currency);
            var to := if back == p.captured then Refunded else PartiallyRefunded;
            && p.MarkRefunded(r)
               == Changed(p.(status := to, version := p.version + 1, pending := left, refunded := back),
                          Event(RefundSucceeded, Some(p.status), to, p.version + 1, r.amount.amount, 0, r.provider,
                                r.id))
            && p.ReleaseRefund(r)
               == Changed(p.(version := p.version + 1, pending := left),
                          Event(RefundFailed, Some(p.status), p.status, p.version + 1, r.amount.amount, 0, r.provider,
                                r.id))
  {
    SettlingNeverFails(p, r);
  }

  /** A new payment waits an hour for its authorization; it captures by itself unless told otherwise. */
  lemma NewPaymentExactly(p: NewParams, now: int)
    requires NewPayment(p, now).Changed?
    ensures var none := Money(0, p.amount.currency);
            NewPayment(p, now)
            == Changed(Row(p.merchant, p.paymentId, p.live, p.amount,
                           if p.captureMethod == Chosen(ManualCapture) then ManualCapture else Automatic, Created, none,
                           none, none, none, "", "", Some(now + 3_600_000_000_000), None, 1, [], p.key, p.requestHash),
                       Event(PaymentCreated, None, Created, 1, p.amount.amount, 0, "", ""))
  {
    if p.captureMethod.Chosen? {
      match p.captureMethod.known {
        case Automatic =>
        case ManualCapture =>
      }
    }
  }

  // ---- the aggregate that updates itself ----

  /** What a method that may refuse promises: the new row and its event, or the old row and the error. */
  predicate Did(change: Change, before: Row, after: Row, r: Result<Event, PaymentError>) {
    match change
    case Changed(row, event) => r == Ok(event) && after == row
    case Refused(error) => r == Err(error) && after == before
  }

  class Payment {
    const merchant: nat
    const paymentId: string
    const live: bool
    const amount: Money
    const captureMethod: CaptureMethod
    const key: string
    const requestHash: string
    var status: Status
    var authorized: Money
    var captured: Money
    var refunded: Money
    var pending: Money
    var provider: string
    var reference: string
    var expiresAt: Option<int>
    var authExpiresAt: Option<int>
    var version: nat
    var attempts: seq<AttemptRow>

    function State(): Row
      reads this
    {
      Row(merchant, paymentId, live, amount, captureMethod, status, authorized, captured, refunded, pending, provider,
          reference, expiresAt, authExpiresAt, version, attempts, key, requestHash)
    }

    /** A payment read back from its row. */
    constructor (row: Row)
      ensures State() == row
    {
      merchant, paymentId, live, amount, captureMethod := row.merchant, row.paymentId, row.live, row.amount,
          row.captureMethod;
      key, requestHash := row.key, row.requestHash;
      status, version, attempts := row.status, row.version, row.attempts;
      authorized, captured, refunded, pending := row.authorized, row.captured, row.refunded, row.pending;
      provider, reference, expiresAt, authExpiresAt := row.provider, row.reference, row.expiresAt, row.authExpiresAt;
    }

    method Emit(typ: EventType, from: Option<Status>, to: Status, x: int64, fee: int64, prov: string, refundId: string)
      returns (ev: Event)
      modifies this`status, this`version
      ensures old(State()).Emit(typ, from, to, x, fee, prov, refundId) == Changed(State(), ev)
    {
      status := to;
      version := version + 1;
      ev := Event(typ, from, to, version, x, fee, prov, refundId);
    }

    method Transition(typ: EventType, to: Status, x: int64, fee: int64, prov: string, refundId: string)
      returns (r: Result<Event, PaymentError>)
      modifies this`status, this`version
      ensures Did(old(State()).Transition(typ, to, x, fee, prov, refundId), old(State()), State(), r)
    {
      if !CanTransition(status, to) { return Err(InvalidTransition); }
      var ev := Emit(typ, Some(status), to, x, fee, prov, refundId);
      return Ok(ev);
    }

    /** The first attempt still waiting for an outcome. */
    method OpenAttempt() returns (found: Option<nat>)
      ensures found.Some? <==> State().HasOpenAttempt()
      ensures found.Some? ==> found.value < |attempts| && attempts[found.value].status.IsOpen()
                              && forall i | 0 <= i < found.value :: !attempts[i].status.IsOpen()
    {
      for i := 0 to |attempts|
        invariant forall k | 0 <= k < i :: !attempts[k].status.IsOpen()
      {
        if attempts[i].status.IsOpen() { return Some(i); }
      }
      return None;
    }

    method StartAttempt(prov: string) returns (r: Outcome<PaymentError>)
      modifies this`attempts, this`provider
      ensures match old(State()).StartAttempt(prov)
              case Ok(row) => r == Pass && State() == row
              case Err(error) => r == Outcome.Fail(error) && State() == old(State())
    {
      if status != Created { return Outcome.Fail(InvalidTransition); }
      var open := OpenAttempt();
      if open.Some? { return Outcome.Fail(OperationInProgress); }
      attempts := attempts + [NewAttempt(prov)];
      provider := prov;
      return Pass;
    }

    method RequireAction(ref: string, expires: Option<int>, now: int) returns (r: Result<Event, PaymentError>)
      modifies this
      ensures Did(old(State()).RequireAction(ref, expires, now), old(State()), State(), r)
    {
      r := Transition(PaymentRequiresAction, RequiresAction, 0, 0, provider, "");
      if r.Err? { return; }
      reference := ref;
      expiresAt := Some(if expires.Some? then expires.value else now + ACTION_WINDOW);
    }

    method Authorize(prov: string, ref: string, authExpiry: Option<int>, fee: int64, now: int)
      returns (r: Result<Event, PaymentError>)
      modifies this
      ensures Did(old(State()).Authorize(prov, ref, authExpiry, fee, now), old(State()), State(), r)
    {
      if status == RequiresAction && expiresAt.Some? && now > expiresAt.value { return Err(PaymentExpiredError); }
      var expiry := if authExpiry.Some? then authExpiry.value else now + AUTH_VALIDITY;
      r := Transition(PaymentAuthorized, Authorized, amount.amount, fee, prov, "");
      if r.Err? { return; }
      authorized := amount;
      if prov != "" { provider := prov; }
      reference, authExpiresAt, expiresAt := ref, Some(expiry), None;
    }

    method Capture(x: Money, fee: int64, now: int) returns (r: Result<Event, PaymentError>)
      modifies this
      ensures Did(old(State()).Capture(x, fee, now), old(State()), State(), r)
    {
      if status != Authorized { return Err(InvalidTransition); }
      if x.currency != amount.currency { return Err(CurrencyDiffers); }
      if !x.IsPositive() { return Err(AmountTooSmall); }
      if x.GreaterThan(authorized) { return Err(AmountExceedsAuthorized); }
      if authExpiresAt.Some? && now > authExpiresAt.value { return Err(PaymentExpiredError); }
      r := Transition(PaymentCaptured, Captured, x.amount, fee, provider, "");
      if r.Err? { return; }
      captured := x;
    }

    method Void() returns (r: Result<Event, PaymentError>)
      modifies this
      ensures Did(old(State()).Void(), old(State()), State(), r)
    {
      match status {
        case Captured | PartiallyRefunded | Refunded | Disputed | ChargebackWon => return Err(VoidNotAllowed);
        case _ =>
      }
      r := Transition(PaymentVoided, Voided, authorized.amount, 0, provider, "");
      if r.Err? { return; }
      expiresAt := None;
    }

    method Fail(prov: string) returns (r: Result<Event, PaymentError>)
      modifies this
      ensures Did(old(State()).Fail(prov), old(State()), State(), r)
    {
      r := Transition(PaymentFailed, Failed, amount.amount, 0, if prov != "" then prov else provider, "");
      if r.Err? { return; }
      expiresAt := None;
    }

    method Expire() returns (r: Result<Event, PaymentError>)
      modifies this
      ensures Did(old(State()).Expire(), old(State()), State(), r)
    {
      r := Transition(PaymentExpired, Expired, amount.amount, 0, provider, "");
      if r.Err? { return; }
      expiresAt := None;
    }

    method ReserveRefund(rf: RefundRow) returns (r: Result<Event, PaymentError>)
      modifies this
      ensures Did(old(State()).ReserveRefund(rf), old(State()), State(), r)
    {
      var can := State().CanRefund();
      if can.Fail? { return Err(can.error); }
      if rf.amount.currency != amount.currency { return Err(CurrencyDiffers); }
      if !rf.amount.IsPositive() { return Err(AmountTooSmall); }
      if rf.amount.GreaterThan(State().AvailableToRefund()) { return Err(RefundExceedsAvailable); }
      var sum := pending.Add(rf.amount);
      if sum.Err? { return Err(RefundExceedsAvailable); }
      pending := sum.value;
      var ev := Emit(RefundCreated, Some(status), status, rf.amount.amount, 0, provider, rf.id);
      return Ok(ev);
    }

    method MarkRefunded(rf: RefundRow) returns (r: Result<Event, PaymentError>)
      modifies this
      ensures Did(old(State()).MarkRefunded(rf), old(State()), State(), r)
    {
      var left := pending.Sub(rf.amount);
      if left.Err? { return Err(RefundExceedsAvailable); }
      var sum := refunded.Add(rf.amount);
      if sum.Err? { return Err(RefundExceedsAvailable); }
      if sum.value.GreaterThan(captured) { return Err(RefundExceedsAvailable); }
      var to := PartiallyRefunded;
      if sum.value == captured { to := Refunded; }
      r := Transition(RefundSucceeded, to, rf.amount.amount, 0, rf.provider, rf.id);
      if r.Err? { return; }
      pending, refunded := left.value, sum.value;
    }

    method ReleaseRefund(rf: RefundRow) returns (r: Result<Event, PaymentError>)
      modifies this
      ensures Did(old(State()).ReleaseRefund(rf), old(State()), State(), r)
    {
      var left := pending.Sub(rf.amount);
      if left.Err? { return Err(RefundExceedsAvailable); }
      pending := left.value;
      var ev := Emit(RefundFailed, Some(status), status, rf.amount.amount, 0, rf.provider, rf.id);
      return Ok(ev);
    }
  }

  class Refund {
    const id: string
    const key: string
    const amount: Money
    const provider: string
    var status: RefundStatus
    var version: nat

    function State(): RefundRow
      reads this
    {
      RefundRow(id, key, amount, status, provider, version)
    }

    constructor (row: RefundRow)
      ensures State() == row
    {
      id, key, amount, provider, status, version := row.id, row.key, row.amount, row.provider, row.status, row.version;
    }

    method Succeed() returns (r: Outcome<PaymentError>)
      modifies this
      ensures match old(State()).Succeed()
              case Ok(row) => r == Pass && State() == row
              case Err(error) => r == Outcome.Fail(error) && State() == old(State())
    {
      if status != RefundPending { return Outcome.Fail(AlreadySettled); }
      status, version := RefundSettled, version + 1;
      return Pass;
    }

    method Fail() returns (r: Outcome<PaymentError>)
      modifies this
      ensures match old(State()).Fail()
              case Ok(row) => r == Pass && State() == row
              case Err(error) => r == Outcome.Fail(error) && State() == old(State())
    {
      if status != RefundPending { return Outcome.Fail(AlreadySettled); }
      status, version := RefundReturned, version + 1;
      return Pass;
    }
  }
}

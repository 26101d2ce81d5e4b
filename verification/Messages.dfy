/** Payment events on the wire: what the payment side sends, and what the ledger makes of it. */
module Messages {
  import opened Wrappers
  import opened Amounts
  import opened Accounts
  import opened Templates
  import opened Payments

  datatype Payload =
    | CreatedPayload
    | PlainPayload(provider: string)
    | CapturedPayload(provider: string, amount: Money, fee: Option<Money>)
    | RefundCreatedPayload(provider: string, refundId: string, amount: Money)
    | RefundSucceededPayload(provider: string, refundId: string, amount: Money, fee: Option<Money>)
    | RefundFailedPayload(provider: string, refundId: string, amount: Money)
    | DisputePayload(provider: string, disputeId: string, amount: Money, fee: Option<Money>)
    | EvidencePayload(provider: string, disputeId: string)

  /** A message body; the event id travels beside it. */
  datatype Message = Message(typ: EventType, merchant: nat, paymentId: string, live: bool, payload: Payload)

  const NO_MONEY: Money := Money(0, Other(""))

  /** What the payment side puts on the wire for an event of payment p as it is when saved. */
  function BuildMessage(p: Row, ev: Event): Message {
    var x := Money(ev.amount, p.amount.currency);
    Message(ev.typ, p.merchant, p.paymentId, p.live,
            match ev.typ
            case PaymentCaptured => CapturedPayload(p.provider, x, Some(Money(ev.fee, p.amount.currency)))
            case RefundCreated => RefundCreatedPayload(ev.provider, ev.refundId, x)
            case RefundSucceeded => RefundSucceededPayload(ev.provider, ev.refundId, x, None)
            case RefundFailed => RefundFailedPayload(ev.provider, ev.refundId, x)
            case PaymentCreated => CreatedPayload
            case _ => PlainPayload(p.provider))
  }

  function BuildMessages(p: Row, events: seq<Event>): (ms: seq<Message>)
    ensures |ms| == |events|
  {
    if events == [] then [] else BuildMessages(p, events[..|events| - 1]) + [BuildMessage(p, events[|events| - 1])]
  }

  // ---- the ledger's side ----

  function AmountOf(p: Payload): Money {
    if p.CreatedPayload? || p.PlainPayload? || p.EvidencePayload? then NO_MONEY else p.amount
  }

  /** A fee that is absent or zero stays the zero value. */
  function FeeOf(p: Payload): Money {
    if (p.CapturedPayload? || p.RefundSucceededPayload? || p.DisputePayload?) && p.fee.Some? && p.fee.value.amount != 0
    then p.fee.value else NO_MONEY
  }

  function ProviderOf(p: Payload): string {
    if p.CreatedPayload? then "" else p.provider
  }

  function RefundIdOf(p: Payload): string {
    if p.RefundCreatedPayload? || p.RefundSucceededPayload? || p.RefundFailedPayload? then p.refundId else ""
  }

  function DisputeIdOf(p: Payload): string {
    if p.DisputePayload? || p.EvidencePayload? then p.disputeId else ""
  }

  /** The event a message describes, before its amounts are checked. */
  function Described(m: Message, eventId: nat): PaymentEvent {
    PaymentEvent(eventId, m.typ, m.merchant, m.paymentId, m.live, ProviderOf(m.payload), AmountOf(m.payload),
                 FeeOf(m.payload), RefundIdOf(m.payload), DisputeIdOf(m.payload))
  }

  /** Amounts must be supported and not negative; a message with none needs no check. */
  function FromMessage(m: Message, eventId: nat): Result<PaymentEvent, LedgerError> {
    if m.payload.CreatedPayload? || m.payload.PlainPayload? || m.payload.EvidencePayload? then Ok(Described(m, eventId))
    else if AmountOf(m.payload).Validate().Fail? then Err(EventInvalid)
    else if FeeOf(m.payload) != NO_MONEY && FeeOf(m.payload).Validate().Fail? then Err(EventInvalid)
    else Ok(Described(m, eventId))
  }

  /** How the ledger reads a message, by its body: amounts must be supported and not negative, a zero fee counts as
      none. */
  lemma ReadExactly(m: Message, id: nat)
    ensures var none := Money(0, Other(""));
            var fits := (x: Money) => Supported(x.currency) && x.amount >= 0;
            var read := (prov: string, x: Money, fee: Option<Money>, refundId: string, disputeId: string) =>
                          var f := if fee.Some? && fee.value.amount != 0 then fee.value else none;
                          if fits(x) && (f == none || fits(f))
                          then Ok(PaymentEvent(id, m.typ, m.merchant, m.paymentId, m.live, prov, x, f, refundId,
                                               disputeId))
                          else Err(EventInvalid);
            FromMessage(m, id)
            == match m.payload
               case CreatedPayload =>
                 Ok(PaymentEvent(id, m.typ, m.merchant, m.paymentId, m.live, "", none, none, "", ""))
               case PlainPayload(prov) =>
                 Ok(PaymentEvent(id, m.typ, m.merchant, m.paymentId, m.live, prov, none, none, "", ""))
               case EvidencePayload(prov, disputeId) =>
                 Ok(PaymentEvent(id, m.typ, m.merchant, m.paymentId, m.live, prov, none, none, "", disputeId))
               case CapturedPayload(prov, x, fee) => read(prov, x, fee, "", "")
               case RefundCreatedPayload(prov, refundId, x) => read(prov, x, None, refundId, "")
               case RefundSucceededPayload(prov, refundId, x, fee) => read(prov, x, fee, refundId, "")
               case RefundFailedPayload(prov, refundId, x) => read(prov, x, None, refundId, "")
               case DisputePayload(prov, disputeId, x, fee) => read(prov, x, fee, "", disputeId)
  {
  }

  /** What a message is worth to an account once it is posted. */
  function Worth(m: Message, pol: Policy, k: AccountKey): int {
    EventEffect(Described(m, 1), pol, k)
  }

  lemma WorthIsEffect(m: Message, eventId: nat, pol: Policy, k: AccountKey)
    ensures EventEffect(Described(m, eventId), pol, k) == Worth(m, pol, k)
  {
  }

  /** Every captured amount or refund that was recorded is one the ledger can read; only a negative
      fee from the provider cannot be. */
  lemma SentMessagesAreReadable(p: Row, ev: Event, eventId: nat)
    requires Supported(p.amount.currency) && ev.amount >= 0
    ensures FromMessage(BuildMessage(p, ev), eventId).Ok? <==> ev.typ != PaymentCaptured || ev.fee >= 0
  {
  }

  /** A capture reaches the ledger as posted exactly when the fee does not exceed the amount and the
      rest of the message is in order. */
  lemma CapturePostsExactly(p: Row, ev: Event, eventId: nat, pol: Policy)
    requires Supported(p.amount.currency) && ev.typ == PaymentCaptured && ev.amount > 0
    ensures var r := FromMessage(BuildMessage(p, ev), eventId);
            (r.Ok? && Posts(r.value, pol))
            <==> eventId != NIL && p.merchant != NIL && p.paymentId != "" && ValidQualifier(p.provider)
                 && 0 <= ev.fee <= ev.amount
  {
    hide ValidQualifier;
  }
}

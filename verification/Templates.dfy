/** The journal templates: which events move money, which journal each one becomes, and what that
    journal does to each account. */
module Templates {
  import opened Wrappers
  import opened Amounts
  import opened Accounts
  import opened Journals
  import opened Balances
  import Fee

  datatype EventType =
    | PaymentCreated | PaymentRequiresAction | PaymentAuthorized | PaymentCaptured | PaymentVoided | PaymentFailed
    | PaymentExpired | RefundCreated | RefundSucceeded | RefundFailed | DisputeOpened | DisputeEvidenceSubmitted
    | DisputeWon | DisputeLost | UnknownEvent(text: string)

  /** A payment event as the ledger reads it; provider, refund and dispute may be empty. */
  datatype PaymentEvent = PaymentEvent(eventId: nat, typ: EventType, merchant: nat, paymentId: string, live: bool,
                                       provider: string, amount: Money, fee: Money, refundId: string,
                                       disputeId: string) {

    predicate HasFee() {
      fee.amount > 0
    }

    function Account(code: Code): AccountKey {
      AccountKey(if MerchantLevel(code) then merchant else NIL, code, amount.currency, live)
    }
  }

  datatype Policy = Policy(refundChargebackFeeOnWin: bool)

  // ---- building the journals ----

  function Checked(j: Journal): Result<Journal, LedgerError> {
    match Verdict(j)
    case Pass => Ok(j)
    case Fail(error) => Err(error)
  }

  /** The faults every money-moving event is refused for. */
  function BaseFault(ev: PaymentEvent): Option<LedgerError> {
    if ev.eventId == NIL || ev.merchant == NIL || ev.paymentId == "" then Some(EventInvalid)
    else if ev.amount.Validate().Fail? || !ev.amount.IsPositive() || ev.fee.amount < 0 then Some(EventInvalid)
    else if ev.fee.amount > 0 && ev.fee.currency != ev.amount.currency then Some(EventInvalid)
    else None
  }

  function Base(ev: PaymentEvent, template: Template, ref: RefType, refId: string, es: seq<Entry>): Journal {
    Journal(NIL, ev.eventId, ev.merchant, ev.live, PaymentEventSource, ref, Named(refId), template, None, None, es)
  }

  /** An amount moved from one account to another: debit the first, credit the second. */
  function Move(a: AccountKey, b: AccountKey, x: Money): seq<Entry> {
    [Entry(a, Debit, x), Entry(b, Credit, x)]
  }

  function CaptureEntries(ev: PaymentEvent, net: Money, fee: Money): seq<Entry> {
    [Entry(ev.Account(PspReceivable(ev.provider)), Debit, ev.amount)]
    + (if net.IsPositive() then [Entry(ev.Account(MerchantPayable), Credit, net)] else [])
    + (if fee.IsPositive() then [Entry(ev.Account(FeeRevenue), Credit, fee)] else [])
  }

  function CaptureTemplate(ev: PaymentEvent): Result<Journal, LedgerError> {
    if !ValidQualifier(ev.provider) then Err(EventInvalid)
    else if BaseFault(ev).Some? then Err(BaseFault(ev).value)
    else
      var fee := if ev.HasFee() then ev.fee else Zero(ev.amount.currency);
      if fee.amount > ev.amount.amount then Err(FeeExceedsAmount)
      else match ev.amount.Sub(fee)
        case Err(_) => Err(EventInvalid)
        case Ok(net) => Checked(Base(ev, JCap, RefPayment, ev.paymentId, CaptureEntries(ev, net, fee)))
  }

  function RefundPendingTemplate(ev: PaymentEvent): Result<Journal, LedgerError> {
    if ev.refundId == "" then Err(EventInvalid)
    else if BaseFault(ev).Some? then Err(BaseFault(ev).value)
    else Checked(Base(ev, JRefPend, RefRefund, ev.refundId,
                      Move(ev.Account(MerchantPayable), ev.Account(RefundClearing), ev.amount)))
  }

  function RefundSucceededTemplate(ev: PaymentEvent): Result<Journal, LedgerError> {
    if ev.refundId == "" then Err(EventInvalid)
    else if !ValidQualifier(ev.provider) then Err(EventInvalid)
    else if BaseFault(ev).Some? then Err(BaseFault(ev).value)
    else Checked(Base(ev, JRefOk, RefRefund, ev.refundId,
                      Move(ev.Account(RefundClearing), ev.Account(PspReceivable(ev.provider)), ev.amount)
                      + if ev.HasFee() then Move(ev.Account(MerchantPayable), ev.Account(FeeRevenue), ev.fee) else []))
  }

  function RefundFailedTemplate(ev: PaymentEvent): Result<Journal, LedgerError> {
    if ev.refundId == "" then Err(EventInvalid)
    else if BaseFault(ev).Some? then Err(BaseFault(ev).value)
    else Checked(Base(ev, JRefFail, RefRefund, ev.refundId,
                      Move(ev.Account(RefundClearing), ev.Account(MerchantPayable), ev.amount)))
  }

  function DisputeOpenedTemplate(ev: PaymentEvent): Result<Journal, LedgerError> {
    if ev.disputeId == "" then Err(EventInvalid)
    else if BaseFault(ev).Some? then Err(BaseFault(ev).value)
    else Checked(Base(ev, JCbOpen, RefDispute, ev.disputeId,
                      Move(ev.Account(MerchantPayable), ev.Account(ChargebackReserve), ev.amount)
                      + if ev.HasFee() then Move(ev.Account(MerchantPayable), ev.Account(ChargebackFeeRevenue), ev.fee)
                        else []))
  }

  function DisputeLostTemplate(ev: PaymentEvent): Result<Journal, LedgerError> {
    if ev.disputeId == "" then Err(EventInvalid)
    else if !ValidQualifier(ev.provider) then Err(EventInvalid)
    else if BaseFault(ev).Some? then Err(BaseFault(ev).value)
    else Checked(Base(ev, JCbLost, RefDispute, ev.disputeId,
                      Move(ev.Account(ChargebackReserve), ev.Account(PspReceivable(ev.provider)), ev.amount)))
  }

  function DisputeWonTemplate(ev: PaymentEvent, pol: Policy): Result<Journal, LedgerError> {
    if ev.disputeId == "" then Err(EventInvalid)
    else if BaseFault(ev).Some? then Err(BaseFault(ev).value)
    else Checked(Base(ev, JCbWon, RefDispute, ev.disputeId,
                      Move(ev.Account(ChargebackReserve), ev.Account(MerchantPayable), ev.amount)
                      + if pol.refundChargebackFeeOnWin && ev.HasFee()
                        then Move(ev.Account(ChargebackFeeRevenue), ev.Account(MerchantPayable), ev.fee) else []))
  }

  function TemplateFor(ev: PaymentEvent, pol: Policy): Result<Journal, LedgerError> {
    match ev.typ
    case PaymentCaptured => CaptureTemplate(ev)
    case RefundCreated => RefundPendingTemplate(ev)
    case RefundSucceeded => RefundSucceededTemplate(ev)
    case RefundFailed => RefundFailedTemplate(ev)
    case DisputeOpened => DisputeOpenedTemplate(ev)
    case DisputeLost => DisputeLostTemplate(ev)
    case DisputeWon => DisputeWonTemplate(ev, pol)
    case _ => Err(NoTemplate)
  }

  // ---- which events post ----

  predicate MovesMoney(t: EventType) {
    t.PaymentCaptured? || t.RefundCreated? || t.RefundSucceeded? || t.RefundFailed?
    || t.DisputeOpened? || t.DisputeLost? || t.DisputeWon?
  }

  predicate WellFormed(ev: PaymentEvent) {
    && ev.eventId != NIL && ev.merchant != NIL && ev.paymentId != ""
    && Supported(ev.amount.currency) && ev.amount.amount > 0 && ev.fee.amount >= 0
    && (ev.fee.amount > 0 ==> ev.fee.currency == ev.amount.currency)
  }

  predicate NeedsProvider(t: EventType) {
    t.PaymentCaptured? || t.RefundSucceeded? || t.DisputeLost?
  }

  /** Whether the fee of the event goes into the journal beside its amount. */
  predicate PostsFee(t: EventType, pol: Policy) {
    t.RefundSucceeded? || t.DisputeOpened? || (t.DisputeWon? && pol.refundChargebackFeeOnWin)
  }

  /** Everything an event needs in order to be posted, readable off the event alone. */
  predicate Posts(ev: PaymentEvent, pol: Policy) {
    && MovesMoney(ev.typ) && WellFormed(ev)
    && (NeedsProvider(ev.typ) ==> ValidQualifier(ev.provider))
    && (ev.typ.RefundCreated? || ev.typ.RefundSucceeded? || ev.typ.RefundFailed? ==> ev.refundId != "")
    && (ev.typ.DisputeOpened? || ev.typ.DisputeLost? || ev.typ.DisputeWon? ==> ev.disputeId != "")
    && (ev.typ.PaymentCaptured? ==> ev.fee.amount <= ev.amount.amount)
    && (PostsFee(ev.typ, pol) ==> ev.amount.amount + ev.fee.amount <= MAX_INT64)
  }

  /** What the event does to each account, in the account's normal direction. */
  function EventEffect(ev: PaymentEvent, pol: Policy, k: AccountKey): int {
    var x: int, f: int := ev.amount.amount, ev.fee.amount;
    if k != ev.Account(k.code) || !MovesMoney(ev.typ) then 0
    else match k.code
      case PspReceivable(p) =>
        if p != ev.provider then 0
        else if ev.typ.PaymentCaptured? then x
        else if ev.typ.RefundSucceeded? || ev.typ.DisputeLost? then -x else 0
      case MerchantPayable =>
        if ev.typ.PaymentCaptured? then x - f
        else if ev.typ.RefundCreated? then -x
        else if ev.typ.RefundSucceeded? then -f
        else if ev.typ.RefundFailed? then x
        else if ev.typ.DisputeOpened? then -x - f
        else if ev.typ.DisputeWon? then (if pol.refundChargebackFeeOnWin then x + f else x) else 0
      case RefundClearing =>
        if ev.typ.RefundCreated? then x
        else if ev.typ.RefundSucceeded? || ev.typ.RefundFailed? then -x else 0
      case ChargebackReserve =>
        if ev.typ.DisputeOpened? then x
        else if ev.typ.DisputeLost? || ev.typ.DisputeWon? then -x else 0
      case FeeRevenue =>
        if ev.typ.PaymentCaptured? || ev.typ.RefundSucceeded? then f else 0
      case ChargebackFeeRevenue =>
        if ev.typ.DisputeOpened? then f
        else if ev.typ.DisputeWon? && pol.refundChargebackFeeOnWin then -f else 0
      case _ => 0
  }

  /** What the journal of an event is about, by its type. */
  lemma TemplateHeaderExactly(ev: PaymentEvent, pol: Policy)
    requires TemplateFor(ev, pol).Ok?
    ensures var j := TemplateFor(ev, pol).value;
            && j == Journal(NIL, ev.eventId, ev.merchant, ev.live, PaymentEventSource, j.refType, j.refId, j.template,
                            None, None, j.entries)
            && (j.template, j.refType, j.refId)
               == match ev.typ
                  case PaymentCaptured => (JCap, RefPayment, Named(ev.paymentId))
                  case RefundCreated => (JRefPend, RefRefund, Named(ev.refundId))
                  case RefundSucceeded => (JRefOk, RefRefund, Named(ev.refundId))
                  case RefundFailed => (JRefFail, RefRefund, Named(ev.refundId))
                  case DisputeOpened => (JCbOpen, RefDispute, Named(ev.disputeId))
                  case DisputeLost => (JCbLost, RefDispute, Named(ev.disputeId))
                  case _ => (JCbWon, RefDispute, Named(ev.disputeId))
  {
    hide Verdict, CaptureEntries, Move, BaseFault, ValidQualifier;
  }

  // ---- proofs about short journals ----

  /** The accounts and amount of a move fit the journal. */
  predicate Fits(j: Journal, a: AccountKey, b: AccountKey, x: Money) {
    ValidEntry(j, Entry(a, Debit, x), x.currency) && ValidEntry(j, Entry(b, Credit, x), x.currency)
  }

  lemma {:induction false} TotalConcat(a: seq<Entry>, b: seq<Entry>, dir: Direction)
    ensures Total(a + b, dir) == Total(a, dir) + Total(b, dir)
  {
    if b == [] {
      assert a + b == a;
    } else {
      assert (a + b)[..|a + b| - 1] == a + b[..|b| - 1];
      TotalConcat(a, b[..|b| - 1], dir);
    }
  }

  lemma TotalOfOne(e: Entry, dir: Direction)
    ensures Total([e], dir) == if e.direction == dir then e.amount.amount else 0
  {
    assert [e][..0] == [];
  }

  lemma TotalOfMove(a: AccountKey, b: AccountKey, x: Money)
    ensures Total(Move(a, b, x), Debit) == x.amount == Total(Move(a, b, x), Credit)
  {
    hide Total;
    var d, c := Entry(a, Debit, x), Entry(b, Credit, x);
    assert Move(a, b, x) == [d] + [c];
    TotalConcat([d], [c], Debit);
    TotalConcat([d], [c], Credit);
    TotalOfOne(d, Debit);
    TotalOfOne(d, Credit);
    TotalOfOne(c, Debit);
    TotalOfOne(c, Credit);
  }

  lemma LinesConcat(a: seq<Entry>, b: seq<Entry>)
    ensures Lines(a + b) == Lines(a) + Lines(b)
  {
  }

  lemma EffectOfOne(e: Entry, k: AccountKey)
    ensures Effect(Lines([e]), k) == DeltaAt(LineOf(e), k)
  {
    assert Lines([e])[..0] == [];
  }

  lemma EffectOfPair(d: Entry, c: Entry, k: AccountKey)
    ensures Effect(Lines([d, c]), k) == DeltaAt(LineOf(d), k) + DeltaAt(LineOf(c), k)
  {
    hide Effect, Lines, DeltaAt, LineOf;
    assert [d, c] == [d] + [c];
    LinesConcat([d], [c]);
    EffectConcat(Lines([d]), Lines([c]), k);
    EffectOfOne(d, k);
    EffectOfOne(c, k);
  }

  /** Two moves, the second one possibly absent. */
  lemma EffectOfMoves(es: seq<Entry>, fs: seq<Entry>, k: AccountKey)
    ensures Effect(Lines(es + fs), k) == Effect(Lines(es), k) + Effect(Lines(fs), k)
  {
    LinesConcat(es, fs);
    EffectConcat(Lines(es), Lines(fs), k);
  }

  lemma MoveIsValid(j: Journal, a: AccountKey, b: AccountKey, x: Money)
    requires ValidHeader(j) && j.entries == Move(a, b, x) && Fits(j, a, b, x)
    ensures ValidJournal(j)
  {
    TotalOfMove(a, b, x);
  }

  lemma TwoMovesValid(j: Journal, a: AccountKey, b: AccountKey, x: Money, c: AccountKey, d: AccountKey, y: Money)
    requires ValidHeader(j) && j.entries == Move(a, b, x) + Move(c, d, y)
    requires Fits(j, a, b, x) && Fits(j, c, d, y) && x.currency == y.currency
    ensures ValidJournal(j) <==> x.amount + y.amount <= MAX_INT64
  {
    hide Total, ValidEntry;
    TotalOfMove(a, b, x);
    TotalOfMove(c, d, y);
    TotalConcat(Move(a, b, x), Move(c, d, y), Debit);
    TotalConcat(Move(a, b, x), Move(c, d, y), Credit);
  }

  lemma AccountFits(ev: PaymentEvent, j: Journal, code: Code, dir: Direction, x: Money)
    requires ev.merchant != NIL && Supported(ev.amount.currency) && ValidCode(code) && dir.Valid()
    requires j.merchant == ev.merchant && j.live == ev.live && x.amount > 0 && x.currency == ev.amount.currency
    ensures ValidEntry(j, Entry(ev.Account(code), dir, x), x.currency)
  {
  }

  predicate OneMove(ev: PaymentEvent, j: Journal, a: Code, b: Code) {
    && j.entries == Move(ev.Account(a), ev.Account(b), ev.amount)
    && ValidCode(a) && ValidCode(b)
  }

  predicate TwoMoves(ev: PaymentEvent, j: Journal, a: Code, b: Code, c: Code, d: Code) {
    && j.entries == Move(ev.Account(a), ev.Account(b), ev.amount) + Move(ev.Account(c), ev.Account(d), ev.fee)
    && ValidCode(a) && ValidCode(b) && ValidCode(c) && ValidCode(d)
  }

  predicate Headed(ev: PaymentEvent, j: Journal) {
    && WellFormed(ev) && ValidHeader(j) && j.merchant == ev.merchant && j.live == ev.live
  }

  lemma OneMovePosts(ev: PaymentEvent, j: Journal, a: Code, b: Code)
    requires Headed(ev, j) && OneMove(ev, j, a, b)
    ensures Checked(j) == Ok(j) && ValidJournal(j)
  {
    hide ValidEntry, ValidCode, Verdict, Total;
    AccountFits(ev, j, a, Debit, ev.amount);
    AccountFits(ev, j, b, Credit, ev.amount);
    MoveIsValid(j, ev.Account(a), ev.Account(b), ev.amount);
    VerdictPassesValid(j);
  }

  lemma TwoMovesPost(ev: PaymentEvent, j: Journal, a: Code, b: Code, c: Code, d: Code)
    requires Headed(ev, j) && TwoMoves(ev, j, a, b, c, d) && ev.fee.amount > 0
    ensures Checked(j).Ok? <==> ev.amount.amount + ev.fee.amount <= MAX_INT64
    ensures Checked(j).Ok? ==> Checked(j) == Ok(j) && ValidJournal(j)
  {
    hide ValidEntry, ValidCode, Verdict, ValidJournal;
    AccountFits(ev, j, a, Debit, ev.amount);
    AccountFits(ev, j, b, Credit, ev.amount);
    AccountFits(ev, j, c, Debit, ev.fee);
    AccountFits(ev, j, d, Credit, ev.fee);
    TwoMovesValid(j, ev.Account(a), ev.Account(b), ev.amount, ev.Account(c), ev.Account(d), ev.fee);
    VerdictPassesValid(j);
  }

  /** What a debit or credit of x on the event's account of a code does to account k. */
  function Side(ev: PaymentEvent, code: Code, dir: Direction, x: int, k: AccountKey): int {
    if k == ev.Account(code) then Delta(Line(k, dir, x)) else 0
  }

  lemma MoveEffect(ev: PaymentEvent, a: Code, b: Code, x: Money, k: AccountKey)
    ensures Effect(Lines(Move(ev.Account(a), ev.Account(b), x)), k)
            == Side(ev, a, Debit, x.amount, k) + Side(ev, b, Credit, x.amount, k)
  {
    hide Effect, Lines, Delta;
    EffectOfPair(Entry(ev.Account(a), Debit, x), Entry(ev.Account(b), Credit, x), k);
  }

  // ---- the templates one by one ----

  lemma CapturePosts(ev: PaymentEvent, pol: Policy)
    requires ev.typ.PaymentCaptured?
    ensures TemplateFor(ev, pol).Ok? <==> Posts(ev, pol)
    ensures TemplateFor(ev, pol).Ok? ==> ValidJournal(TemplateFor(ev, pol).value)
  {
    if Posts(ev, pol) {
      hide ValidJournal, Verdict;
      var fee := if ev.HasFee() then ev.fee else Zero(ev.amount.currency);
      var net := Money(ev.amount.amount - fee.amount, ev.amount.currency);
      assert ev.amount.Sub(fee) == Ok(net);
      var j := Base(ev, JCap, RefPayment, ev.paymentId, CaptureEntries(ev, net, fee));
      CaptureIsValid(ev, j, net, fee);
      VerdictPassesValid(j);
    } else {
      hide Verdict, ValidJournal;
    }
  }

  predicate Splits(ev: PaymentEvent, net: Money, fee: Money) {
    && net.currency == fee.currency == ev.amount.currency && 0 <= net.amount && 0 <= fee.amount
    && net.amount + fee.amount == ev.amount.amount
  }

  lemma CaptureIsValid(ev: PaymentEvent, j: Journal, net: Money, fee: Money)
    requires WellFormed(ev) && ValidQualifier(ev.provider) && Splits(ev, net, fee)
    requires j == Base(ev, JCap, RefPayment, ev.paymentId, CaptureEntries(ev, net, fee))
    ensures ValidJournal(j)
  {
    hide Total, ValidEntry, ValidQualifier;
    CaptureEntriesFit(ev, j, net, fee);
    CaptureTotals(ev, net, fee);
  }

  lemma CaptureEntriesFit(ev: PaymentEvent, j: Journal, net: Money, fee: Money)
    requires WellFormed(ev) && ValidQualifier(ev.provider) && Splits(ev, net, fee)
    requires j.merchant == ev.merchant && j.live == ev.live
    ensures forall e | e in CaptureEntries(ev, net, fee) :: ValidEntry(j, e, ev.amount.currency)
  {
    hide ValidEntry;
    AccountFits(ev, j, PspReceivable(ev.provider), Debit, ev.amount);
    if net.amount > 0 { AccountFits(ev, j, MerchantPayable, Credit, net); }
    if fee.amount > 0 { AccountFits(ev, j, FeeRevenue, Credit, fee); }
  }

  function Optionally(e: Entry): seq<Entry> {
    if e.amount.IsPositive() then [e] else []
  }

  lemma TotalOptionally(e: Entry, dir: Direction)
    requires e.amount.amount >= 0
    ensures Total(Optionally(e), dir) == if e.direction == dir then e.amount.amount else 0
  {
    TotalOfOne(e, dir);
  }

  lemma EffectOptionally(e: Entry, k: AccountKey)
    requires e.amount.amount >= 0
    ensures Effect(Lines(Optionally(e)), k) == DeltaAt(LineOf(e), k)
  {
    EffectOfOne(e, k);
  }

  lemma CaptureShape(ev: PaymentEvent, net: Money, fee: Money)
    ensures CaptureEntries(ev, net, fee)
            == ([Entry(ev.Account(PspReceivable(ev.provider)), Debit, ev.amount)]
                + Optionally(Entry(ev.Account(MerchantPayable), Credit, net)))
               + Optionally(Entry(ev.Account(FeeRevenue), Credit, fee))
  {
  }

  lemma CaptureTotals(ev: PaymentEvent, net: Money, fee: Money)
    requires Splits(ev, net, fee)
    ensures Balanced(CaptureEntries(ev, net, fee))
  {
    hide Total, CaptureEntries, Optionally;
    CaptureShape(ev, net, fee);
    CaptureTotal(ev, net, fee, Debit);
    CaptureTotal(ev, net, fee, Credit);
  }

  lemma CaptureTotal(ev: PaymentEvent, net: Money, fee: Money, dir: Direction)
    requires Splits(ev, net, fee) && dir.Valid()
    ensures Total(CaptureEntries(ev, net, fee), dir) == ev.amount.amount
  {
    hide Total, CaptureEntries, Optionally;
    var g := Entry(ev.Account(PspReceivable(ev.provider)), Debit, ev.amount);
    var n, f := Entry(ev.Account(MerchantPayable), Credit, net), Entry(ev.Account(FeeRevenue), Credit, fee);
    CaptureShape(ev, net, fee);
    TotalConcat([g] + Optionally(n), Optionally(f), dir);
    TotalConcat([g], Optionally(n), dir);
    TotalOfOne(g, dir);
    TotalOptionally(n, dir);
    TotalOptionally(f, dir);
  }

  lemma CaptureEffect(ev: PaymentEvent, net: Money, fee: Money, k: AccountKey)
    requires Splits(ev, net, fee)
    ensures Effect(Lines(CaptureEntries(ev, net, fee)), k)
            == Side(ev, PspReceivable(ev.provider), Debit, ev.amount.amount, k)
               + Side(ev, MerchantPayable, Credit, net.amount, k) + Side(ev, FeeRevenue, Credit, fee.amount, k)
  {
    hide Effect, CaptureEntries, Optionally, Lines, Delta;
    var g := Entry(ev.Account(PspReceivable(ev.provider)), Debit, ev.amount);
    var n, f := Entry(ev.Account(MerchantPayable), Credit, net), Entry(ev.Account(FeeRevenue), Credit, fee);
    CaptureShape(ev, net, fee);
    EffectOfMoves([g] + Optionally(n), Optionally(f), k);
    EffectOfMoves([g], Optionally(n), k);
    EffectOfOne(g, k);
    EffectOptionally(n, k);
    EffectOptionally(f, k);
  }

  lemma RefundPosts(ev: PaymentEvent, pol: Policy)
    requires ev.typ.RefundCreated? || ev.typ.RefundFailed?
    ensures TemplateFor(ev, pol).Ok? <==> Posts(ev, pol)
    ensures TemplateFor(ev, pol).Ok? ==> ValidJournal(TemplateFor(ev, pol).value)
  {
    hide ValidJournal, Verdict;
    if Posts(ev, pol) && ev.typ.RefundCreated? {
      var es := Move(ev.Account(MerchantPayable), ev.Account(RefundClearing), ev.amount);
      OneMovePosts(ev, Base(ev, JRefPend, RefRefund, ev.refundId, es), MerchantPayable, RefundClearing);
    }
    if Posts(ev, pol) && ev.typ.RefundFailed? {
      var es := Move(ev.Account(RefundClearing), ev.Account(MerchantPayable), ev.amount);
      OneMovePosts(ev, Base(ev, JRefFail, RefRefund, ev.refundId, es), RefundClearing, MerchantPayable);
    }
  }

  /** A journal of one move, or of two when a fee is posted with it. */
  lemma WithFeePosts(ev: PaymentEvent, j: Journal, a: Code, b: Code, c: Code, d: Code, withFee: bool)
    requires Headed(ev, j) && ValidCode(a) && ValidCode(b) && ValidCode(c) && ValidCode(d)
    requires j.entries == Move(ev.Account(a), ev.Account(b), ev.amount)
                          + if withFee && ev.HasFee() then Move(ev.Account(c), ev.Account(d), ev.fee) else []
    ensures Checked(j).Ok? <==> (withFee ==> ev.amount.amount + ev.fee.amount <= MAX_INT64)
    ensures Checked(j).Ok? ==> Checked(j) == Ok(j) && ValidJournal(j)
  {
    hide ValidJournal, Verdict, ValidCode;
    if withFee && ev.HasFee() {
      TwoMovesPost(ev, j, a, b, c, d);
    } else {
      assert j.entries == Move(ev.Account(a), ev.Account(b), ev.amount);
      OneMovePosts(ev, j, a, b);
    }
  }

  lemma RefundSucceededPosts(ev: PaymentEvent, pol: Policy)
    requires ev.typ.RefundSucceeded?
    ensures TemplateFor(ev, pol).Ok? <==> Posts(ev, pol)
    ensures TemplateFor(ev, pol).Ok? ==> ValidJournal(TemplateFor(ev, pol).value)
  {
    hide ValidJournal, Verdict;
    if ev.refundId != "" && ValidQualifier(ev.provider) && WellFormed(ev) {
      var psp := PspReceivable(ev.provider);
      var es := Move(ev.Account(RefundClearing), ev.Account(psp), ev.amount)
                + if ev.HasFee() then Move(ev.Account(MerchantPayable), ev.Account(FeeRevenue), ev.fee) else [];
      WithFeePosts(ev, Base(ev, JRefOk, RefRefund, ev.refundId, es), RefundClearing, psp, MerchantPayable,
                   FeeRevenue, true);
    }
  }

  lemma DisputeOpenedPosts(ev: PaymentEvent, pol: Policy)
    requires ev.typ.DisputeOpened?
    ensures TemplateFor(ev, pol).Ok? <==> Posts(ev, pol)
    ensures TemplateFor(ev, pol).Ok? ==> ValidJournal(TemplateFor(ev, pol).value)
  {
    hide ValidJournal, Verdict;
    if ev.disputeId != "" && WellFormed(ev) {
      var es := Move(ev.Account(MerchantPayable), ev.Account(ChargebackReserve), ev.amount)
                + if ev.HasFee()
                  then Move(ev.Account(MerchantPayable), ev.Account(ChargebackFeeRevenue), ev.fee) else [];
      WithFeePosts(ev, Base(ev, JCbOpen, RefDispute, ev.disputeId, es),
                   MerchantPayable, ChargebackReserve, MerchantPayable, ChargebackFeeRevenue, true);
    }
  }

  lemma DisputeLostPosts(ev: PaymentEvent, pol: Policy)
    requires ev.typ.DisputeLost?
    ensures TemplateFor(ev, pol).Ok? <==> Posts(ev, pol)
    ensures TemplateFor(ev, pol).Ok? ==> ValidJournal(TemplateFor(ev, pol).value)
  {
    hide ValidJournal, Verdict;
    if Posts(ev, pol) {
      var psp := PspReceivable(ev.provider);
      var es := Move(ev.Account(ChargebackReserve), ev.Account(psp), ev.amount);
      OneMovePosts(ev, Base(ev, JCbLost, RefDispute, ev.disputeId, es), ChargebackReserve, psp);
    }
  }

  lemma DisputeWonPosts(ev: PaymentEvent, pol: Policy)
    requires ev.typ.DisputeWon?
    ensures TemplateFor(ev, pol).Ok? <==> Posts(ev, pol)
    ensures TemplateFor(ev, pol).Ok? ==> ValidJournal(TemplateFor(ev, pol).value)
  {
    hide ValidJournal, Verdict;
    if ev.disputeId != "" && WellFormed(ev) {
      var back := pol.refundChargebackFeeOnWin;
      var es := Move(ev.Account(ChargebackReserve), ev.Account(MerchantPayable), ev.amount)
                + if back && ev.HasFee()
                  then Move(ev.Account(ChargebackFeeRevenue), ev.Account(MerchantPayable), ev.fee) else [];
      WithFeePosts(ev, Base(ev, JCbWon, RefDispute, ev.disputeId, es),
                   ChargebackReserve, MerchantPayable, ChargebackFeeRevenue, MerchantPayable, back);
    }
  }

  /** A template accepts an event exactly when the event has all it needs; the journal it then makes
      is valid. */
  lemma TemplateAcceptsExactly(ev: PaymentEvent, pol: Policy)
    ensures TemplateFor(ev, pol).Ok? <==> Posts(ev, pol)
    ensures TemplateFor(ev, pol).Ok? ==> ValidJournal(TemplateFor(ev, pol).value)
    ensures TemplateFor(ev, pol) == Err(NoTemplate) <==> !MovesMoney(ev.typ)
  {
    hide ValidJournal, Posts;
    NoTemplateMeans(ev, pol);
    match ev.typ {
      case PaymentCaptured => CapturePosts(ev, pol);
      case RefundCreated => RefundPosts(ev, pol);
      case RefundFailed => RefundPosts(ev, pol);
      case RefundSucceeded => RefundSucceededPosts(ev, pol);
      case DisputeOpened => DisputeOpenedPosts(ev, pol);
      case DisputeLost => DisputeLostPosts(ev, pol);
      case DisputeWon => DisputeWonPosts(ev, pol);
      case _ => OthersDoNotPost(ev, pol);
    }
  }

  lemma OthersDoNotPost(ev: PaymentEvent, pol: Policy)
    requires !MovesMoney(ev.typ)
    ensures TemplateFor(ev, pol).Err? && !Posts(ev, pol)
  {
  }

  lemma VerdictHasTemplate(j: Journal)
    ensures Checked(j) != Err(NoTemplate)
  {
    FaultHasTemplate(j, |j.entries|);
  }

  lemma {:induction false} FaultHasTemplate(j: Journal, n: nat)
    requires n <= |j.entries|
    ensures FirstFault(j, n) != Some(NoTemplate)
  {
    if n == 0 {
    } else {
      FaultHasTemplate(j, n - 1);
    }
  }

  lemma NoTemplateMeans(ev: PaymentEvent, pol: Policy)
    ensures TemplateFor(ev, pol) == Err(NoTemplate) <==> !MovesMoney(ev.typ)
  {
    hide Verdict, CaptureEntries, Move;
    forall j ensures Checked(j) != Err(NoTemplate) { VerdictHasTemplate(j); }
  }

  // ---- what a posted event does to the accounts ----

  lemma WithFeeEffect(ev: PaymentEvent, a: Code, b: Code, c: Code, d: Code, withFee: bool, k: AccountKey)
    requires ev.fee.amount >= 0
    ensures Effect(Lines(Move(ev.Account(a), ev.Account(b), ev.amount)
                         + if withFee && ev.HasFee() then Move(ev.Account(c), ev.Account(d), ev.fee) else []), k)
            == Side(ev, a, Debit, ev.amount.amount, k) + Side(ev, b, Credit, ev.amount.amount, k)
               + if withFee then Side(ev, c, Debit, ev.fee.amount, k) + Side(ev, d, Credit, ev.fee.amount, k) else 0
  {
    hide Effect, Lines, Move;
    MoveEffect(ev, a, b, ev.amount, k);
    if withFee && ev.HasFee() {
      EffectOfMoves(Move(ev.Account(a), ev.Account(b), ev.amount), Move(ev.Account(c), ev.Account(d), ev.fee), k);
      MoveEffect(ev, c, d, ev.fee, k);
    } else {
      assert Move(ev.Account(a), ev.Account(b), ev.amount) + [] == Move(ev.Account(a), ev.Account(b), ev.amount);
    }
  }

  /** A debit lowers a merchant's or revenue account and raises an asset; a credit does the opposite. */
  lemma SideOf(ev: PaymentEvent, code: Code, dir: Direction, x: int, k: AccountKey)
    requires code.MerchantPayable? || code.RefundClearing? || code.ChargebackReserve? || code.FeeRevenue?
             || code.ChargebackFeeRevenue? || (code.PspReceivable? && ValidQualifier(code.qualifier))
    requires dir.Valid()
    ensures Side(ev, code, dir, x, k)
            == if k.code != code || k != ev.Account(k.code) then 0
               else if code.PspReceivable? == dir.Debit? then x else -x
  {
  }

  lemma CaptureTemplateEffect(ev: PaymentEvent, pol: Policy, k: AccountKey)
    requires ev.typ.PaymentCaptured? && TemplateFor(ev, pol).Ok? && Posts(ev, pol)
    ensures Effect(Lines(TemplateFor(ev, pol).value.entries), k) == EventEffect(ev, pol, k)
  {
    hide Effect, Lines, Side, Verdict, ValidQualifier, Delta, CaptureEntries;
    var fee := if ev.HasFee() then ev.fee else Zero(ev.amount.currency);
    var net := Money(ev.amount.amount - fee.amount, ev.amount.currency);
    assert ev.amount.Sub(fee) == Ok(net);
    CaptureEffect(ev, net, fee, k);
    SideOf(ev, PspReceivable(ev.provider), Debit, ev.amount.amount, k);
    SideOf(ev, MerchantPayable, Credit, net.amount, k);
    SideOf(ev, FeeRevenue, Credit, fee.amount, k);
  }

  lemma RefundTemplateEffect(ev: PaymentEvent, pol: Policy, k: AccountKey)
    requires ev.typ.RefundCreated? || ev.typ.RefundFailed?
    requires TemplateFor(ev, pol).Ok? && Posts(ev, pol)
    ensures Effect(Lines(TemplateFor(ev, pol).value.entries), k) == EventEffect(ev, pol, k)
  {
    hide Effect, Lines, Side, Verdict, Delta, Move;
    var dir := if ev.typ.RefundCreated? then Credit else Debit;
    if ev.typ.RefundCreated? { MoveEffect(ev, MerchantPayable, RefundClearing, ev.amount, k); }
    else { MoveEffect(ev, RefundClearing, MerchantPayable, ev.amount, k); }
    SideOf(ev, MerchantPayable, dir.Opposite(), ev.amount.amount, k);
    SideOf(ev, RefundClearing, dir, ev.amount.amount, k);
  }

  lemma RefundSucceededEffect(ev: PaymentEvent, pol: Policy, k: AccountKey)
    requires ev.typ.RefundSucceeded? && TemplateFor(ev, pol).Ok? && Posts(ev, pol)
    ensures Effect(Lines(TemplateFor(ev, pol).value.entries), k) == EventEffect(ev, pol, k)
  {
    hide Effect, Lines, Side, Verdict, Delta, Move, ValidQualifier;
    WithFeeEffect(ev, RefundClearing, PspReceivable(ev.provider), MerchantPayable, FeeRevenue, true, k);
    SideOf(ev, RefundClearing, Debit, ev.amount.amount, k);
    SideOf(ev, PspReceivable(ev.provider), Credit, ev.amount.amount, k);
    SideOf(ev, MerchantPayable, Debit, ev.fee.amount, k);
    SideOf(ev, FeeRevenue, Credit, ev.fee.amount, k);
  }

  lemma DisputeOpenedEffect(ev: PaymentEvent, pol: Policy, k: AccountKey)
    requires ev.typ.DisputeOpened? && TemplateFor(ev, pol).Ok? && Posts(ev, pol)
    ensures Effect(Lines(TemplateFor(ev, pol).value.entries), k) == EventEffect(ev, pol, k)
  {
    hide Effect, Lines, Side, Verdict, Delta, Move;
    WithFeeEffect(ev, MerchantPayable, ChargebackReserve, MerchantPayable, ChargebackFeeRevenue, true, k);
    SideOf(ev, MerchantPayable, Debit, ev.amount.amount, k);
    SideOf(ev, ChargebackReserve, Credit, ev.amount.amount, k);
    SideOf(ev, MerchantPayable, Debit, ev.fee.amount, k);
    SideOf(ev, ChargebackFeeRevenue, Credit, ev.fee.amount, k);
  }

  lemma DisputeLostEffect(ev: PaymentEvent, pol: Policy, k: AccountKey)
    requires ev.typ.DisputeLost? && TemplateFor(ev, pol).Ok? && Posts(ev, pol)
    ensures Effect(Lines(TemplateFor(ev, pol).value.entries), k) == EventEffect(ev, pol, k)
  {
    hide Effect, Lines, Side, Verdict, Delta, Move, ValidQualifier;
    MoveEffect(ev, ChargebackReserve, PspReceivable(ev.provider), ev.amount, k);
    SideOf(ev, ChargebackReserve, Debit, ev.amount.amount, k);
    SideOf(ev, PspReceivable(ev.provider), Credit, ev.amount.amount, k);
  }

  lemma DisputeWonEffect(ev: PaymentEvent, pol: Policy, k: AccountKey)
    requires ev.typ.DisputeWon? && TemplateFor(ev, pol).Ok? && Posts(ev, pol)
    ensures Effect(Lines(TemplateFor(ev, pol).value.entries), k) == EventEffect(ev, pol, k)
  {
    hide Effect, Lines, Side, Verdict, Delta, Move;
    WithFeeEffect(ev, ChargebackReserve, MerchantPayable, ChargebackFeeRevenue, MerchantPayable,
                  pol.refundChargebackFeeOnWin, k);
    SideOf(ev, ChargebackReserve, Debit, ev.amount.amount, k);
    SideOf(ev, MerchantPayable, Credit, ev.amount.amount, k);
    SideOf(ev, ChargebackFeeRevenue, Debit, ev.fee.amount, k);
    SideOf(ev, MerchantPayable, Credit, ev.fee.amount, k);
  }

  /** The journal of a posted event does to every account exactly what the table says. */
  lemma TemplateDoesExactly(ev: PaymentEvent, pol: Policy, k: AccountKey)
    requires Posts(ev, pol)
    ensures TemplateFor(ev, pol).Ok?
    ensures Effect(Lines(TemplateFor(ev, pol).value.entries), k) == EventEffect(ev, pol, k)
  {
    hide Effect, Lines, EventEffect, ValidJournal;
    TemplateAcceptsExactly(ev, pol);
    match ev.typ {
      case PaymentCaptured => CaptureTemplateEffect(ev, pol, k);
      case RefundCreated => RefundTemplateEffect(ev, pol, k);
      case RefundFailed => RefundTemplateEffect(ev, pol, k);
      case RefundSucceeded => RefundSucceededEffect(ev, pol, k);
      case DisputeOpened => DisputeOpenedEffect(ev, pol, k);
      case DisputeLost => DisputeLostEffect(ev, pol, k);
      case DisputeWon => DisputeWonEffect(ev, pol, k);
    }
  }

  /** A fee computed by a fee policy never makes the capture template refuse the event. */
  lemma PolicyFeesPost(ev: PaymentEvent, policy: Fee.FeePolicy, pol: Policy)
    requires ev.typ.PaymentCaptured? && policy.Calculate(ev.amount).Ok?
             && ev.fee == policy.Calculate(ev.amount).value.total
    requires ev.eventId != NIL && ev.merchant != NIL && ev.paymentId != "" && ev.amount.amount > 0
             && ValidQualifier(ev.provider)
    ensures TemplateFor(ev, pol).Ok?
  {
    hide ValidQualifier, TemplateFor;
    Fee.CalculateBounds(policy, ev.amount);
    TemplateAcceptsExactly(ev, pol);
  }

  // ---- settlement ----

  datatype Settlement = Settlement(eventId: nat, settlementId: string, provider: string, bank: string, live: bool,
                                   gross: Money, pspFees: Money, netPaid: Money)

  function SettlementEntries(s: Settlement): seq<Entry> {
    Optionally(Entry(AccountKey(NIL, BankCash(s.bank), s.gross.currency, s.live), Debit, s.netPaid))
    + Optionally(Entry(AccountKey(NIL, PspFeeExpense(s.provider), s.gross.currency, s.live), Debit, s.pspFees))
    + [Entry(AccountKey(NIL, PspReceivable(s.provider), s.gross.currency, s.live), Credit, s.gross)]
  }

  function SettlementJournal(s: Settlement): Journal {
    Journal(NIL, s.eventId, NIL, s.live, ReconciliationAdjustment, RefSettlement, Named(s.settlementId), JStl,
            None, None,
            SettlementEntries(s))
  }

  function SettlementTemplate(s: Settlement): Result<Journal, LedgerError> {
    if s.eventId == NIL || s.settlementId == "" || s.provider == "" || s.bank == "" then Err(EventInvalid)
    else if s.gross.Validate().Fail? || s.pspFees.Validate().Fail? || s.netPaid.Validate().Fail? then Err(EventInvalid)
    else if s.gross.currency != s.pspFees.currency || s.gross.currency != s.netPaid.currency
      then Err(JournalCurrencyMismatch)
    else match s.netPaid.Add(s.pspFees)
      case Err(_) => Err(EventInvalid)
      case Ok(sum) =>
        if sum != s.gross then Err(Unbalanced)
        else if !s.gross.IsPositive() then Err(EventInvalid)
        else Checked(SettlementJournal(s))
  }

  /** A settlement posts exactly when its parts add up and its accounts can be named. The bank is
      only named when something was paid out. */
  predicate SettlementPosts(s: Settlement) {
    && s.eventId != NIL && s.settlementId != "" && s.bank != ""
    && ValidQualifier(s.provider) && (s.netPaid.amount > 0 ==> ValidQualifier(s.bank)) && SettlementAdds(s)
  }

  predicate SettlementAdds(s: Settlement) {
    && Supported(s.gross.currency) && s.gross.currency == s.pspFees.currency == s.netPaid.currency
    && 0 <= s.pspFees.amount && 0 <= s.netPaid.amount && s.gross.amount > 0
    && s.netPaid.amount + s.pspFees.amount == s.gross.amount
  }

  lemma SettlementTotal(s: Settlement, dir: Direction)
    requires SettlementAdds(s) && dir.Valid()
    ensures Total(SettlementEntries(s), dir) == s.gross.amount
  {
    hide Total, Optionally;
    var n := Entry(AccountKey(NIL, BankCash(s.bank), s.gross.currency, s.live), Debit, s.netPaid);
    var f := Entry(AccountKey(NIL, PspFeeExpense(s.provider), s.gross.currency, s.live), Debit, s.pspFees);
    var g := Entry(AccountKey(NIL, PspReceivable(s.provider), s.gross.currency, s.live), Credit, s.gross);
    TotalConcat(Optionally(n) + Optionally(f), [g], dir);
    TotalConcat(Optionally(n), Optionally(f), dir);
    TotalOptionally(n, dir);
    TotalOptionally(f, dir);
    TotalOfOne(g, dir);
  }

  lemma SystemEntryFits(j: Journal, code: Code, x: Money)
    requires Supported(x.currency) && x.amount > 0 && !MerchantLevel(code)
    ensures forall dir: Direction | dir.Valid() ::
              ValidEntry(j, Entry(AccountKey(NIL, code, x.currency, j.live), dir, x), x.currency) <==> ValidCode(code)
  {
  }

  lemma SettlementFits(s: Settlement, j: Journal)
    requires SettlementAdds(s) && j == SettlementJournal(s)
    ensures (forall e | e in j.entries :: ValidEntry(j, e, s.gross.currency))
            <==> ValidQualifier(s.provider) && (s.netPaid.amount > 0 ==> ValidQualifier(s.bank))
  {
    hide ValidEntry, ValidQualifier;
    var g := Entry(AccountKey(NIL, PspReceivable(s.provider), s.gross.currency, s.live), Credit, s.gross);
    assert g == j.entries[|j.entries| - 1];
    SystemEntryFits(j, PspReceivable(s.provider), s.gross);
    if s.netPaid.amount > 0 {
      assert j.entries[0] == Entry(AccountKey(NIL, BankCash(s.bank), s.gross.currency, s.live), Debit, s.netPaid);
      SystemEntryFits(j, BankCash(s.bank), s.netPaid);
    }
    if s.pspFees.amount > 0 { SystemEntryFits(j, PspFeeExpense(s.provider), s.pspFees); }
  }

  /** What the journal of a settlement is about. */
  lemma SettlementHeaderExactly(s: Settlement)
    requires SettlementTemplate(s).Ok?
    ensures var j := SettlementTemplate(s).value;
            j == Journal(NIL, s.eventId, NIL, s.live, ReconciliationAdjustment, RefSettlement, Named(s.settlementId),
                         JStl, None, None, j.entries)
  {
    hide Verdict, SettlementEntries;
  }

  lemma SettlementAcceptsExactly(s: Settlement)
    ensures SettlementTemplate(s).Ok? <==> SettlementPosts(s)
    ensures SettlementTemplate(s).Ok? ==> ValidJournal(SettlementTemplate(s).value)
  {
    hide Verdict, SettlementEntries, ValidQualifier, Total, ValidEntry;
    var j := SettlementJournal(s);
    if SettlementAdds(s) {
      SettlementSize(s);
      SettlementTotal(s, Debit);
      SettlementTotal(s, Credit);
      SettlementFits(s, j);
      VerdictPassesValid(j);
    }
    EmptyIsNoQualifier();
  }

  lemma EmptyIsNoQualifier()
    ensures !ValidQualifier("")
  {
  }

  lemma SettlementSize(s: Settlement)
    requires SettlementAdds(s)
    ensures |SettlementEntries(s)| >= 2
    ensures SettlementEntries(s)[0].amount.currency == s.gross.currency
  {
  }

  /** Cash goes up by what was paid, expense by the PSP's fees, and the receivable down by the gross. */
  lemma SettlementDoesExactly(s: Settlement, k: AccountKey)
    requires SettlementPosts(s)
    ensures SettlementTemplate(s).Ok?
    ensures Effect(Lines(SettlementTemplate(s).value.entries), k)
            == if k.merchant != NIL || k.currency != s.gross.currency || k.live != s.live then 0
               else if k.code == BankCash(s.bank) then s.netPaid.amount
               else if k.code == PspFeeExpense(s.provider) then s.pspFees.amount
               else if k.code == PspReceivable(s.provider) then -(s.gross.amount as int) else 0
  {
    hide Verdict, Effect, Lines, Optionally, Delta, ValidJournal, ValidQualifier;
    SettlementAcceptsExactly(s);
    var n := Entry(AccountKey(NIL, BankCash(s.bank), s.gross.currency, s.live), Debit, s.netPaid);
    var f := Entry(AccountKey(NIL, PspFeeExpense(s.provider), s.gross.currency, s.live), Debit, s.pspFees);
    var g := Entry(AccountKey(NIL, PspReceivable(s.provider), s.gross.currency, s.live), Credit, s.gross);
    EffectOfMoves(Optionally(n) + Optionally(f), [g], k);
    EffectOfMoves(Optionally(n), Optionally(f), k);
    EffectOptionally(n, k);
    EffectOptionally(f, k);
    EffectOfOne(g, k);
    DebitNormalDelta(LineOf(n));
    DebitNormalDelta(LineOf(f));
    DebitNormalDelta(LineOf(g));
  }

  lemma DebitNormalDelta(l: Line)
    requires l.direction.Valid()
    ensures Qualified(l.account.code) && ValidQualifier(l.account.code.qualifier) ==>
              Delta(l) == if l.direction.Debit? then l.amount else -l.amount
    ensures l.amount == 0 ==> Delta(l) == 0
  {
  }
}

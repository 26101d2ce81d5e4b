/** One payment under any interleaving of requests: each request's transactions are steps, the
    provider's answers are arbitrary, and nothing holds a lock between two steps. */
module PaymentRuns {
  import opened Wrappers
  import opened Amounts
  import opened Attempts
  import opened Payments
  import opened Messages
  import opened PaymentStore
  import opened Accounts
  import opened Templates
  import opened Sums

  /** A request between its two transactions, with what it remembers from the first. */
  datatype Request =
    | Capturing(loaded: nat, want: Money)
    | Voiding(loaded: nat)
    | Confirming(seen: Row)
    | Refunding(held: RefundRow)

  /** The committed rows, the authorize saga's own copy while it runs, and the requests in flight. */
  datatype Cell = Cell(store: Store, saga: Option<Row>, requests: map<nat, Request>)

  datatype Action =
    | BeginCapture(rid: nat, amount: Option<Money>, now: int)
    | EndCapture(rid: nat, fee: int64, reported: Money, now: int)
    | BeginVoid(rid: nat)
    | EndVoid(rid: nat)
    | BeginConfirm(rid: nat)
    | EndConfirmFailed(rid: nat, code: string)
    | EndConfirmApproved(rid: nat, captured: bool, reported: Money, captureOk: bool, now: int)
    | BeginRefund(rid: nat, id: string, key: string, amount: Option<Money>)
    | EndRefund(rid: nat, succeeded: bool)
    | GiveUp(rid: nat)
    | SagaFailover(category: Category, code: string, reference: string, provider: string)
    | SagaUnknown(category: Category, code: string, reference: string)
    | SagaRequiresAction(reference: string, expires: Option<int>, now: int)
    | SagaFailed(category: Category, code: string, reference: string)
    | SagaApproved(approval: Approval, captureOk: bool, now: int)
    | SagaLost
    | Expire

  function After(s: Store, t: TxResult): Store {
    match t
    case Ok(n) => n
    case Err(_) => s
  }

  /** The request's second transaction ran, for better or worse; the request is over. */
  function Finish(c: Cell, rid: nat, t: TxResult): Cell {
    Cell(After(c.store, t), c.saga, c.requests - {rid})
  }

  function Begin(c: Cell, rid: nat, r: Request): Cell {
    if rid in c.requests then c else c.(requests := c.requests[rid := r])
  }

  /** The first attempt still open, or the number of attempts. */
  function FirstOpen(attempts: seq<AttemptRow>): (i: nat)
    ensures i <= |attempts|
    ensures i < |attempts| ==> attempts[i].status.IsOpen()
    ensures forall k | 0 <= k < i :: !attempts[k].status.IsOpen()
  {
    if attempts == [] then 0 else if attempts[0].status.IsOpen() then 0 else 1 + FirstOpen(attempts[1..])
  }

  function WithAttempt(p: Row, i: nat, a: AttemptRow): Row {
    if i < |p.attempts| then p.(attempts := p.attempts[i := a]) else p
  }

  function ConfirmFailed(s: Store, seen: Row, code: string): TxResult {
    var i := FirstOpen(seen.attempts);
    if i == |seen.attempts| then Err(InvalidTransition)
    else
      var a := seen.attempts[i].MarkFailed(AuthenticationFailed, code, "");
      FailCommit(s, WithAttempt(seen, i, a), seen.version, a.provider)
  }

  function ConfirmApproved(s: Store, seen: Row, captured: bool, reported: Money, captureOk: bool, now: int): TxResult {
    var i := FirstOpen(seen.attempts);
    if i == |seen.attempts| then Err(InvalidTransition)
    else
      var a := seen.attempts[i].MarkApproved(seen.reference);
      ApproveCommit(s, WithAttempt(seen, i, a), seen.version,
                    Approval(a.provider, seen.reference, None, 0, captured, reported),
                    captureOk, now)
  }

  /** The saga's copy with its last attempt replaced. */
  function LastAttempt(p: Row, a: AttemptRow -> AttemptRow): Row {
    if p.attempts == [] then p else p.(attempts := p.attempts[|p.attempts| - 1 := a(p.attempts[|p.attempts| - 1])])
  }

  function LastProvider(p: Row): string {
    if p.attempts == [] then "" else p.attempts[|p.attempts| - 1].provider
  }

  function EndSaga(c: Cell, t: TxResult): Cell {
    Cell(After(c.store, t), None, c.requests)
  }

  function Failing(cat: Category, code: string, ref: string): AttemptRow -> AttemptRow {
    (a: AttemptRow) => a.MarkFailed(cat, code, ref)
  }

  function SagaStep(c: Cell, held: Row, a: Action): Cell {
    match a
    case SagaFailover(cat, code, ref, prov) =>
      (match LastAttempt(held, Failing(cat, code, ref)).StartAttempt(prov)
       case Err(_) => c.(saga := None)
       case Ok(p) =>
         var t := Persist(c.store, p, p.version, []);
         Cell(After(c.store, t), if t.Ok? then Some(p) else None, c.requests))
    case SagaUnknown(cat, code, ref) =>
      EndSaga(c, Persist(c.store, LastAttempt(held, Failing(cat, code, ref)), held.version, []))
    case SagaRequiresAction(ref, expires, now) =>
      EndSaga(c, PersistChange(c.store,
          LastAttempt(held, (x: AttemptRow) => x.MarkRequiresAction(ref)).RequireAction(ref, expires, now),
                               held.version))
    case SagaFailed(cat, code, ref) =>
      EndSaga(c, FailCommit(c.store, LastAttempt(held, Failing(cat, code, ref)), held.version, LastProvider(held)))
    case SagaApproved(approval, captureOk, now) =>
      EndSaga(c, ApproveCommit(c.store, LastAttempt(held, (x: AttemptRow) => x.MarkApproved(approval.reference)),
                               held.version,
                               approval.(provider := LastProvider(held)), captureOk, now))
    case _ => c.(saga := None)
  }

  predicate IsSaga(a: Action) {
    a.SagaFailover? || a.SagaUnknown? || a.SagaRequiresAction? || a.SagaFailed? || a.SagaApproved? || a.SagaLost?
  }

  function EndStep(c: Cell, rid: nat, r: Request, a: Action): Cell {
    if a.EndCapture? && r.Capturing? then
      var x := if a.reported.currency == r.want.currency && a.reported.IsPositive() then a.reported else r.want;
      Finish(c, rid, CaptureCommit(c.store, r.loaded, x, a.fee, a.now))
    else if a.EndVoid? && r.Voiding? then Finish(c, rid, VoidCommit(c.store, r.loaded))
    else if a.EndConfirmFailed? && r.Confirming? then Finish(c, rid, ConfirmFailed(c.store, r.seen, a.code))
    else if a.EndConfirmApproved? && r.Confirming? then
      Finish(c, rid, ConfirmApproved(c.store, r.seen, a.captured, a.reported, a.captureOk, a.now))
    else if a.EndRefund? && r.Refunding? then Finish(c, rid, RefundEnd(c.store, r.held, a.succeeded))
    else if a.GiveUp? then c.(requests := c.requests - {rid})
    else c
  }

  function BeginStep(c: Cell, a: Action): Cell
    requires a.BeginCapture? || a.BeginVoid? || a.BeginConfirm? || a.BeginRefund?
  {
    var p := c.store.row;
    match a
    case BeginCapture(rid, amount, now) =>
      var x := if amount.Some? then amount.value else p.RemainingAuthorized();
      if p.Capture(x, 0, now).Changed? then Begin(c, rid, Capturing(p.version, x)) else c
    case BeginVoid(rid) => if p.Void().Changed? then Begin(c, rid, Voiding(p.version)) else c
    case BeginConfirm(rid) =>
      if p.status == RequiresAction && FirstOpen(p.attempts) < |p.attempts| then Begin(c, rid, Confirming(p)) else c
    case BeginRefund(rid, id, key, amount) =>
      if rid in c.requests || id == "" || key == "" then c
      else
        match RefundBegin(c.store, id, key, amount)
        case Err(_) => c
        case Ok(s) => if id in s.refunds then Cell(s, c.saga, c.requests[rid := Refunding(s.refunds[id])]) else c
  }

  function Step(c: Cell, a: Action): Cell {
    if IsSaga(a) then (if c.saga.Some? then SagaStep(c, c.saga.value, a) else c)
    else if a.Expire? then c.(store := After(c.store, ExpireCommit(c.store)))
    else if a.BeginCapture? || a.BeginVoid? || a.BeginConfirm? || a.BeginRefund? then BeginStep(c, a)
    else if a.rid in c.requests then EndStep(c, a.rid, c.requests[a.rid], a) else c
  }

  /** A payment just created, its first attempt recorded, its saga about to call the provider. */
  function Fresh(p: NewParams, provider: string, now: int): Option<Cell> {
    match NewPayment(p, now)
    case Refused(_) => None
    case Changed(row, event) =>
      match row.StartAttempt(provider)
      case Err(_) => None
      case Ok(started) => Some(Cell(Store(started, map[], [event], [BuildMessage(started, event)]),
                                    Some(started), map[]))
  }

  function Run(c: Cell, actions: seq<Action>): Cell {
    if actions == [] then c else Step(Run(c, actions[..|actions| - 1]), actions[|actions| - 1])
  }

  // ---- what every reachable payment satisfies ----

  function SumOf(log: seq<Event>, t: EventType): int {
    if log == [] then 0
    else SumOf(log[..|log| - 1], t) + if log[|log| - 1].typ == t then log[|log| - 1].amount else 0
  }

  function CountOf(log: seq<Event>, t: EventType): nat {
    if log == [] then 0 else CountOf(log[..|log| - 1], t) + if log[|log| - 1].typ == t then 1 else 0
  }

  /** Numbers without gap, each event starting from the status the one before it ended in. */
  predicate Chained(log: seq<Event>) {
    && (forall i | 0 <= i < |log| :: log[i].seqNo == i + 1)
    && (forall i | 0 < i < |log| :: log[i].from == Some(log[i - 1].to))
  }

  /** The events alone rebuild the row: its version, its status and its four amounts. */
  predicate Rebuilds(log: seq<Event>, p: Row) {
    && |log| == p.version && |log| > 0 && log[0].from == None && log[|log| - 1].to == p.status
    && p.authorized.amount == SumOf(log, PaymentAuthorized)
    && p.captured.amount == SumOf(log, PaymentCaptured)
    && p.refunded.amount == SumOf(log, RefundSucceeded)
    && p.pending.amount == SumOf(log, RefundCreated) - SumOf(log, RefundSucceeded) - SumOf(log, RefundFailed)
  }

  predicate OnceEach(log: seq<Event>, p: Row) {
    && CountOf(log, PaymentAuthorized) == (if p.authorized.amount > 0 then 1 else 0)
    && CountOf(log, PaymentCaptured) == (if p.captured.amount > 0 then 1 else 0)
  }

  predicate RefundOk(p: Row, id: string, r: RefundRow) {
    && r.id == id != "" && r.amount.currency == p.amount.currency && r.amount.amount > 0 && r.provider == p.provider
    && r.version == (if r.status == RefundPending then 0 else 1)
  }

  predicate RefundsOk(s: Store) {
    && (forall id | id in s.refunds :: RefundOk(s.row, id, s.refunds[id]))
    && (s.refunds != map[] ==> s.row.captured.amount > 0)
  }

  function RefundPart(m: map<string, RefundRow>, st: RefundStatus): string -> int {
    (id: string) => if id in m && m[id].status == st then m[id].amount.amount as int else 0
  }

  /** The refunds awaiting an answer add up to the pending amount, the successful ones to the refunded one. */
  ghost predicate RefundsAddUp(s: Store) {
    && SumSet(s.refunds.Keys, RefundPart(s.refunds, RefundPending)) == s.row.pending.amount
    && SumSet(s.refunds.Keys, RefundPart(s.refunds, RefundSettled)) == s.row.refunded.amount
  }

  function FeeIn(log: seq<Event>): int {
    if log == [] then 0
    else FeeIn(log[..|log| - 1]) + if log[|log| - 1].typ == PaymentCaptured then log[|log| - 1].fee else 0
  }

  /** What the rows of a payment say each ledger account should hold on its behalf. */
  function View(s: Store, k: AccountKey): int {
    ViewOf(s.row, FeeIn(s.log), k)
  }

  function ViewOf(p: Row, fee: int, k: AccountKey): int {
    if k != AccountKey(if MerchantLevel(k.code) then p.merchant else NIL, k.code, p.amount.currency, p.live) then 0
    else match k.code
      case MerchantPayable => p.captured.amount - fee - p.refunded.amount - p.pending.amount
      case RefundClearing => p.pending.amount
      case PspReceivable(prov) => if prov == p.provider then p.captured.amount - p.refunded.amount else 0
      case FeeRevenue => fee
      case _ => 0
  }

  function WorthOf(ms: seq<Message>, pol: Policy, k: AccountKey): int {
    if ms == [] then 0 else WorthOf(ms[..|ms| - 1], pol, k) + Worth(ms[|ms| - 1], pol, k)
  }

  /** The messages sent so far are worth, to every account, exactly what the rows say. */
  ghost predicate SentAddsUp(s: Store) {
    forall pol, k :: WorthOf(s.sent, pol, k) == View(s, k)
  }

  /** No attempt but the last one can still be open, or be approved. */
  predicate OnlyLastIsLive(attempts: seq<AttemptRow>) {
    forall i | 0 <= i < |attempts| - 1 :: !attempts[i].status.IsOpen() && !attempts[i].status.Approved?
  }

  predicate NoneApproved(attempts: seq<AttemptRow>) {
    forall i | 0 <= i < |attempts| :: !attempts[i].status.Approved?
  }

  predicate AttemptsOk(p: Row) {
    OnlyLastIsLive(p.attempts) && (p.status == Created || p.status == RequiresAction ==> NoneApproved(p.attempts))
  }

  predicate RightRefund(p: Row, id: string, x: Money) {
    id != "" && x.amount > 0 && x.currency == p.amount.currency
  }

  /** What a sent message says about its payment. One that moves money names its owner, the one capture with its fee,
      a refund by id and amount, and the payment's provider where one is named. */
  predicate RightMessage(s: Store, m: Message) {
    var p := s.row;
    if !MovesMoney(m.typ) then m.payload.CreatedPayload? || m.payload.PlainPayload?
    else
      && m.merchant == p.merchant && m.paymentId == p.paymentId && m.live == p.live && p.captured.amount > 0
      && match m.typ
         case PaymentCaptured =>
           && m.payload.CapturedPayload? && m.payload.provider == p.provider && m.payload.amount == p.captured
           && m.payload.fee.Some? && m.payload.fee.value.amount == FeeIn(s.log)
           && m.payload.fee.value.currency == p.amount.currency
         case RefundCreated => m.payload.RefundCreatedPayload? && RightRefund(p, m.payload.refundId, m.payload.amount)
         case RefundSucceeded =>
           && m.payload.RefundSucceededPayload? && RightRefund(p, m.payload.refundId, m.payload.amount)
           && m.payload.provider == p.provider && m.payload.fee.None?
         case RefundFailed => m.payload.RefundFailedPayload? && RightRefund(p, m.payload.refundId, m.payload.amount)
         case _ => false
  }

  predicate SentRight(s: Store) {
    && (forall m | m in s.sent :: RightMessage(s, m))
    && (s.row.captured.amount > 0 ==> exists m :: m in s.sent && m.typ == PaymentCaptured)
    && (s.row.captured.amount == 0 ==> FeeIn(s.log) == 0)
  }

  ghost predicate StoreInv(s: Store) {
    && AttemptsOk(s.row) && SentRight(s)
    && RowInv(s.row) && Chained(s.log) && Rebuilds(s.log, s.row) && OnceEach(s.log, s.row) && |s.sent| == |s.log|
    && SentAddsUp(s) && RefundsOk(s) && RefundsAddUp(s)
  }

  /** What a request remembers is either still current or has an older version. */
  predicate Current(s: Store, r: Request) {
    match r
    case Capturing(loaded, want) => loaded <= s.row.version
    case Voiding(loaded) => loaded <= s.row.version
    case Confirming(seen) =>
      seen.version <= s.row.version && seen.status == RequiresAction
          && (seen.version == s.row.version ==> seen == s.row)
    case Refunding(held) =>
      && held.id in s.refunds && held.status == RefundPending && held.version == 0
      && (s.refunds[held.id].version == held.version ==> s.refunds[held.id] == held)
  }

  predicate SagaCurrent(s: Store, held: Row) {
    && held.version <= s.row.version && held.status == Created
    && (held.version == s.row.version ==> held == s.row)
  }

  ghost predicate CellInv(c: Cell) {
    && StoreInv(c.store) && (c.saga.Some? ==> SagaCurrent(c.store, c.saga.value))
    && forall rid | rid in c.requests :: Current(c.store, c.requests[rid])
  }

  // ---- one event ----

  /** What an event did to the amounts, by its type: nothing else moves them. */
  predicate Books(p: Row, c: Change) {
    c.Changed? ==>
      var t, x: int := c.event.typ, c.event.amount;
      && x >= 0
      && c.row.authorized.amount == p.authorized.amount + (if t.PaymentAuthorized? then x else 0)
      && c.row.captured.amount == p.captured.amount + (if t.PaymentCaptured? then x else 0)
      && c.row.refunded.amount == p.refunded.amount + (if t.RefundSucceeded? then x else 0)
      && c.row.pending.amount == p.pending.amount
                                 + (if t.RefundCreated? then x
                                    else if t.RefundSucceeded? || t.RefundFailed? then -x else 0)
      && (t.PaymentAuthorized? ==> p.authorized.amount == 0 < x)
      && (t.PaymentCaptured? ==> p.captured.amount == 0 < x)
      && (t.RefundCreated? || t.RefundSucceeded? || t.RefundFailed? ==> p.captured.amount > 0)
      && (p.captured.amount > 0 ==> c.row.provider == p.provider)
      && c.row.attempts == p.attempts && (c.row.status == Created || c.row.status == RequiresAction
                                          ==> t.PaymentRequiresAction?)
      && !IsTerminal(p.status)
      && !(t.DisputeOpened? || t.DisputeLost? || t.DisputeWon?)
  }

  predicate MovesRefund(t: EventType) {
    t.RefundCreated? || t.RefundSucceeded? || t.RefundFailed?
  }

  /** A change that follows the rules and leaves a row in order. */
  predicate Fine(p: Row, c: Change) {
    Follows(p, c) && Books(p, c) && (c.Changed? ==> RowInv(c.row))
  }

  lemma AuthorizeFine(p: Row, prov: string, ref: string, expiry: Option<int>, fee: int64, now: int)
    requires RowInv(p)
    ensures var c := p.Authorize(prov, ref, expiry, fee, now);
            Fine(p, c) && (c.Changed? ==> c.event.typ == PaymentAuthorized && c.row.captureMethod == p.captureMethod)
  {
    AuthorizeKeeps(p, prov, ref, expiry, fee, now);
  }

  lemma RequireActionFine(p: Row, ref: string, expires: Option<int>, now: int)
    requires RowInv(p)
    ensures var c := p.RequireAction(ref, expires, now); Fine(p, c) && (c.Changed? ==> !MovesRefund(c.event.typ))
  {
    RequireActionKeeps(p, ref, expires, now);
  }

  lemma CaptureFine(p: Row, x: Money, fee: int64, now: int)
    requires RowInv(p)
    ensures var c := p.Capture(x, fee, now);
            Fine(p, c) && (c.Changed? ==> c.event.typ == PaymentCaptured && c.row.provider == p.provider)
  {
    CaptureKeeps(p, x, fee, now);
  }

  lemma VoidFine(p: Row)
    requires RowInv(p)
    ensures Fine(p, p.Void()) && (p.Void().Changed? ==> !MovesRefund(p.Void().event.typ))
  {
    VoidKeeps(p);
  }

  lemma FailExpireFine(p: Row, prov: string)
    requires RowInv(p)
    ensures Fine(p, p.Fail(prov)) && (p.Fail(prov).Changed? ==> !MovesRefund(p.Fail(prov).event.typ))
    ensures Fine(p, p.Expire()) && (p.Expire().Changed? ==> !MovesRefund(p.Expire().event.typ))
  {
    FailExpireKeep(p, prov);
  }

  lemma ReserveFine(p: Row, r: RefundRow)
    requires RowInv(p)
    ensures var c := p.ReserveRefund(r);
            Fine(p, c) && (c.Changed? ==> c.event.typ == RefundCreated && c.event.amount == r.amount.amount > 0
                                          && c.event.provider == p.provider == c.row.provider
                                          && c.event.refundId == r.id
                                          && r.amount.currency == p.amount.currency)
  {
    ReserveKeeps(p, r);
  }

  lemma SettleFine(p: Row, r: RefundRow)
    requires RowInv(p) && r.amount.currency == p.amount.currency && 0 < r.amount.amount <= p.pending.amount
    ensures var c := p.MarkRefunded(r);
            Fine(p, c) && c.Changed? && c.event.typ == RefundSucceeded && c.event.amount == r.amount.amount
            && c.event.provider == r.provider && c.row.provider == p.provider && c.event.refundId == r.id
    ensures var c := p.ReleaseRefund(r);
            Fine(p, c) && c.Changed? && c.event.typ == RefundFailed && c.event.amount == r.amount.amount
            && c.event.provider == r.provider && c.row.provider == p.provider && c.event.refundId == r.id
  {
    SettlingNeverFails(p, r);
  }

  // ---- one event in the log ----

  /** p is the committed row, save for its attempts. */
  predicate Same(p: Row, row: Row) {
    p == row.(attempts := p.attempts)
  }

  lemma SameRowInv(p: Row, row: Row)
    requires Same(p, row) && RowInv(row)
    ensures RowInv(p)
  {
  }

  lemma LogStep(log: seq<Event>, p: Row, c: Change)
    requires Chained(log) && Rebuilds(log, p) && OnceEach(log, p) && c.Changed? && Follows(p, c) && Books(p, c)
    requires p.authorized.amount >= 0 && p.captured.amount >= 0
    ensures Chained(log + [c.event]) && Rebuilds(log + [c.event], c.row) && OnceEach(log + [c.event], c.row)
  {
    hide CanTransition, IsTerminal;
    var next := log + [c.event];
    assert next[..|next| - 1] == log;
  }

  /** Whether the provider in an event is the payment's own, where the ledger looks at it. */
  predicate SameProvider(p: Row, c: Change) {
    && c.Changed?
    && (MovesRefund(c.event.typ) ==>
          c.event.provider == p.provider == c.row.provider && c.event.refundId != "" && c.event.amount > 0)
  }

  predicate SameOwner(p: Row, q: Row) {
    && q.merchant == p.merchant && q.paymentId == p.paymentId && q.live == p.live && q.amount == p.amount
    && q.key == p.key && q.requestHash == p.requestHash
  }

  lemma CaptureWorth(p: Row, c: Change, final: Row, fee: int, pol: Policy, k: AccountKey)
    requires c.Changed? && SameOwner(p, c.row) && SameOwner(p, final) && Books(p, c)
    requires c.event.typ == PaymentCaptured && final.provider == c.row.provider
    requires p.refunded.amount == p.pending.amount == 0
    ensures ViewOf(c.row, fee + c.event.fee, k) == ViewOf(p, fee, k) + Worth(BuildMessage(final, c.event), pol, k)
  {
    hide IsTerminal;
  }

  lemma RefundWorth(p: Row, c: Change, final: Row, fee: int, pol: Policy, k: AccountKey)
    requires c.Changed? && SameOwner(p, c.row) && SameOwner(p, final) && Books(p, c)
    requires MovesRefund(c.event.typ) && c.event.provider == p.provider == c.row.provider
    ensures ViewOf(c.row, fee, k) == ViewOf(p, fee, k) + Worth(BuildMessage(final, c.event), pol, k)
  {
    hide IsTerminal;
  }

  lemma OtherWorth(p: Row, c: Change, final: Row, fee: int, pol: Policy, k: AccountKey)
    requires c.Changed? && SameOwner(p, c.row) && SameOwner(p, final) && Books(p, c)
    requires !MovesRefund(c.event.typ) && c.event.typ != PaymentCaptured
    requires p.captured.amount > 0 || p.captured.amount == p.refunded.amount == p.pending.amount == 0
    ensures ViewOf(c.row, fee, k) == ViewOf(p, fee, k) + Worth(BuildMessage(final, c.event), pol, k)
  {
    hide IsTerminal, EventEffect;
    NoMoneyMoved(Described(BuildMessage(final, c.event), 1), pol, k);
  }

  lemma NoMoneyMoved(ev: PaymentEvent, pol: Policy, k: AccountKey)
    requires !MovesMoney(ev.typ)
    ensures EventEffect(ev, pol, k) == 0
  {
  }

  /** The message of an event is worth what the event changed in the rows. */
  lemma MessageWorth(s: Store, t: Store, p: Row, c: Change, final: Row, pol: Policy, k: AccountKey)
    requires Same(p, s.row) && c.Changed? && SameOwner(p, c.row) && Books(p, c) && SameProvider(p, c) && RowInv(p)
    requires t.row == c.row && t.log == s.log + [c.event] && SameOwner(p, final)
    requires c.event.typ == PaymentCaptured ==> final.provider == c.row.provider
    ensures View(t, k) == View(s, k) + Worth(BuildMessage(final, c.event), pol, k)
  {
    hide Books, Worth, ViewOf, SameOwner, BuildMessage;
    assert t.log[..|t.log| - 1] == s.log;
    assert ViewOf(p, FeeIn(s.log), k) == ViewOf(s.row, FeeIn(s.log), k) by {
      AttemptsDoNotShow(p, s.row, FeeIn(s.log), k);
    }
    AmountsOfBooks(p, c);
    if c.event.typ == PaymentCaptured { CaptureWorth(p, c, final, FeeIn(s.log), pol, k); }
    else if MovesRefund(c.event.typ) { RefundWorth(p, c, final, FeeIn(s.log), pol, k); }
    else { OtherWorth(p, c, final, FeeIn(s.log), pol, k); }
  }

  lemma AttemptsDoNotShow(p: Row, row: Row, fee: int, k: AccountKey)
    requires Same(p, row)
    ensures ViewOf(p, fee, k) == ViewOf(row, fee, k)
  {
  }

  lemma AmountsOfBooks(p: Row, c: Change)
    requires RowInv(p) && c.Changed? && Books(p, c)
    ensures c.event.typ == PaymentCaptured ==> p.captured.amount == 0
    ensures p.captured.amount > 0 || p.captured.amount == p.refunded.amount == p.pending.amount == 0
  {
    hide IsTerminal;
  }

  // ---- one transaction ----

  /** Refunds may be added, and may move on; none disappears or changes in place. */
  predicate RefundsGrow(m: map<string, RefundRow>, n: map<string, RefundRow>) {
    forall id | id in m :: id in n && n[id].key == m[id].key
                           && (n[id] == m[id]
                               || (m[id].status == RefundPending && n[id].version > m[id].version))
  }

  /** What a committed transaction may do: add events, raise the version, move refunds on. */
  predicate Grows(s: Store, t: Store) {
    && t.row.version > s.row.version && s.log <= t.log && s.sent <= t.sent && RefundsGrow(s.refunds, t.refunds)
    && !IsTerminal(s.row.status) && SameOwner(s.row, t.row)
  }

  ghost predicate Good(s: Store, r: TxResult) {
    r.Ok? ==> StoreInv(r.value) && Grows(s, r.value)
  }

  lemma OneMessage(p: Row, ev: Event)
    ensures BuildMessages(p, [ev]) == [BuildMessage(p, ev)]
  {
    assert [ev][..0] == [];
  }

  lemma NextSent(s: Store, t: Store, m: Message, pol: Policy, k: AccountKey)
    requires SentAddsUp(s) && t.sent == s.sent + [m] && View(t, k) == View(s, k) + Worth(m, pol, k)
    ensures WorthOf(t.sent, pol, k) == View(t, k)
  {
    hide View, Worth;
    assert t.sent[..|t.sent| - 1] == s.sent;
  }

  /** A row in order, save for the refunds, after one event whose message is built from a later row. */
  lemma EventKeeps(s: Store, t: Store, p: Row, c: Change, final: Row)
    requires StoreInv(s) && Same(p, s.row) && c.Changed? && Fine(p, c) && SameProvider(p, c)
    requires SameOwner(p, final) && (c.event.typ == PaymentCaptured ==> final.provider == c.row.provider)
    requires t.row == c.row && t.log == s.log + [c.event] && t.sent == s.sent + [BuildMessage(final, c.event)]
    requires AttemptsOk(c.row)
    ensures AttemptsOk(t.row) && SentRight(t)
    ensures RowInv(t.row) && Chained(t.log) && Rebuilds(t.log, t.row) && OnceEach(t.log, t.row) && |t.sent| == |t.log|
    ensures SentAddsUp(t) && t.row.version > s.row.version && s.log <= t.log && s.sent <= t.sent
    ensures !IsTerminal(s.row.status) && SameOwner(s.row, t.row)
  {
    hide Chained, RefundsOk, RefundsAddUp, SentAddsUp, SentRight, BuildMessage, CanTransition, IsTerminal, AttemptsOk;
    SameRowInv(p, s.row);
    SentStaysRight(s, t, p, c, final);
    LogStep(s.log, p, c);
    forall pol, k ensures WorthOf(t.sent, pol, k) == View(t, k) {
      MessageWorth(s, t, p, c, final, pol, k);
      NextSent(s, t, BuildMessage(final, c.event), pol, k);
    }
    assert SentAddsUp(t) by { RestateSent(t); }
  }

  /** What was said stays right, and the new message is right. */
  lemma SentStaysRight(s: Store, t: Store, p: Row, c: Change, final: Row)
    requires SentRight(s) && RowInv(s.row) && Same(p, s.row) && c.Changed? && SameOwner(p, c.row) && Books(p, c)
    requires RowInv(c.row) && SameProvider(p, c) && SameOwner(p, final)
    requires c.event.typ == PaymentCaptured ==> final.provider == c.row.provider
    requires t.row == c.row && t.log == s.log + [c.event] && t.sent == s.sent + [BuildMessage(final, c.event)]
    ensures SentRight(t)
  {
    hide RowInv, Books, BuildMessage, RightMessage, SameProvider;
    var n := BuildMessage(final, c.event);
    FeeStep(s.log, c.event);
    SameRowInv(p, s.row);
    CapturedStays(p, c);
    MessageIsRight(s, t, p, c, final);
    forall m | m in s.sent ensures RightMessage(t, m) { StaysRight(s, t, m); }
    if t.row.captured.amount > 0 {
      if s.row.captured.amount > 0 {
        var m :| m in s.sent && m.typ == PaymentCaptured;
        assert m in t.sent;
      } else {
        assert n in t.sent && n.typ == PaymentCaptured by { CaptureMessage(p, c, final); }
      }
    }
  }

  lemma FeeStep(log: seq<Event>, ev: Event)
    ensures FeeIn(log + [ev]) == FeeIn(log) + if ev.typ == PaymentCaptured then ev.fee else 0
  {
    assert (log + [ev])[..|log|] == log;
  }

  lemma CaptureMessage(p: Row, c: Change, final: Row)
    requires c.Changed? && Books(p, c) && p.captured.amount == 0 && c.row.captured.amount > 0
    ensures BuildMessage(final, c.event).typ == PaymentCaptured
  {
    hide IsTerminal;
  }

  /** Once captured, the captured amount and the provider stay, and no second fee is recorded. */
  lemma CapturedStays(p: Row, c: Change)
    requires c.Changed? && RowInv(p) && RowInv(c.row) && SameOwner(p, c.row) && Books(p, c)
    ensures p.captured.amount > 0 ==>
              c.row.captured == p.captured && c.row.provider == p.provider && c.event.typ != PaymentCaptured
    ensures p.captured.amount >= 0 && c.row.captured.amount >= p.captured.amount
    ensures c.row.captured.amount == 0 ==> c.event.typ != PaymentCaptured
  {
    hide IsTerminal;
  }

  lemma StaysRight(s: Store, t: Store, m: Message)
    requires RightMessage(s, m) && SameOwner(s.row, t.row)
    requires s.row.captured.amount > 0 ==>
               t.row.captured == s.row.captured && t.row.provider == s.row.provider && FeeIn(t.log) == FeeIn(s.log)
    ensures RightMessage(t, m)
  {
  }

  lemma MessageIsRight(s: Store, t: Store, p: Row, c: Change, final: Row)
    requires SentRight(s) && Same(p, s.row) && c.Changed? && SameOwner(p, c.row) && Books(p, c) && RowInv(c.row)
    requires SameProvider(p, c) && SameOwner(p, final)
    requires c.event.typ == PaymentCaptured ==> final.provider == c.row.provider
    requires t.row == c.row && FeeIn(t.log) == FeeIn(s.log) + if c.event.typ == PaymentCaptured then c.event.fee else 0
    ensures RightMessage(t, BuildMessage(final, c.event))
  {
    hide IsTerminal, FeeIn;
    match c.event.typ {
      case PaymentCaptured =>
      case RefundCreated =>
      case RefundSucceeded =>
      case RefundFailed =>
      case _ =>
    }
  }

  lemma RestateSent(t: Store)
    requires forall pol, k :: WorthOf(t.sent, pol, k) == View(t, k)
    ensures SentAddsUp(t)
  {
  }

  /** Events other than refund events leave the refunds alone. */
  lemma RefundsUntouched(s: Store, t: Store, p: Row, c: Change)
    requires RefundsOk(s) && RefundsAddUp(s) && t.refunds == s.refunds && Same(p, s.row)
    requires c.Changed? && Fine(p, c) && !MovesRefund(c.event.typ) && t.row == c.row && RowInv(s.row)
    ensures RefundsOk(t) && RefundsAddUp(t) && RefundsGrow(s.refunds, t.refunds)
  {
    hide CanTransition, IsTerminal, SumSet;
    assert t.row.captured.amount >= s.row.captured.amount;
  }

  lemma CommitGood(s: Store, p: Row, c: Change, expected: nat)
    requires StoreInv(s) && Same(p, s.row) && Fine(p, c) && OnlyLastIsLive(p.attempts)
    requires c.Changed? ==>
               !MovesRefund(c.event.typ) && (c.event.typ == PaymentRequiresAction ==> NoneApproved(p.attempts))
    ensures Good(s, PersistChange(s, c, expected))
  {
    hide SentRight, Chained, Rebuilds, OnceEach, RefundsOk, RefundsAddUp;
    hide SentAddsUp, BuildMessage, RowInv, Books, RefundsGrow;
    var r := PersistChange(s, c, expected);
    if r.Ok? {
      OneMessage(c.row, c.event);
      AttemptsAfter(p, c);
      EventKeeps(s, r.value, p, c, c.row);
      RefundsUntouched(s, r.value, p, c);
    }
  }

  /** An event leaves the attempts alone; only asking for customer action keeps the payment open. */
  lemma AttemptsAfter(p: Row, c: Change)
    requires c.Changed? && Books(p, c) && OnlyLastIsLive(p.attempts)
    requires c.event.typ == PaymentRequiresAction ==> NoneApproved(p.attempts)
    ensures AttemptsOk(c.row)
  {
    hide IsTerminal;
  }

  lemma CaptureGood(s: Store, loaded: nat, x: Money, fee: int64, now: int)
    requires StoreInv(s)
    ensures Good(s, CaptureCommit(s, loaded, x, fee, now))
  {
    hide SentRight, Chained, Rebuilds, OnceEach, RefundsOk, RefundsAddUp, SentAddsUp, RowInv, Fine, Good, PersistChange;
    CaptureFine(s.row, x, fee, now);
    CommitGood(s, s.row, s.row.Capture(x, fee, now), loaded);
    if CaptureCommit(s, loaded, x, fee, now).Err? { ErrIsGood(s, CaptureCommit(s, loaded, x, fee, now)); }
  }

  lemma ErrIsGood(s: Store, r: TxResult)
    requires r.Err?
    ensures Good(s, r)
  {
  }

  lemma VoidGood(s: Store, loaded: nat)
    requires StoreInv(s)
    ensures Good(s, VoidCommit(s, loaded))
  {
    hide SentRight, Chained, Rebuilds, OnceEach, RefundsOk, RefundsAddUp, SentAddsUp, RowInv, Fine, Good, PersistChange;
    VoidFine(s.row);
    CommitGood(s, s.row, s.row.Void(), loaded);
    if VoidCommit(s, loaded).Err? { ErrIsGood(s, VoidCommit(s, loaded)); }
  }

  lemma ExpireGood(s: Store)
    requires StoreInv(s)
    ensures Good(s, ExpireCommit(s))
  {
    hide SentRight, Chained, Rebuilds, OnceEach, RefundsOk, RefundsAddUp, SentAddsUp, RowInv, Fine, Good, PersistChange;
    FailExpireFine(s.row, "");
    CommitGood(s, s.row, s.row.Expire(), s.row.version);
  }

  /** p is only written when it is the committed row with other attempts. */
  predicate Reliable(s: Store, p: Row, loaded: nat) {
    s.row.version == loaded ==> Same(p, s.row) && OnlyLastIsLive(p.attempts)
  }

  lemma StaleFails(s: Store, c: Change, loaded: nat)
    requires s.row.version != loaded
    ensures PersistChange(s, c, loaded).Err?
  {
  }

  lemma FailGood(s: Store, p: Row, loaded: nat, prov: string)
    requires StoreInv(s) && Reliable(s, p, loaded)
    ensures Good(s, FailCommit(s, p, loaded, prov))
  {
    hide SentRight, Chained, Rebuilds, OnceEach, RefundsOk, RefundsAddUp, SentAddsUp, RowInv, Fine, Good, PersistChange;
    if s.row.version == loaded {
      SameRowInv(p, s.row);
      FailExpireFine(p, prov);
      CommitGood(s, p, p.Fail(prov), loaded);
    } else {
      StaleFails(s, p.Fail(prov), loaded);
      ErrIsGood(s, FailCommit(s, p, loaded, prov));
    }
  }

  lemma RequireActionGood(s: Store, p: Row, loaded: nat, ref: string, expires: Option<int>, now: int)
    requires StoreInv(s) && Reliable(s, p, loaded) && (s.row.version == loaded ==> NoneApproved(p.attempts))
    ensures Good(s, PersistChange(s, p.RequireAction(ref, expires, now), loaded))
  {
    hide SentRight, Chained, Rebuilds, OnceEach, RefundsOk, RefundsAddUp, SentAddsUp, RowInv, Fine, Good, PersistChange;
    var c := p.RequireAction(ref, expires, now);
    if s.row.version == loaded {
      SameRowInv(p, s.row);
      RequireActionFine(p, ref, expires, now);
      CommitGood(s, p, c, loaded);
    } else {
      StaleFails(s, c, loaded);
      ErrIsGood(s, PersistChange(s, c, loaded));
    }
  }

  lemma TwoMessages(p: Row, a: Event, b: Event)
    ensures BuildMessages(p, [a, b]) == [BuildMessage(p, a)] + [BuildMessage(p, b)]
  {
    assert [a, b][..1] == [a];
    OneMessage(p, a);
  }

  /** An authorization and the capture that goes with it are two events in one write. */
  lemma TwoEventsGood(s: Store, p: Row, c: Change, d: Change, loaded: nat)
    requires StoreInv(s) && Same(p, s.row) && c.Changed? && d.Changed? && Fine(p, c) && Fine(c.row, d)
    requires c.event.typ == PaymentAuthorized && d.event.typ == PaymentCaptured && d.row.provider == c.row.provider
    requires OnlyLastIsLive(p.attempts)
    ensures Good(s, Persist(s, d.row, loaded, [c.event, d.event]))
  {
    hide SentRight, Chained, Rebuilds, OnceEach, RefundsOk, RefundsAddUp;
    hide SentAddsUp, RowInv, Books, BuildMessage, RefundsGrow, CanTransition;
    var r := Persist(s, d.row, loaded, [c.event, d.event]);
    if r.Ok? {
      AttemptsAfter(p, c);
      AttemptsAfter(c.row, d);
      var mid := s.(row := c.row, log := s.log + [c.event], sent := s.sent + [BuildMessage(d.row, c.event)]);
      EventKeeps(s, mid, p, c, d.row);
      RefundsUntouched(s, mid, p, c);
      TwoMessages(d.row, c.event, d.event);
      assert mid.log + [d.event] == r.value.log && mid.sent + [BuildMessage(d.row, d.event)] == r.value.sent;
      EventKeeps(mid, r.value, c.row, d, d.row);
      RefundsUntouched(mid, r.value, c.row, d);
      RefundsGrowOn(s.refunds, mid.refunds, r.value.refunds);
      assert s.log <= mid.log <= r.value.log && s.sent <= mid.sent <= r.value.sent;
    }
  }

  lemma RefundsGrowOn(a: map<string, RefundRow>, b: map<string, RefundRow>, c: map<string, RefundRow>)
    requires b == a && RefundsGrow(b, c)
    ensures RefundsGrow(a, c)
  {
  }

  lemma AuthorizedGood(s: Store, p: Row, loaded: nat, a: Approval, captureOk: bool, now: int)
    requires StoreInv(s) && Same(p, s.row) && OnlyLastIsLive(p.attempts)
    ensures Good(s, ApproveCommit(s, p, loaded, a, captureOk, now))
  {
    hide SentRight, Chained, Rebuilds, OnceEach, RefundsOk, RefundsAddUp;
    hide SentAddsUp, RowInv, Fine, Good, Persist, Grows;
    SameRowInv(p, s.row);
    var c := p.Authorize(a.provider, a.reference, a.authExpiry, a.fee, now);
    var r := ApproveCommit(s, p, loaded, a, captureOk, now);
    AuthorizeFine(p, a.provider, a.reference, a.authExpiry, a.fee, now);
    if c.Changed? {
      FineInv(p, c);
      CommitGood(s, p, c, loaded);
      var x := if a.reported.IsPositive() then a.reported else p.amount;
      var d := c.row.Capture(x, a.fee, now);
      CaptureFine(c.row, x, a.fee, now);
      if d.Changed? { TwoEventsGood(s, p, c, d, loaded); }
    }
    if r.Err? { ErrIsGood(s, r); }
  }

  lemma FineInv(p: Row, c: Change)
    requires c.Changed? && Fine(p, c)
    ensures RowInv(c.row)
  {
  }

  lemma ApproveStale(s: Store, p: Row, loaded: nat, a: Approval, captureOk: bool, now: int)
    requires s.row.version != loaded
    ensures ApproveCommit(s, p, loaded, a, captureOk, now).Err?
  {
  }

  lemma ApproveGood(s: Store, p: Row, loaded: nat, a: Approval, captureOk: bool, now: int)
    requires StoreInv(s) && Reliable(s, p, loaded)
    ensures Good(s, ApproveCommit(s, p, loaded, a, captureOk, now))
  {
    hide StoreInv, Good, ApproveCommit;
    if s.row.version == loaded {
      AuthorizedGood(s, p, loaded, a, captureOk, now);
    } else {
      ApproveStale(s, p, loaded, a, captureOk, now);
      ErrIsGood(s, ApproveCommit(s, p, loaded, a, captureOk, now));
    }
  }

  // ---- refunds ----

  lemma {:induction false} PartsNotNegative(keys: set<string>, m: map<string, RefundRow>, st: RefundStatus)
    requires forall id | id in m :: m[id].amount.amount > 0
    ensures SumSet(keys, RefundPart(m, st)) >= 0
    decreases |keys|
  {
    if keys == {} {
    } else {
      var id :| id in keys;
      SumSetRemove(keys, RefundPart(m, st), id);
      PartsNotNegative(keys - {id}, m, st);
    }
  }

  /** A pending refund is covered by the pending amount. */
  lemma PendingIsCovered(s: Store, id: string)
    requires RefundsOk(s) && RefundsAddUp(s) && id in s.refunds && s.refunds[id].status == RefundPending
    ensures s.refunds[id].amount.amount <= s.row.pending.amount
  {
    SumSetRemove(s.refunds.Keys, RefundPart(s.refunds, RefundPending), id);
    PartsNotNegative(s.refunds.Keys - {id}, s.refunds, RefundPending);
  }

  lemma InsertPart(m: map<string, RefundRow>, id: string, r: RefundRow, st: RefundStatus)
    requires id !in m
    ensures SumSet(m[id := r].Keys, RefundPart(m[id := r], st))
            == SumSet(m.Keys, RefundPart(m, st)) + if r.status == st then r.amount.amount else 0
  {
    var n := m[id := r];
    assert n.Keys == m.Keys + {id};
    SumSetInsert(m.Keys, RefundPart(n, st), id);
    SumSetSame(m.Keys, RefundPart(m, st), RefundPart(n, st));
  }

  lemma UpdatePart(m: map<string, RefundRow>, id: string, r: RefundRow, st: RefundStatus)
    requires id in m && r.amount == m[id].amount
    ensures SumSet(m[id := r].Keys, RefundPart(m[id := r], st))
            == SumSet(m.Keys, RefundPart(m, st)) - (if m[id].status == st then m[id].amount.amount else 0)
               + if r.status == st then r.amount.amount else 0
  {
    var n := m[id := r];
    assert n.Keys == m.Keys;
    SumSetChange(m.Keys, RefundPart(m, st), RefundPart(n, st), id);
  }

  lemma RefundAdded(s: Store, t: Store, id: string, r: RefundRow, c: Change)
    requires RefundsOk(s) && RefundsAddUp(s) && id !in s.refunds && t.refunds == s.refunds[id := r]
    requires c.Changed? && t.row == c.row && Fine(s.row, c) && c.event.typ == RefundCreated
             && c.event.amount == r.amount.amount > 0
    requires r.id == id != "" && r.status == RefundPending && r.version == 0
             && r.amount.currency == s.row.amount.currency
    requires r.provider == s.row.provider == c.row.provider
    ensures RefundsOk(t) && RefundsAddUp(t) && RefundsGrow(s.refunds, t.refunds)
  {
    hide CanTransition, IsTerminal, SumSet, RefundPart, RowInv;
    InsertPart(s.refunds, id, r, RefundPending);
    InsertPart(s.refunds, id, r, RefundSettled);
  }

  lemma RefundBeginGood(s: Store, id: string, key: string, want: Option<Money>)
    requires StoreInv(s) && id != ""
    ensures Good(s, RefundBegin(s, id, key, want))
    ensures RefundBegin(s, id, key, want).Ok? ==>
              var n := RefundBegin(s, id, key, want).value;
              && id !in s.refunds && id in n.refunds && n.refunds[id].status == RefundPending
              && n.refunds[id].version == 0 && n.refunds[id].id == id
  {
    hide SentRight, Chained, Rebuilds, OnceEach, RefundsOk, RefundsAddUp;
    hide SentAddsUp, RowInv, Fine, BuildMessage, RefundsGrow, KeyTaken;
    var r := NewRefund(s.row, id, key, if want.Some? then want.value else s.row.AvailableToRefund());
    var c := s.row.ReserveRefund(r);
    ReserveFine(s.row, r);
    var t := RefundBegin(s, id, key, want);
    if t.Ok? {
      OneMessage(c.row, c.event);
      AttemptsAfter(s.row, c);
      EventKeeps(s, t.value, s.row, c, c.row);
      RefundAdded(s, t.value, id, r, c);
    }
  }

  lemma RefundMoved(s: Store, t: Store, id: string, r: RefundRow, c: Change)
    requires RefundsOk(s) && RefundsAddUp(s) && id in s.refunds && t.refunds == s.refunds[id := r]
    requires s.refunds[id].status == RefundPending && c.Changed? && t.row == c.row && Fine(s.row, c)
             && c.row.provider == s.row.provider
    requires r == s.refunds[id].(status := r.status, version := 1) && c.event.amount == r.amount.amount
    requires (c.event.typ == RefundSucceeded && r.status == RefundSettled)
             || (c.event.typ == RefundFailed && r.status == RefundReturned)
    ensures RefundsOk(t) && RefundsAddUp(t) && RefundsGrow(s.refunds, t.refunds)
  {
    hide CanTransition, IsTerminal, SumSet, RefundPart, RowInv;
    UpdatePart(s.refunds, id, r, RefundPending);
    UpdatePart(s.refunds, id, r, RefundSettled);
  }

  lemma RefundEndGood(s: Store, held: RefundRow, succeeded: bool)
    requires StoreInv(s) && Current(s, Refunding(held))
    ensures Good(s, RefundEnd(s, held, succeeded))
    ensures RefundEnd(s, held, succeeded).Ok? <==> s.refunds[held.id].status == RefundPending
    ensures RefundEnd(s, held, succeeded).Ok? ==>
              RefundEnd(s, held, succeeded).value.refunds[held.id].status
                == if succeeded then RefundSettled else RefundReturned
  {
    hide SentRight, Chained, Rebuilds, OnceEach, RefundsAddUp, SentAddsUp, RowInv, Fine, BuildMessage, RefundsGrow;
    var id, t := held.id, RefundEnd(s, held, succeeded);
    if s.refunds[id].status == RefundPending {
      assert s.refunds[id] == held;
      PendingIsCovered(s, id);
      var r := held.(status := if succeeded then RefundSettled else RefundReturned, version := 1);
      var c := if succeeded then s.row.MarkRefunded(r) else s.row.ReleaseRefund(r);
      SettleFine(s.row, r);
      OneMessage(c.row, c.event);
      assert t.Ok? && t.value.row == c.row;
      AttemptsAfter(s.row, c);
      EventKeeps(s, t.value, s.row, c, c.row);
      RefundMoved(s, t.value, id, r, c);
    }
  }

  // ---- one step of the whole payment ----

  /** The saga noting an attempt, without an event, on a payment that is still created. */
  predicate Quiet(s: Store, t: Store) {
    && s.row.status == Created && t == s.(row := t.row)
    && t.row == s.row.(attempts := t.row.attempts, provider := t.row.provider)
  }

  /** All that any step does to the committed rows. */
  predicate Advances(s: Store, t: Store) {
    t == s || Grows(s, t) || Quiet(s, t)
  }

  lemma CurrentStays(s: Store, t: Store, r: Request)
    requires Current(s, r) && (t == s || Grows(s, t))
    ensures Current(t, r)
  {
    hide IsTerminal, SameOwner;
  }

  lemma SagaStays(s: Store, t: Store, held: Row)
    requires SagaCurrent(s, held) && (t == s || Grows(s, t))
    ensures SagaCurrent(t, held)
  {
    hide IsTerminal, SameOwner, RefundsGrow;
  }

  /** The requests that stay in flight stay current while the store moves on. */
  lemma MoveKeeps(c: Cell, d: Cell)
    requires CellInv(c) && StoreInv(d.store) && (d.store == c.store || Grows(c.store, d.store))
    requires d.saga == c.saga || d.saga == None
    requires forall rid | rid in d.requests ::
               Current(d.store, d.requests[rid]) || (rid in c.requests && c.requests[rid] == d.requests[rid])
    ensures CellInv(d)
  {
    hide StoreInv, Grows, Current, SagaCurrent;
    if d.saga.Some? { SagaStays(c.store, d.store, d.saga.value); }
    forall rid | rid in d.requests ensures Current(d.store, d.requests[rid]) {
      if rid in c.requests && c.requests[rid] == d.requests[rid] { CurrentStays(c.store, d.store, d.requests[rid]); }
    }
  }

  lemma AfterGood(s: Store, r: TxResult)
    requires StoreInv(s) && Good(s, r)
    ensures StoreInv(After(s, r)) && (After(s, r) == s || Grows(s, After(s, r)))
  {
    hide StoreInv, Grows;
  }

  lemma ReliableConfirm(s: Store, seen: Row, i: nat, a: AttemptRow)
    requires StoreInv(s) && Current(s, Confirming(seen)) && i == FirstOpen(seen.attempts) < |seen.attempts|
    ensures Reliable(s, WithAttempt(seen, i, a), seen.version)
  {
    hide FirstOpen, StoreInv;
    StoreAttemptsOk(s);
    if s.row.version == seen.version {
      assert i == |seen.attempts| - 1;
    }
  }

  lemma ReliableSaga(s: Store, held: Row, f: AttemptRow -> AttemptRow)
    requires StoreInv(s) && SagaCurrent(s, held)
    ensures Reliable(s, LastAttempt(held, f), held.version)
    ensures s.row.version == held.version && (forall a :: !f(a).status.Approved?)
            ==> NoneApproved(LastAttempt(held, f).attempts)
  {
    hide StoreInv;
    StoreAttemptsOk(s);
  }

  /** Every request's second transaction is good. */
  lemma EndGood(c: Cell, rid: nat, a: Action)
    requires CellInv(c) && rid in c.requests
    ensures CellInv(EndStep(c, rid, c.requests[rid], a))
    ensures Advances(c.store, EndStep(c, rid, c.requests[rid], a).store)
  {
    hide StoreInv, Good, Grows, CaptureCommit, VoidCommit, FailCommit, ApproveCommit;
    hide RefundEnd, Reliable, Current, SagaCurrent, After, WithAttempt;
    var r, s, d := c.requests[rid], c.store, EndStep(c, rid, c.requests[rid], a);
    assert Current(s, r);
    match r {
      case Capturing(loaded, want) =>
        if a.EndCapture? {
          var x := if a.reported.currency == want.currency && a.reported.IsPositive() then a.reported else want;
          CaptureGood(s, loaded, x, a.fee, a.now);
          AfterGood(s, CaptureCommit(s, loaded, x, a.fee, a.now));
        }
      case Voiding(loaded) =>
        VoidGood(s, loaded);
        AfterGood(s, VoidCommit(s, loaded));
      case Confirming(seen) => ConfirmGood(s, seen, a);
      case Refunding(held) =>
        if a.EndRefund? {
          RefundEndGood(s, held, a.succeeded);
          AfterGood(s, RefundEnd(s, held, a.succeeded));
        }
    }
    MoveKeeps(c, d);
  }

  lemma ConfirmGood(s: Store, seen: Row, a: Action)
    requires StoreInv(s) && Current(s, Confirming(seen))
    ensures a.EndConfirmFailed? ==> Moved(s, After(s, ConfirmFailed(s, seen, a.code)))
    ensures a.EndConfirmApproved? ==>
              Moved(s, After(s, ConfirmApproved(s, seen, a.captured, a.reported, a.captureOk, a.now)))
  {
    hide StoreInv, Good, Grows, FailCommit, ApproveCommit, Reliable, Current, After, WithAttempt;
    var i := FirstOpen(seen.attempts);
    if a.EndConfirmFailed? {
      if i < |seen.attempts| {
        var f := seen.attempts[i].MarkFailed(AuthenticationFailed, a.code, "");
        ReliableConfirm(s, seen, i, f);
        FailGood(s, WithAttempt(seen, i, f), seen.version, f.provider);
      } else {
        ErrIsGood(s, ConfirmFailed(s, seen, a.code));
      }
      AfterGood(s, ConfirmFailed(s, seen, a.code));
    }
    if a.EndConfirmApproved? {
      if i < |seen.attempts| {
        var f := seen.attempts[i].MarkApproved(seen.reference);
        ReliableConfirm(s, seen, i, f);
        ApproveGood(s, WithAttempt(seen, i, f), seen.version,
                    Approval(f.provider, seen.reference, None, 0, a.captured, a.reported), a.captureOk, a.now);
      } else {
        ErrIsGood(s, ConfirmApproved(s, seen, a.captured, a.reported, a.captureOk, a.now));
      }
      AfterGood(s, ConfirmApproved(s, seen, a.captured, a.reported, a.captureOk, a.now));
    }
  }

  ghost predicate Moved(s: Store, t: Store) {
    StoreInv(t) && (t == s || Grows(s, t))
  }

  lemma BeginGood(c: Cell, a: Action)
    requires CellInv(c) && (a.BeginCapture? || a.BeginVoid? || a.BeginConfirm? || a.BeginRefund?)
    ensures CellInv(BeginStep(c, a)) && Advances(c.store, BeginStep(c, a).store)
  {
    hide StoreInv, Good, Grows, RefundBegin;
    var s, d := c.store, BeginStep(c, a);
    if a.BeginRefund? && a.id != "" {
      RefundBeginGood(s, a.id, a.key, a.amount);
      AfterGood(s, RefundBegin(s, a.id, a.key, a.amount));
    }
    MoveKeeps(c, d);
  }

  /** Rewriting the attempts of a payment that is still created changes nothing the books see. */
  lemma QuietKeeps(c: Cell, p: Row, saga: Option<Row>)
    requires CellInv(c) && c.store.row.status == Created
             && p == c.store.row.(attempts := p.attempts, provider := p.provider)
    requires saga == None || saga == Some(p)
    requires AttemptsOk(p)
    ensures var r := Persist(c.store, p, p.version, []);
            r.Ok? && CellInv(Cell(r.value, saga, c.requests)) && Advances(c.store, r.value)
  {
    hide Chained, OnceEach, SentAddsUp, RefundsAddUp, RefundPart, SumSet;
    var s := c.store;
    var t := s.(row := p);
    assert Persist(s, p, p.version, []) == Ok(t) by { NothingSent(s, p); }
    QuietStore(s, t);
  }

  lemma NothingSent(s: Store, p: Row)
    requires p.version == s.row.version
    ensures Persist(s, p, p.version, []) == Ok(s.(row := p))
  {
    assert s.log + [] == s.log && s.sent + BuildMessages(p, []) == s.sent;
  }

  lemma QuietStore(s: Store, t: Store)
    requires StoreInv(s) && s.row.status == Created && t == s.(row := t.row)
    requires t.row == s.row.(attempts := t.row.attempts, provider := t.row.provider) && AttemptsOk(t.row)
    ensures StoreInv(t)
  {
    hide Chained, SumSet, RefundPart, WorthOf;
    assert t.refunds == map[];
    assert forall m | m in t.sent :: RightMessage(s, m);
    forall pol, k ensures WorthOf(t.sent, pol, k) == View(t, k) {
      assert View(t, k) == View(s, k);
    }
  }

  lemma SagaFailoverGood(c: Cell, held: Row, a: Action)
    requires CellInv(c) && c.saga == Some(held) && (a.SagaFailover? || a.SagaUnknown?)
    ensures CellInv(SagaStep(c, held, a)) && Advances(c.store, SagaStep(c, held, a).store)
  {
    hide StoreInv, Persist, Current;
    var s := c.store;
    var q := LastAttempt(held, Failing(a.category, a.code, a.reference));
    ReliableSaga(s, held, Failing(a.category, a.code, a.reference));
    if s.row.version == held.version {
      if a.SagaUnknown? { QuietKeeps(c, q, None); }
      else if q.StartAttempt(a.provider).Ok? {
        var p := q.StartAttempt(a.provider).value;
        StartedAttemptsOk(q, a.provider);
        QuietKeeps(c, p, Some(p));
      }
    } else {
      StalePersist(s, q, held.version);
      if a.SagaFailover? && q.StartAttempt(a.provider).Ok? {
        StalePersist(s, q.StartAttempt(a.provider).value, held.version);
      }
    }
    if SagaStep(c, held, a).store == s && SagaStep(c, held, a).saga == None { MoveKeeps(c, SagaStep(c, held, a)); }
  }

  lemma StoreAttemptsOk(s: Store)
    requires StoreInv(s)
    ensures AttemptsOk(s.row)
  {
  }

  lemma StartedAttemptsOk(q: Row, prov: string)
    requires q.status == Created && NoneApproved(q.attempts) && q.StartAttempt(prov).Ok?
    ensures AttemptsOk(q.StartAttempt(prov).value)
  {
    var p := q.StartAttempt(prov).value;
    assert forall i | 0 <= i < |p.attempts| - 1 :: p.attempts[i] == q.attempts[i];
  }

  lemma StalePersist(s: Store, p: Row, loaded: nat)
    requires s.row.version != loaded
    ensures Persist(s, p, loaded, []).Err?
  {
  }

  lemma SagaGood(c: Cell, held: Row, a: Action)
    requires CellInv(c) && c.saga == Some(held) && IsSaga(a)
    ensures CellInv(SagaStep(c, held, a)) && Advances(c.store, SagaStep(c, held, a).store)
  {
    hide StoreInv, Good, Grows, PersistChange, FailCommit, ApproveCommit;
    hide Reliable, Current, SagaCurrent, After, LastAttempt;
    var s, d := c.store, SagaStep(c, held, a);
    match a {
      case SagaRequiresAction(ref, expires, now) =>
        var f := (x: AttemptRow) => x.MarkRequiresAction(ref);
        ReliableSaga(s, held, f);
        RequireActionGood(s, LastAttempt(held, f), held.version, ref, expires, now);
        AfterGood(s, PersistChange(s, LastAttempt(held, f).RequireAction(ref, expires, now), held.version));
        MoveKeeps(c, d);
      case SagaFailed(cat, code, ref) =>
        ReliableSaga(s, held, Failing(cat, code, ref));
        FailGood(s, LastAttempt(held, Failing(cat, code, ref)), held.version, LastProvider(held));
        AfterGood(s, FailCommit(s, LastAttempt(held, Failing(cat, code, ref)), held.version, LastProvider(held)));
        MoveKeeps(c, d);
      case SagaApproved(approval, captureOk, now) =>
        var f := (x: AttemptRow) => x.MarkApproved(approval.reference);
        var b := approval.(provider := LastProvider(held));
        ReliableSaga(s, held, f);
        ApproveGood(s, LastAttempt(held, f), held.version, b, captureOk, now);
        AfterGood(s, ApproveCommit(s, LastAttempt(held, f), held.version, b, captureOk, now));
        MoveKeeps(c, d);
      case SagaLost => MoveKeeps(c, d);
      case _ => SagaFailoverGood(c, held, a);
    }
  }

  lemma StepKeepsInv(c: Cell, a: Action)
    requires CellInv(c)
    ensures CellInv(Step(c, a)) && Advances(c.store, Step(c, a).store)
  {
    hide CellInv, SagaStep, BeginStep, EndStep;
    if IsSaga(a) {
      if c.saga.Some? { SagaGood(c, c.saga.value, a); }
    } else if a.Expire? {
      ExpireStepGood(c);
    } else if a.BeginCapture? || a.BeginVoid? || a.BeginConfirm? || a.BeginRefund? {
      BeginGood(c, a);
    } else if a.rid in c.requests {
      EndGood(c, a.rid, a);
    }
  }

  lemma ExpireStepGood(c: Cell)
    requires CellInv(c)
    ensures CellInv(c.(store := After(c.store, ExpireCommit(c.store))))
    ensures Advances(c.store, After(c.store, ExpireCommit(c.store)))
  {
    hide StoreInv, Good, Grows, ExpireCommit, Current, SagaCurrent, After;
    ExpireGood(c.store);
    AfterGood(c.store, ExpireCommit(c.store));
    MoveKeeps(c, c.(store := After(c.store, ExpireCommit(c.store))));
  }

  lemma {:induction false} RunKeepsInv(c: Cell, actions: seq<Action>)
    requires CellInv(c)
    ensures CellInv(Run(c, actions))
  {
    hide CellInv, Step;
    if actions == [] {
    } else {
      RunKeepsInv(c, actions[..|actions| - 1]);
      StepKeepsInv(Run(c, actions[..|actions| - 1]), actions[|actions| - 1]);
    }
  }

  lemma FreshInv(p: NewParams, provider: string, now: int)
    requires Fresh(p, provider, now).Some?
    ensures CellInv(Fresh(p, provider, now).value)
  {
    hide SumSet, Worth, View;
    NewPaymentInv(p, now);
    var c := Fresh(p, provider, now).value;
    FreshLog(c.store);
    SumOfNothing(c.store);
    FreshSent(c.store);
    FreshRight(c.store);
    assert AttemptsOk(c.store.row);
  }

  lemma FreshRight(s: Store)
    requires s.row.captured.amount == 0
    requires |s.sent| == 1 && s.sent[0].typ == PaymentCreated && s.sent[0].payload.CreatedPayload?
    requires |s.log| == 1 && s.log[0].typ == PaymentCreated
    ensures SentRight(s)
  {
    assert s.log[..0] == [];
    assert FeeIn(s.log) == FeeIn([]) == 0;
  }

  lemma FreshLog(s: Store)
    requires |s.log| == 1 && s.log[0].typ == PaymentCreated && s.log[0].seqNo == 1 && s.log[0].from == None
    requires s.row.version == 1 && s.log[0].to == s.row.status
    requires s.row.authorized.amount == s.row.captured.amount == s.row.refunded.amount == s.row.pending.amount == 0
    ensures Chained(s.log) && Rebuilds(s.log, s.row) && OnceEach(s.log, s.row)
  {
    assert s.log[..0] == [];
  }

  lemma SumOfNothing(s: Store)
    requires s.refunds == map[] && s.row.refunded.amount == s.row.pending.amount == 0
    ensures RefundsAddUp(s)
  {
    assert s.refunds.Keys == {};
  }

  lemma FreshSent(s: Store)
    requires s.row.captured.amount == s.row.refunded.amount == s.row.pending.amount == 0
    requires |s.sent| == 1 && s.sent[0].typ == PaymentCreated && |s.log| == 1 && s.log[0].typ == PaymentCreated
    ensures SentAddsUp(s)
  {
    hide EventEffect;
    assert s.log[..0] == [] && s.sent[..0] == [];
    assert FeeIn(s.log) == FeeIn([]) == 0;
    forall pol, k ensures WorthOf(s.sent, pol, k) == View(s, k) {
      NoMoneyMoved(Described(s.sent[0], 1), pol, k);
      assert WorthOf(s.sent, pol, k) == WorthOf([], pol, k) + Worth(s.sent[0], pol, k);
      assert View(s, k) == 0;
    }
  }

  // ---- what this means for a payment and its requests ----

  /** A payment some requests, in some interleaving, can lead to. */
  ghost predicate Reachable(c: Cell) {
    exists p, provider, now, actions :: Fresh(p, provider, now).Some?
        && c == Run(Fresh(p, provider, now).value, actions)
  }

  lemma ReachableInv(c: Cell)
    requires Reachable(c)
    ensures CellInv(c)
  {
    hide Run, Fresh, CellInv;
    var p, provider, now, actions :| Fresh(p, provider, now).Some? && c == Run(Fresh(p, provider, now).value, actions);
    FreshInv(p, provider, now);
    RunKeepsInv(Fresh(p, provider, now).value, actions);
  }

  /** Any number of requests in any interleaving: amounts stay nested, the status says how far they
      got, refunds add up to the amounts they are counted in, and each message sent is worth what the
      rows say. */
  lemma PaymentsStayInOrder(c: Cell)
    requires Reachable(c)
    ensures var p := c.store.row;
            && 0 <= p.refunded.amount + p.pending.amount <= p.captured.amount <= p.authorized.amount <= p.amount.amount
            && (p.status == Refunded <==> p.refunded.amount == p.captured.amount > 0)
            && (p.status == PartiallyRefunded <==> 0 < p.refunded.amount < p.captured.amount)
            && p.pending.amount == SumSet(c.store.refunds.Keys, RefundPart(c.store.refunds, RefundPending))
            && p.refunded.amount == SumSet(c.store.refunds.Keys, RefundPart(c.store.refunds, RefundSettled))
            && SentAddsUp(c.store)
  {
    hide Reachable, SumSet, RefundPart, Chained, Rebuilds, OnceEach, SentAddsUp;
    ReachableInv(c);
  }

  /** Concurrent requests commit one after the other: numbers run without gap or repeat, each event
      starts from the status the last one ended in, the events rebuild the row, and there is at most one
      authorization and one capture. */
  lemma EventsTellTheWholeStory(c: Cell)
    requires Reachable(c)
    ensures Chained(c.store.log) && Rebuilds(c.store.log, c.store.row)
    ensures CountOf(c.store.log, PaymentAuthorized) <= 1 && CountOf(c.store.log, PaymentCaptured) <= 1
  {
    hide Reachable, Chained, Rebuilds, SentAddsUp, RefundsAddUp, RefundsOk;
    ReachableInv(c);
  }

  /** However the saga and confirmations interleave, at most one attempt is open and at most one approved, and
      none is approved while the payment still waits for an authorization. */
  lemma AttemptsStayExclusive(c: Cell, i: nat, j: nat)
    requires Reachable(c) && i < j < |c.store.row.attempts|
    ensures var made := c.store.row.attempts;
            && !(made[i].status.IsOpen() && made[j].status.IsOpen())
            && !(made[i].status.Approved? && made[j].status.Approved?)
            && (c.store.row.status == Created || c.store.row.status == RequiresAction ==>
                  !made[i].status.Approved? && !made[j].status.Approved?)
  {
    hide Reachable, StoreInv, Current, SagaCurrent;
    ReachableInv(c);
    StoreAttemptsOk(c.store);
  }

  /** What stays: events and messages already written, refunds already settled, and a payment that has ended. */
  predicate Later(s: Store, t: Store) {
    && s.log <= t.log && s.sent <= t.sent && s.row.version <= t.row.version
    && (forall id | id in s.refunds ::
          id in t.refunds && (s.refunds[id].status != RefundPending ==> t.refunds[id] == s.refunds[id]))
    && (IsTerminal(s.row.status) ==> t == s)
  }

  /** The keys a payment and its refunds were created under never change. */
  predicate KeepsKeys(s: Store, t: Store) {
    && t.row.merchant == s.row.merchant && t.row.key == s.row.key && t.row.requestHash == s.row.requestHash
    && forall id | id in s.refunds :: id in t.refunds && t.refunds[id].key == s.refunds[id].key
  }

  lemma AdvancesKeepsKeys(s: Store, t: Store)
    requires Advances(s, t)
    ensures KeepsKeys(s, t)
  {
    hide IsTerminal;
  }

  /** A refund is only ever added by a request for it, under a key new to the payment. */
  lemma NewRefundsWereAskedFor(c: Cell, a: Action, id: string)
    requires CellInv(c) && id !in c.store.refunds && id in Step(c, a).store.refunds
    ensures a.BeginRefund? && id == a.id && Step(c, a).store.refunds[id].key == a.key
    ensures !KeyTaken(c.store.refunds, a.key)
  {
    hide StoreInv, SagaCurrent, KeyTaken, Approve, CanTransition, FirstOpen, BuildMessages;
    hide Row.Capture, Row.Void, Row.Fail, Row.Expire, Row.ReserveRefund, Row.MarkRefunded, Row.ReleaseRefund;
    hide Row.RequireAction, Row.StartAttempt;
  }

  lemma AdvancesIsLater(s: Store, t: Store)
    requires Advances(s, t)
    ensures Later(s, t)
  {
  }

  lemma LaterStill(s: Store, t: Store, u: Store)
    requires Later(s, t) && Later(t, u)
    ensures Later(s, u)
  {
    hide IsTerminal;
    forall id | id in s.refunds
      ensures id in u.refunds && (s.refunds[id].status != RefundPending ==> u.refunds[id] == s.refunds[id])
    {
      assert id in t.refunds;
    }
    assert s.log <= u.log && s.sent <= u.sent;
  }

  /** Over any run, a settled refund is never settled again, voided, failed and expired payments never
      change, and history is only added to. */
  lemma {:induction false} HistoryIsKept(c: Cell, actions: seq<Action>)
    requires CellInv(c)
    ensures Later(c.store, Run(c, actions).store)
  {
    hide CellInv, Step, Later, Advances;
    if actions != [] {
      var mid := Run(c, actions[..|actions| - 1]);
      HistoryIsKept(c, actions[..|actions| - 1]);
      RunKeepsInv(c, actions[..|actions| - 1]);
      StepKeepsInv(mid, actions[|actions| - 1]);
      AdvancesIsLater(mid.store, Step(mid, actions[|actions| - 1]).store);
      LaterStill(c.store, mid.store, Step(mid, actions[|actions| - 1]).store);
    } else {
      SelfLater(c.store);
    }
  }

  lemma SelfLater(s: Store)
    ensures Later(s, s)
  {
  }

  /** A pending refund can be settled either way at any time. */
  lemma PendingRefundsCanSettle(c: Cell, id: string, succeeded: bool)
    requires CellInv(c) && id in c.store.refunds && c.store.refunds[id].status == RefundPending
    ensures RefundEnd(c.store, c.store.refunds[id], succeeded).Ok?
  {
    hide StoreInv, RefundEnd;
    assert RefundsOk(c.store) by { StoreRefundsOk(c.store); }
    RefundEndGood(c.store, c.store.refunds[id], succeeded);
  }

  lemma StoreRefundsOk(s: Store)
    requires StoreInv(s)
    ensures RefundsOk(s)
  {
  }

  /** A request writes only when nothing moved since it looked: what it remembers is what is stored.
      So no update is lost, and a stale request leaves no trace. */
  lemma WritesAreFresh(c: Cell, rid: nat, a: Action)
    requires CellInv(c) && rid in c.requests && EndStep(c, rid, c.requests[rid], a).store != c.store
    ensures match c.requests[rid]
            case Capturing(loaded, _) => loaded == c.store.row.version
            case Voiding(loaded) => loaded == c.store.row.version
            case Confirming(seen) => seen == c.store.row
            case Refunding(held) => c.store.refunds[held.id] == held
  {
    hide StoreInv;
    assert Current(c.store, c.requests[rid]);
    match c.requests[rid] {
      case Capturing(loaded, _) =>
      case Voiding(loaded) =>
      case Confirming(seen) => StaleConfirm(c.store, seen, a);
      case Refunding(held) => StaleRefund(c.store, held, a);
    }
  }

  lemma StaleConfirm(s: Store, seen: Row, a: Action)
    ensures seen.version != s.row.version && a.EndConfirmFailed? ==> ConfirmFailed(s, seen, a.code).Err?
    ensures seen.version != s.row.version && a.EndConfirmApproved? ==>
              ConfirmApproved(s, seen, a.captured, a.reported, a.captureOk, a.now).Err?
  {
    hide Grows;
    var i := FirstOpen(seen.attempts);
    if seen.version != s.row.version && i < |seen.attempts| && a.EndConfirmApproved? {
      var f := seen.attempts[i].MarkApproved(seen.reference);
      ApproveStale(s, WithAttempt(seen, i, f), seen.version,
                   Approval(f.provider, seen.reference, None, 0, a.captured, a.reported), a.captureOk, a.now);
    }
  }

  lemma StaleRefund(s: Store, held: RefundRow, a: Action)
    requires held.id in s.refunds
    ensures a.EndRefund? && s.refunds[held.id].version != held.version ==> RefundEnd(s, held, a.succeeded).Err?
  {
  }
}

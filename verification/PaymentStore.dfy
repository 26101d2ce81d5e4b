/** The payment service's transactions: each reads a row, changes it in memory, and writes it back
    with its events only if nobody else wrote in between. */
module PaymentStore {
  import opened Wrappers
  import opened Amounts
  import opened Payments
  import opened Messages
  import opened Templates

  /** The committed rows of one payment: itself, its refunds by id, its events, and what was sent. */
  datatype Store = Store(row: Row, refunds: map<string, RefundRow>, log: seq<Event>, sent: seq<Message>)

  /** A transaction either commits a new store or leaves none of its writes behind. */
  type TxResult = Result<Store, PaymentError>

  /** The one write path: refused when the version moved on, otherwise row, events and messages together. */
  function Persist(s: Store, p: Row, expected: nat, events: seq<Event>): TxResult {
    if s.row.version != expected then Err(ConcurrentModification)
    else Ok(s.(row := p, log := s.log + events, sent := s.sent + BuildMessages(p, events)))
  }

  function PersistChange(s: Store, c: Change, expected: nat): TxResult {
    match c
    case Refused(error) => Err(error)
    case Changed(row, event) => Persist(s, row, expected, [event])
  }

  /** Second half of a capture: the provider has said yes, with a fee and perhaps another amount. */
  function CaptureCommit(s: Store, loaded: nat, x: Money, fee: int64, now: int): TxResult {
    if s.row.version != loaded then Err(ConcurrentModification)
    else PersistChange(s, s.row.Capture(x, fee, now), loaded)
  }

  function VoidCommit(s: Store, loaded: nat): TxResult {
    if s.row.version != loaded then Err(ConcurrentModification) else PersistChange(s, s.row.Void(), loaded)
  }

  /** A failed confirmation or authorization, decided on the copy read before. */
  function FailCommit(s: Store, p: Row, loaded: nat, prov: string): TxResult {
    PersistChange(s, p.Fail(prov), loaded)
  }

  function ExpireCommit(s: Store): TxResult {
    PersistChange(s, s.row.Expire(), s.row.version)
  }

  /** What the provider reported about an authorization; an amount of zero means none was reported. */
  datatype Approval = Approval(provider: string, reference: string, authExpiry: Option<int>, fee: int64, captured: bool,
                               reported: Money)

  datatype Write = Write(row: Row, events: seq<Event>)

  /** An authorization and, for automatic capture, the capture that follows it in the same write.
      When the immediate capture fails at the provider the authorization alone is kept. */
  function Approve(p: Row, a: Approval, captureOk: bool, now: int): Result<Write, PaymentError> {
    match p.Authorize(a.provider, a.reference, a.authExpiry, a.fee, now)
    case Refused(error) => Err(error)
    case Changed(authorized, evAuth) =>
      if p.captureMethod != Automatic || (!a.captured && !captureOk) then Ok(Write(authorized, [evAuth]))
      else
        match authorized.Capture(if a.reported.IsPositive() then a.reported else p.amount, a.fee, now)
        case Refused(error) => Err(error)
        case Changed(captured, evCap) => Ok(Write(captured, [evAuth, evCap]))
  }

  function ApproveCommit(s: Store, p: Row, loaded: nat, a: Approval, captureOk: bool, now: int): TxResult {
    match Approve(p, a, captureOk, now)
    case Err(error) => Err(error)
    case Ok(w) => Persist(s, w.row, loaded, w.events)
  }

  predicate KeyTaken(refunds: map<string, RefundRow>, key: string) {
    exists id :: id in refunds && refunds[id].key == key
  }

  /** First half of a refund: reserve the amount and record the refund as pending. */
  function RefundBegin(s: Store, id: string, key: string, want: Option<Money>): TxResult {
    var r := NewRefund(s.row, id, key, if want.Some? then want.value else s.row.AvailableToRefund());
    match s.row.ReserveRefund(r)
    case Refused(error) => Err(error)
    case Changed(row, event) =>
      if id in s.refunds || KeyTaken(s.refunds, key) then Err(ConcurrentModification)
      else Persist(s.(refunds := s.refunds[id := r]), row, s.row.version, [event])
  }

  /** Second half of a refund: settle it one way or the other, unless its row has moved on. */
  function RefundEnd(s: Store, held: RefundRow, succeeded: bool): TxResult {
    match if succeeded then held.Succeed() else held.Fail()
    case Err(error) => Err(error)
    case Ok(r) =>
      match if succeeded then s.row.MarkRefunded(r) else s.row.ReleaseRefund(r)
      case Refused(error) => Err(error)
      case Changed(row, event) =>
        if held.id !in s.refunds || s.refunds[held.id].version != held.version then Err(ConcurrentModification)
        else Persist(s.(refunds := s.refunds[held.id := r]), row, s.row.version, [event])
  }

  /** A refund may leave its reason open. */
  predicate ValidReason(reason: string) {
    reason in {"", "requested_by_customer", "duplicate", "fraudulent", "other"}
  }

  datatype RefundAnswer = Begun(refund: RefundRow) | Replayed(refund: RefundRow)

  lemma BegunIsRecorded(s: Store, id: string, key: string, want: Option<Money>)
    requires RefundBegin(s, id, key, want).Ok?
    ensures var refunds := RefundBegin(s, id, key, want).value.refunds;
            id in refunds && refunds[id].id == id && refunds[id].key == key && refunds[id].status == RefundPending
  {
  }

  class PaymentService {
    var row: Row
    var refunds: map<string, RefundRow>
    var log: seq<Event>
    var sent: seq<Message>

    function State(): Store
      reads this
    {
      Store(row, refunds, log, sent)
    }

    constructor (s: Store)
      ensures State() == s
    {
      row, refunds, log, sent := s.row, s.refunds, s.log, s.sent;
    }

    method AppendEvents(p: Row, events: seq<Event>)
      modifies this`log, this`sent
      ensures log == old(log) + events && sent == old(sent) + BuildMessages(p, events)
    {
      for i := 0 to |events|
        invariant log == old(log) + events[..i] && sent == old(sent) + BuildMessages(p, events[..i])
      {
        assert events[..i + 1][..i] == events[..i];
        log := log + [events[i]];
        sent := sent + [BuildMessage(p, events[i])];
      }
      assert events[..|events|] == events;
    }

    /** Writes the row if it still has the expected version, and appends its events. */
    method PersistRow(p: Row, expected: nat, events: seq<Event>) returns (r: Outcome<PaymentError>)
      modifies this
      ensures match Persist(old(State()), p, expected, events)
              case Ok(s) => r == Pass && State() == s
              case Err(error) => r == Outcome.Fail(error) && State() == old(State())
    {
      if row.version != expected { return Outcome.Fail(ConcurrentModification); }
      row := p;
      AppendEvents(p, events);
      return Pass;
    }

    method CommitCapture(loaded: nat, x: Money, fee: int64, now: int) returns (r: Outcome<PaymentError>)
      modifies this
      ensures match CaptureCommit(old(State()), loaded, x, fee, now)
              case Ok(s) => r == Pass && State() == s
              case Err(error) => r == Outcome.Fail(error) && State() == old(State())
    {
      var cur := new Payment(row);
      if cur.version != loaded { return Outcome.Fail(ConcurrentModification); }
      var ev := cur.Capture(x, fee, now);
      if ev.Err? { return Outcome.Fail(ev.error); }
      r := PersistRow(cur.State(), loaded, [ev.value]);
    }

    method CommitVoid(loaded: nat) returns (r: Outcome<PaymentError>)
      modifies this
      ensures match VoidCommit(old(State()), loaded)
              case Ok(s) => r == Pass && State() == s
              case Err(error) => r == Outcome.Fail(error) && State() == old(State())
    {
      var cur := new Payment(row);
      if cur.version != loaded { return Outcome.Fail(ConcurrentModification); }
      var ev := cur.Void();
      if ev.Err? { return Outcome.Fail(ev.error); }
      r := PersistRow(cur.State(), loaded, [ev.value]);
    }

    method CommitFailure(held: Row, loaded: nat, prov: string) returns (r: Outcome<PaymentError>)
      modifies this
      ensures match FailCommit(old(State()), held, loaded, prov)
              case Ok(s) => r == Pass && State() == s
              case Err(error) => r == Outcome.Fail(error) && State() == old(State())
    {
      var p := new Payment(held);
      var ev := p.Fail(prov);
      if ev.Err? { return Outcome.Fail(ev.error); }
      r := PersistRow(p.State(), loaded, [ev.value]);
    }

    method ApplyApproved(held: Row, loaded: nat, a: Approval, captureOk: bool, now: int)
      returns (r: Outcome<PaymentError>)
      modifies this
      ensures match ApproveCommit(old(State()), held, loaded, a, captureOk, now)
              case Ok(s) => r == Pass && State() == s
              case Err(error) => r == Outcome.Fail(error) && State() == old(State())
    {
      hide CanTransition;
      var p := new Payment(held);
      var auth := p.Authorize(a.provider, a.reference, a.authExpiry, a.fee, now);
      if auth.Err? { return Outcome.Fail(auth.error); }
      var events := [auth.value];
      if held.captureMethod == Automatic {
        var x := held.amount;
        if a.reported.IsPositive() { x := a.reported; }
        if !a.captured && !captureOk {
          r := PersistRow(p.State(), loaded, events);
          return;
        }
        var cap := p.Capture(x, a.fee, now);
        if cap.Err? { return Outcome.Fail(cap.error); }
        events := events + [cap.value];
        assert events == [auth.value, cap.value];
      }
      r := PersistRow(p.State(), loaded, events);
    }

    method BeginRefund(id: string, key: string, want: Option<Money>) returns (r: Outcome<PaymentError>)
      modifies this
      ensures match RefundBegin(old(State()), id, key, want)
              case Ok(s) => r == Pass && State() == s
              case Err(error) => r == Outcome.Fail(error) && State() == old(State())
    {
      var cur := new Payment(row);
      var x := cur.State().AvailableToRefund();
      if want.Some? { x := want.value; }
      var rf := NewRefund(cur.State(), id, key, x);
      var base := cur.version;
      var ev := cur.ReserveRefund(rf);
      if ev.Err? { return Outcome.Fail(ev.error); }
      if id in refunds || KeyTaken(refunds, key) { return Outcome.Fail(ConcurrentModification); }
      refunds := refunds[id := rf];
      r := PersistRow(cur.State(), base, [ev.value]);
    }

    /** A whole refund request up to its first write. A key the merchant used before, on this payment or as
        elsewhere says on another, is answered with that refund. late is a refund another request recorded
        under the key since the lookup: the transaction is rolled back and late is the answer. */
    method CreateRefund(id: string, key: string, reason: string, want: Option<Money>, elsewhere: Option<RefundRow>,
                        late: Option<RefundRow>) returns (r: Result<RefundAnswer, PaymentError>)
      modifies this
      ensures key == "" ==> r == Err(MethodMissing)
      ensures key != "" && KeyTaken(old(refunds), key) ==>
                r.Ok? && r.value.Replayed? && r.value.refund in old(refunds).Values && r.value.refund.key == key
      ensures key != "" && !KeyTaken(old(refunds), key) && elsewhere.Some? ==> r == Ok(Replayed(elsewhere.value))
      ensures key != "" && !KeyTaken(old(refunds), key) && elsewhere.None? && !ValidReason(reason) ==>
                r == Err(InvalidTransition)
      ensures key != "" && !KeyTaken(old(refunds), key) && elsewhere.None? && ValidReason(reason) ==>
                match RefundBegin(old(State()), id, key, want)
                case Err(error) => r == Err(error)
                case Ok(s) => r == Ok(if late.Some? then Replayed(late.value) else Begun(s.refunds[id]))
      ensures State() == if r.Ok? && r.value.Begun? then RefundBegin(old(State()), id, key, want).value
                         else old(State())
    {
      hide Row.ReserveRefund, Persist;
      if key == "" { return Err(MethodMissing); }
      if KeyTaken(refunds, key) {
        var earlier :| earlier in refunds && refunds[earlier].key == key;
        return Ok(Replayed(refunds[earlier]));
      }
      if elsewhere.Some? { return Ok(Replayed(elsewhere.value)); }
      if !ValidReason(reason) { return Err(InvalidTransition); }
      var before := State();
      var done := BeginRefund(id, key, want);
      if done.Fail? { return Err(done.error); }
      if late.Some? {
        row, refunds, log, sent := before.row, before.refunds, before.log, before.sent;
        return Ok(Replayed(late.value));
      }
      BegunIsRecorded(before, id, key, want);
      return Ok(Begun(refunds[id]));
    }

    method EndRefund(held: RefundRow, succeeded: bool) returns (r: Outcome<PaymentError>)
      modifies this
      ensures match RefundEnd(old(State()), held, succeeded)
              case Ok(s) => r == Pass && State() == s
              case Err(error) => r == Outcome.Fail(error) && State() == old(State())
    {
      var cur := new Payment(row);
      var rf := new Refund(held);
      var base := cur.version;
      var done, ev;
      if succeeded {
        done := rf.Succeed();
        if done.Fail? { return Outcome.Fail(done.error); }
        ev := cur.MarkRefunded(rf.State());
      } else {
        done := rf.Fail();
        if done.Fail? { return Outcome.Fail(done.error); }
        ev := cur.ReleaseRefund(rf.State());
      }
      if ev.Err? { return Outcome.Fail(ev.error); }
      if held.id !in refunds || refunds[held.id].version != held.version {
        return Outcome.Fail(ConcurrentModification);
      }
      refunds := refunds[held.id := rf.State()];
      r := PersistRow(cur.State(), base, [ev.value]);
    }
  }
}

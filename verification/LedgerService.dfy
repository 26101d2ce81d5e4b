/** The ledger's use cases: posting, reversing and consuming payment events, each one transaction,
    and what holds of the ledger after any run of them. */
module LedgerService {
  import opened Wrappers
  import opened Amounts
  import opened Accounts
  import opened Journals
  import opened Balances
  import opened Templates

  datatype AccountStatus = Active | Frozen | Closed

  /** The committed rows. Journals are in posting order; the outbox lists the journals announced. */
  datatype Ledger = Ledger(journals: seq<Journal>, accounts: map<AccountKey, AccountStatus>, balances: Amts,
                           inbox: set<nat>, outbox: seq<nat>, nextId: nat)

  const EMPTY: Ledger := Ledger([], map[], map[], {}, [], 1)

  datatype Reply = Reply(journal: Journal, replayed: bool)

  datatype Tx = Aborted(error: LedgerError) | Committed(state: Ledger, reply: Reply)

  datatype Step = Step(state: Ledger, result: Result<Reply, LedgerError>)

  // ---- reading journals ----

  /** The first journal that reverses id. */
  function Reverser(js: seq<Journal>, id: nat): Option<nat> {
    if js == [] then None
    else if Reverser(js[..|js| - 1], id).Some? then Reverser(js[..|js| - 1], id)
    else if js[|js| - 1].reversalOf == Some(id) then Some(js[|js| - 1].id) else None
  }

  function ById(js: seq<Journal>, id: nat): Option<Journal> {
    if js == [] then None else if js[|js| - 1].id == id then Some(js[|js| - 1]) else ById(js[..|js| - 1], id)
  }

  function ByEvent(js: seq<Journal>, eventId: nat): Option<Journal> {
    if js == [] then None
    else if js[|js| - 1].eventId == eventId then Some(js[|js| - 1]) else ByEvent(js[..|js| - 1], eventId)
  }

  /** A journal as a reader sees it: with the journal that reversed it, if any. */
  function Seen(js: seq<Journal>, j: Option<Journal>): Option<Journal> {
    match j
    case None => None
    case Some(v) => Some(v.(reversedBy := Reverser(js, v.id)))
  }

  function GetById(js: seq<Journal>, id: nat): Option<Journal> {
    Seen(js, ById(js, id))
  }

  function GetByEvent(js: seq<Journal>, eventId: nat): Option<Journal> {
    Seen(js, ByEvent(js, eventId))
  }

  /** The newest pending-refund journal of a refund. */
  function NewestPending(js: seq<Journal>, refId: RefId): Option<Journal> {
    if js == [] then None
    else
      var last := js[|js| - 1];
      if last.refType == RefRefund && last.refId == refId && last.template == JRefPend then Some(last)
      else NewestPending(js[..|js| - 1], refId)
  }

  // ---- posting ----

  /** Accounts created on first use; an account that is not active stops the posting. */
  function Ensured(accts: map<AccountKey, AccountStatus>, keys: seq<AccountKey>)
    : Result<map<AccountKey, AccountStatus>, LedgerError>
  {
    if keys == [] then Ok(accts)
    else match Ensured(accts, keys[..|keys| - 1])
      case Err(error) => Err(error)
      case Ok(m) => EnsuredOne(m, keys[|keys| - 1])
  }

  function EnsuredOne(m: map<AccountKey, AccountStatus>, k: AccountKey)
    : Result<map<AccountKey, AccountStatus>, LedgerError>
  {
    if k in m then if m[k] == Active then Ok(m) else Err(AccountInactive)
    else match k.Validate()
      case Fail(error) => Err(error)
      case Pass => Ok(m[k := Active])
  }

  /** The stored balances after the entries, none of which may leave the bigint range. */
  function Stored(b: Amts, es: seq<Entry>): Option<Amts> {
    if es == [] then Some(b)
    else match Stored(b, es[..|es| - 1])
      case None => None
      case Some(m) => StoredOne(m, LineOf(es[|es| - 1]))
  }

  function StoredOne(m: Amts, l: Line): Option<Amts> {
    var sum := Of(m, l.account) + Delta(l);
    if MIN_INT64 <= sum <= MAX_INT64 then Some(m[l.account := sum]) else None
  }

  /** A reversal must name a journal that is still unreversed and mirror it. */
  function ReversalFault(js: seq<Journal>, j: Journal): Option<LedgerError> {
    if j.reversalOf.None? then None
    else match ReversalVerdict(GetById(js, j.reversalOf.value), j)
      case Pass => None
      case Fail(error) => Some(error)
  }

  function IdFor(s: Ledger, j: Journal): nat {
    if j.id == NIL then s.nextId else j.id
  }

  function PostTx(s: Ledger, j: Journal): Tx {
    if ByEvent(s.journals, j.eventId).Some? then Committed(s, Reply(GetByEvent(s.journals, j.eventId).value, true))
    else if ReversalFault(s.journals, j).Some? then Aborted(ReversalFault(s.journals, j).value)
    else match Ensured(s.accounts, AccountKeysOf(j.entries))
      case Err(error) => Aborted(error)
      case Ok(accts) =>
        var id := IdFor(s, j);
        if ById(s.journals, id).Some? then Aborted(DuplicateEvent)
        else match Stored(s.balances, j.entries)
          case None => Aborted(BalanceOutOfRange)
          case Some(b) =>
            var posted := j.(id := id, reversedBy := None);
            Committed(Ledger(s.journals + [posted], accts, b, s.inbox, s.outbox + [id],
                             if id < s.nextId then s.nextId else id + 1),
                      Reply(posted, false))
  }

  function PostJournal(s: Ledger, j: Journal): Step {
    match Verdict(j)
    case Fail(error) => Step(s, Err(error))
    case Pass =>
      match PostTx(s, j)
      case Committed(t, reply) => Step(t, Ok(reply))
      case Aborted(error) =>
        if error == DuplicateEvent then Step(s, AfterDuplicate(s.journals, j.eventId)) else Step(s, Err(error))
  }

  /** A key that was already taken: the journal holding the event id is the answer, if there is one. */
  function AfterDuplicate(js: seq<Journal>, eventId: nat): Result<Reply, LedgerError> {
    match GetByEvent(js, eventId)
    case Some(existing) => Ok(Reply(existing, true))
    case None => Err(DuplicateEvent)
  }

  /** A reversal asked for by an operator; eventId stands for the idempotency key, None for a blank one. */
  function ReverseJournal(s: Ledger, id: nat, eventId: Option<nat>): Step {
    if eventId.None? then Step(s, Err(EventIdMissing))
    else if ByEvent(s.journals, eventId.value).Some?
    then Step(s, Ok(Reply(GetByEvent(s.journals, eventId.value).value, true)))
    else if ById(s.journals, id).None? then Step(s, Err(JournalNotFound))
    else match ReverseResult(GetById(s.journals, id), eventId.value)
      case Err(error) => Step(s, Err(error))
      case Ok(rev) => PostJournal(s, rev)
  }

  /** eventId stands for the idempotency key, None for a blank one. */
  datatype ManualInput = ManualInput(key: string, eventId: Option<nat>, merchant: nat, live: bool, source: Source,
                                     sourceId: string, refType: Option<RefType>, refId: string, hasDescription: bool,
                                     reverses: Option<nat>, entries: seq<Entry>)

  function ManualFault(inp: ManualInput): Option<LedgerError> {
    if inp.eventId.None? then Some(EventIdMissing)
    else if inp.source == PaymentEventSource then Some(ParameterInvalid)
    else if !inp.hasDescription then Some(ParameterMissing)
    else if |inp.entries| < 2 then Some(TooFewEntries)
    else if inp.reverses.Some? && inp.source != ReversalSource then Some(ParameterInvalid)
    else None
  }

  /** The first account of the input that does not exist or may not be posted to. */
  function AccountFault(accts: map<AccountKey, AccountStatus>, es: seq<Entry>): Option<LedgerError> {
    if es == [] then None
    else if AccountFault(accts, es[..|es| - 1]).Some? then AccountFault(accts, es[..|es| - 1])
    else if es[|es| - 1].account !in accts then Some(AccountNotFound)
    else if accts[es[|es| - 1].account] != Active then Some(AccountInactive) else None
  }

  function RefTypeOf(inp: ManualInput): RefType {
    match inp.refType
    case Some(r) => r
    case None =>
      if inp.source == ReversalSource then RefReversal
      else if inp.source == Payout then RefSettlement else RefAdjustment
  }

  /** What the journal refers to: the reference given, else the source's id, else the key. */
  function RefIdOf(inp: ManualInput): RefId {
    Named(if inp.refId != "" then inp.refId else if inp.sourceId != "" then inp.sourceId else inp.key)
  }

  function ManualJournal(inp: ManualInput, eventId: nat): Journal {
    Journal(NIL, eventId, inp.merchant, inp.live, inp.source, RefTypeOf(inp), RefIdOf(inp),
            if inp.source == ReversalSource then JRev else Untemplated, inp.reverses, None, inp.entries)
  }

  function PostManual(s: Ledger, inp: ManualInput): Step {
    if ManualFault(inp).Some? then Step(s, Err(ManualFault(inp).value))
    else if AccountFault(s.accounts, inp.entries).Some? then Step(s, Err(AccountFault(s.accounts, inp.entries).value))
    else PostJournal(s, ManualJournal(inp, inp.eventId.value))
  }

  // ---- consuming payment events ----

  /** A failed refund is linked to its pending journal when that is unreversed and mirrored. */
  function Linked(js: seq<Journal>, j: Journal): Journal {
    if j.template != JRefFail || NewestPending(js, j.refId).None? then j
    else
      var pend := NewestPending(js, j.refId).value;
      if Reverser(js, pend.id).Some? || !Mirrors(pend.entries, j.entries) then j
      else j.(reversalOf := Some(pend.id))
  }

  datatype Handled = Handled(state: Ledger, result: Outcome<LedgerError>)

  function Handle(s: Ledger, ev: PaymentEvent, pol: Policy): Handled {
    if ev.eventId in s.inbox then Handled(s, Pass)
    else
      var marked := s.(inbox := s.inbox + {ev.eventId});
      match TemplateFor(ev, pol)
      case Err(error) => if error == NoTemplate then Handled(marked, Pass) else Handled(s, Fail(PoisonMessage))
      case Ok(j) =>
        match PostTx(marked, Linked(s.journals, j))
        case Aborted(error) => Handled(s, Fail(error))
        case Committed(t, _) => Handled(t, Pass)
  }

  class Service {
    var journals: seq<Journal>
    var accounts: map<AccountKey, AccountStatus>
    var balances: Amts
    var inbox: set<nat>
    var outbox: seq<nat>
    var nextId: nat
    const policy: Policy

    function State(): Ledger
      reads this
    {
      Ledger(journals, accounts, balances, inbox, outbox, nextId)
    }

    constructor (pol: Policy)
      ensures State() == EMPTY && policy == pol
    {
      policy := pol;
      journals, accounts, balances, inbox, outbox, nextId := [], map[], map[], {}, [], 1;
    }

    /** Rolls the transaction back to the rows it started from. */
    method Rollback(s: Ledger)
      modifies this
      ensures State() == s
    {
      journals, accounts, balances, inbox, outbox, nextId :=
        s.journals, s.accounts, s.balances, s.inbox, s.outbox, s.nextId;
    }

    method EnsureAccounts(keys: seq<AccountKey>) returns (r: Outcome<LedgerError>)
      modifies this`accounts
      ensures match Ensured(old(accounts), keys)
              case Ok(m) => r == Pass && accounts == m
              case Err(error) => r == Fail(error)
    {
      for i := 0 to |keys|
        invariant Ensured(old(accounts), keys[..i]) == Ok(accounts)
      {
        assert keys[..i + 1][..i] == keys[..i];
        var one := EnsuredOne(accounts, keys[i]);
        if one.Err? {
          EnsuredErr(old(accounts), keys, i + 1);
          return Fail(one.error);
        }
        accounts := one.value;
      }
      assert keys[..|keys|] == keys;
      return Pass;
    }

    method InsertEntries(es: seq<Entry>) returns (ok: bool)
      modifies this`balances
      ensures match Stored(old(balances), es)
              case Some(b) => ok && balances == b
              case None => !ok
    {
      for i := 0 to |es|
        invariant Stored(old(balances), es[..i]) == Some(balances)
      {
        assert es[..i + 1][..i] == es[..i];
        var one := StoredOne(balances, LineOf(es[i]));
        if one.None? {
          StoredNone(old(balances), es, i + 1);
          return false;
        }
        balances := one.value;
      }
      assert es[..|es|] == es;
      return true;
    }

    /** The part of posting that runs inside the caller's transaction. */
    method PostJournalTx(j: Journal) returns (r: Result<Reply, LedgerError>)
      modifies this
      ensures match PostTx(old(State()), j)
              case Committed(t, reply) => r == Ok(reply) && State() == t
              case Aborted(error) => r == Err(error)
    {
      hide Verdict, ReversalVerdict, AccountKeysOf, Ensured, Stored, ById, ByEvent, Reverser;
      var existing := GetByEvent(journals, j.eventId);
      if existing.Some? { return Ok(Reply(existing.value, true)); }
      if j.reversalOf.Some? {
        var v := ValidateReversal(GetById(journals, j.reversalOf.value), j);
        if v.Fail? { return Err(v.error); }
      }
      var keys := AccountKeys(j);
      var resolved := EnsureAccounts(keys);
      if resolved.Fail? { return Err(resolved.error); }
      var id := if j.id == NIL then nextId else j.id;
      if ById(journals, id).Some? { return Err(DuplicateEvent); }
      var posted := j.(id := id, reversedBy := None);
      journals := journals + [posted];
      var ok := InsertEntries(j.entries);
      if !ok { return Err(BalanceOutOfRange); }
      outbox := outbox + [id];
      nextId := if id < nextId then nextId else id + 1;
      return Ok(Reply(posted, false));
    }

    method Post(j: Journal) returns (r: Result<Reply, LedgerError>)
      modifies this
      ensures Step(State(), r) == PostJournal(old(State()), j)
    {
      hide Verdict, PostTx, ByEvent, ValidJournal;
      var v := Validate(j);
      if v.Fail? { return Err(v.error); }
      var saved := State();
      r := PostJournalTx(j);
      if r.Err? {
        Rollback(saved);
        if r.error == DuplicateEvent {
          var existing := GetByEvent(journals, j.eventId);
          if existing.Some? { r := Ok(Reply(existing.value, true)); }
        }
      }
    }

    method ReverseById(id: nat, eventId: Option<nat>) returns (r: Result<Reply, LedgerError>)
      modifies this
      ensures Step(State(), r) == ReverseJournal(old(State()), id, eventId)
    {
      hide PostJournal, ReverseResult, ById, ByEvent, Reverser;
      if eventId.None? { return Err(EventIdMissing); }
      var existing := GetByEvent(journals, eventId.value);
      if existing.Some? { return Ok(Reply(existing.value, true)); }
      var orig := GetById(journals, id);
      if orig.None? { return Err(JournalNotFound); }
      var rev := Reverse(orig, eventId.value);
      if rev.Err? { return Err(rev.error); }
      r := Post(rev.value);
    }

    method PostManualJournal(inp: ManualInput) returns (r: Result<Reply, LedgerError>)
      modifies this
      ensures Step(State(), r) == PostManual(old(State()), inp)
    {
      hide PostJournal;
      if inp.eventId.None? { return Err(EventIdMissing); }
      if inp.source == PaymentEventSource { return Err(ParameterInvalid); }
      if !inp.hasDescription { return Err(ParameterMissing); }
      if |inp.entries| < 2 { return Err(TooFewEntries); }
      if inp.reverses.Some? && inp.source != ReversalSource { return Err(ParameterInvalid); }
      for i := 0 to |inp.entries|
        invariant AccountFault(accounts, inp.entries[..i]) == None && State() == old(State())
      {
        assert inp.entries[..i + 1][..i] == inp.entries[..i];
        var a := inp.entries[i].account;
        if a !in accounts || accounts[a] != Active {
          AccountFaultStays(accounts, inp.entries, i + 1);
          return Err(if a !in accounts then AccountNotFound else AccountInactive);
        }
      }
      assert inp.entries[..|inp.entries|] == inp.entries;
      r := Post(ManualJournal(inp, inp.eventId.value));
    }

    /** Sets reversalOf on a failed refund's journal when its pending journal can be linked. */
    method LinkReversal(j: Journal) returns (linked: Journal)
      ensures linked == Linked(journals, j)
    {
      hide NewestPending, Reverser, Mirrors;
      if j.template != JRefFail { return j; }
      var pend := NewestPending(journals, j.refId);
      if pend.None? { return j; }
      var orig := Seen(journals, pend).value;
      if orig.reversedBy.Some? { return j; }
      var v := ValidateReversal(Some(orig), j.(reversalOf := Some(orig.id)));
      if v.Fail? { return j; }
      return j.(reversalOf := Some(orig.id));
    }

    /** Marks the event processed and posts its journal in one transaction. */
    method HandlePaymentEvent(ev: PaymentEvent) returns (r: Outcome<LedgerError>)
      modifies this
      ensures Handled(State(), r) == Handle(old(State()), ev, policy)
    {
      hide PostTx, TemplateFor, Linked;
      var saved := State();
      if ev.eventId in inbox { return Pass; }
      inbox := inbox + {ev.eventId};
      var j := TemplateFor(ev, policy);
      if j.Err? {
        if j.error == NoTemplate { return Pass; }
        Rollback(saved);
        return Fail(PoisonMessage);
      }
      var linked := LinkReversal(j.value);
      var posted := PostJournalTx(linked);
      if posted.Err? {
        Rollback(saved);
        return Fail(posted.error);
      }
      return Pass;
    }
  }

  lemma {:induction false} EnsuredErr(accts: map<AccountKey, AccountStatus>, keys: seq<AccountKey>, i: nat)
    requires i <= |keys| && Ensured(accts, keys[..i]).Err?
    ensures Ensured(accts, keys) == Ensured(accts, keys[..i])
    decreases |keys| - i
  {
    if i == |keys| {
      assert keys[..i] == keys;
    } else {
      assert keys[..i + 1][..i] == keys[..i];
      EnsuredErr(accts, keys, i + 1);
    }
  }

  lemma {:induction false} StoredNone(b: Amts, es: seq<Entry>, i: nat)
    requires i <= |es| && Stored(b, es[..i]).None?
    ensures Stored(b, es).None?
    decreases |es| - i
  {
    if i == |es| {
      assert es[..i] == es;
    } else {
      assert es[..i + 1][..i] == es[..i];
      StoredNone(b, es, i + 1);
    }
  }

  lemma {:induction false} AccountFaultStays(accts: map<AccountKey, AccountStatus>, es: seq<Entry>, i: nat)
    requires i <= |es| && AccountFault(accts, es[..i]).Some?
    ensures AccountFault(accts, es) == AccountFault(accts, es[..i])
    decreases |es| - i
  {
    if i == |es| {
      assert es[..i] == es;
    } else {
      assert es[..i + 1][..i] == es[..i];
      AccountFaultStays(accts, es, i + 1);
    }
  }
}

/** What every run of the ledger keeps: unique keys, valid journals, balances that are the sum of the
    journals, reversal chains that never branch, and events counted once. */
module LedgerRuns {
  import opened Wrappers
  import opened Amounts
  import opened Accounts
  import opened Journals
  import opened Balances
  import opened Templates
  import opened LedgerService
  import opened Sums

  datatype Action =
    | Event(ev: PaymentEvent)
    | Manual(inp: ManualInput)
    | ReverseById(id: nat, eventId: Option<nat>)
    | SetStatus(key: AccountKey, status: AccountStatus)

  function Next(s: Ledger, a: Action, pol: Policy): Ledger {
    match a
    case Event(ev) => Handle(s, ev, pol).state
    case Manual(inp) => PostManual(s, inp).state
    case ReverseById(id, eventId) => ReverseJournal(s, id, eventId).state
    case SetStatus(key, status) => s.(accounts := s.accounts[key := status])
  }

  function Run(actions: seq<Action>, pol: Policy): Ledger {
    if actions == [] then EMPTY else Next(Run(actions[..|actions| - 1], pol), actions[|actions| - 1], pol)
  }

  // ---- what every state satisfies ----

  predicate AllValid(js: seq<Journal>, nextId: nat) {
    forall j | j in js :: ValidJournal(j) && NIL != j.id < nextId && j.reversedBy == None
  }

  predicate KeysUnique(js: seq<Journal>) {
    forall i, k | 0 <= i < k < |js| :: js[i].id != js[k].id && js[i].eventId != js[k].eventId
  }

  /** Every reversal mirrors an earlier journal. */
  predicate ReversalsMirror(js: seq<Journal>) {
    forall k | 0 <= k < |js| && js[k].reversalOf.Some? ::
      exists i :: 0 <= i < k && js[i].id == js[k].reversalOf.value && Mirrors(js[i].entries, js[k].entries)
  }

  /** No journal is reversed twice. */
  predicate ReversalsUnique(js: seq<Journal>) {
    forall i, k | 0 <= i < k < |js| && js[k].reversalOf.Some? :: js[i].reversalOf != js[k].reversalOf
  }

  function LedgerEffect(js: seq<Journal>, k: AccountKey): int {
    if js == [] then 0 else LedgerEffect(js[..|js| - 1], k) + Effect(Lines(js[|js| - 1].entries), k)
  }

  ghost predicate BalancesAddUp(s: Ledger) {
    forall k :: Of(s.balances, k) == LedgerEffect(s.journals, k)
  }

  /** Each journal was announced exactly once, in order. */
  predicate Announced(s: Ledger) {
    |s.outbox| == |s.journals| && forall i | 0 <= i < |s.outbox| :: s.outbox[i] == s.journals[i].id
  }

  ghost predicate Inv(s: Ledger) {
    && s.nextId > NIL && AllValid(s.journals, s.nextId) && KeysUnique(s.journals) && ReversalsMirror(s.journals)
    && ReversalsUnique(s.journals) && BalancesAddUp(s) && Announced(s)
  }

  // ---- reading ----

  lemma {:induction false} ByIdMeans(js: seq<Journal>, id: nat)
    ensures ById(js, id).Some? ==> ById(js, id).value in js && ById(js, id).value.id == id
    ensures ById(js, id).None? ==> forall j | j in js :: j.id != id
  {
    if js == [] {
    } else {
      ByIdMeans(js[..|js| - 1], id);
      assert js == js[..|js| - 1] + [js[|js| - 1]];
    }
  }

  lemma {:induction false} ByEventMeans(js: seq<Journal>, eventId: nat)
    ensures ByEvent(js, eventId).Some? ==>
              ByEvent(js, eventId).value in js && ByEvent(js, eventId).value.eventId == eventId
    ensures ByEvent(js, eventId).None? ==> forall j | j in js :: j.eventId != eventId
  {
    if js == [] {
    } else {
      ByEventMeans(js[..|js| - 1], eventId);
      assert js == js[..|js| - 1] + [js[|js| - 1]];
    }
  }

  lemma {:induction false} ReverserMeans(js: seq<Journal>, id: nat)
    ensures Reverser(js, id).None? <==> forall j | j in js :: j.reversalOf != Some(id)
  {
    if js == [] {
    } else {
      ReverserMeans(js[..|js| - 1], id);
      assert js == js[..|js| - 1] + [js[|js| - 1]];
    }
  }

  lemma {:induction false} NewestPendingMeans(js: seq<Journal>, refId: RefId)
    ensures NewestPending(js, refId).Some? ==> NewestPending(js, refId).value in js
  {
    if js == [] {
    } else {
      NewestPendingMeans(js[..|js| - 1], refId);
    }
  }

  lemma FoundById(js: seq<Journal>, j: Journal)
    requires KeysUnique(js) && j in js
    ensures ById(js, j.id) == Some(j)
  {
    hide ById;
    ByIdMeans(js, j.id);
    var i :| 0 <= i < |js| && js[i] == j;
    if ById(js, j.id).Some? {
      var k :| 0 <= k < |js| && js[k] == ById(js, j.id).value;
      assert !(i < k) && !(k < i);
    }
  }

  // ---- posting keeps the invariant ----

  /** What posting j checked against the journals already there. */
  predicate Appendable(js: seq<Journal>, j: Journal) {
    && (forall i | i in js :: i.id != j.id && i.eventId != j.eventId)
    && (j.reversalOf.Some? ==>
          && (forall i | i in js :: i.reversalOf != j.reversalOf)
          && exists i :: i in js && i.id == j.reversalOf.value && Mirrors(i.entries, j.entries))
  }

  lemma CommittedIsAppendable(s: Ledger, j: Journal)
    requires PostTx(s, j).Committed? && !PostTx(s, j).reply.replayed
    ensures Appendable(s.journals, PostTx(s, j).reply.journal)
    ensures PostTx(s, j).reply.journal == j.(id := IdFor(s, j), reversedBy := None)
  {
    hide ById, ByEvent, Reverser, Ensured, Stored, Mirrors, AccountKeysOf;
    ByEventMeans(s.journals, j.eventId);
    ByIdMeans(s.journals, IdFor(s, j));
    if j.reversalOf.Some? {
      ReverserMeans(s.journals, j.reversalOf.value);
      ByIdMeans(s.journals, j.reversalOf.value);
    }
  }

  lemma AppendKeepsKeys(js: seq<Journal>, j: Journal)
    requires KeysUnique(js) && ReversalsUnique(js) && Appendable(js, j)
    ensures KeysUnique(js + [j]) && ReversalsUnique(js + [j])
  {
    hide Mirrors;
    forall i | 0 <= i < |js| ensures js[i] in js {}
  }

  lemma AppendKeepsMirrors(js: seq<Journal>, j: Journal)
    requires ReversalsMirror(js) && Appendable(js, j)
    ensures ReversalsMirror(js + [j])
  {
    hide Mirrors;
    var all := js + [j];
    forall k | 0 <= k < |all| && all[k].reversalOf.Some?
      ensures exists i :: 0 <= i < k && all[i].id == all[k].reversalOf.value && Mirrors(all[i].entries, all[k].entries)
    {
      if k < |js| {
        var i :| 0 <= i < k && js[i].id == js[k].reversalOf.value && Mirrors(js[i].entries, js[k].entries);
        assert all[i] == js[i];
      } else {
        var o :| o in js && o.id == j.reversalOf.value && Mirrors(o.entries, j.entries);
        var i :| 0 <= i < |js| && js[i] == o;
        assert all[i] == js[i];
      }
    }
  }

  lemma {:induction false} StoredIsEffect(b: Amts, es: seq<Entry>, k: AccountKey)
    requires Stored(b, es).Some?
    ensures Of(Stored(b, es).value, k) == Of(b, k) + Effect(Lines(es), k)
  {
    hide Delta;
    if es == [] {
    } else {
      StoredIsEffect(b, es[..|es| - 1], k);
      LastLine(es);
    }
  }

  lemma PostKeepsBalances(s: Ledger, j: Journal)
    requires BalancesAddUp(s) && Announced(s) && PostTx(s, j).Committed? && !PostTx(s, j).reply.replayed
    ensures BalancesAddUp(PostTx(s, j).state) && Announced(PostTx(s, j).state)
    ensures PostTx(s, j).state.journals == s.journals + [PostTx(s, j).reply.journal]
    ensures PostTx(s, j).state.inbox == s.inbox
  {
    hide ById, ByEvent, Reverser, Ensured, Stored, Mirrors, AccountKeysOf, Effect, Lines, Of, ReversalFault;
    var t, posted := PostTx(s, j).state, PostTx(s, j).reply.journal;
    assert t.journals[..|t.journals| - 1] == s.journals;
    forall k ensures Of(t.balances, k) == LedgerEffect(t.journals, k) {
      StoredIsEffect(s.balances, j.entries, k);
    }
  }

  lemma StillValid(j: Journal, id: nat)
    requires ValidJournal(j)
    ensures ValidJournal(j.(id := id, reversedBy := None))
  {
    hide Total;
    var n := j.(id := id, reversedBy := None);
    forall e | e in n.entries ensures ValidEntry(n, e, n.entries[0].amount.currency) {
      assert ValidEntry(j, e, j.entries[0].amount.currency);
    }
  }

  lemma PostKeepsValid(s: Ledger, j: Journal)
    requires s.nextId > NIL && AllValid(s.journals, s.nextId) && ValidJournal(j)
    requires PostTx(s, j).Committed? && !PostTx(s, j).reply.replayed
    ensures PostTx(s, j).state.nextId > NIL && AllValid(PostTx(s, j).state.journals, PostTx(s, j).state.nextId)
  {
    hide ById, ByEvent, Ensured, Stored, AccountKeysOf, ReversalFault, ValidJournal;
    StillValid(j, IdFor(s, j));
  }

  lemma PostKeepsInv(s: Ledger, j: Journal)
    requires Inv(s) && ValidJournal(j) && PostTx(s, j).Committed?
    ensures Inv(PostTx(s, j).state)
  {
    hide ValidJournal, AllValid, KeysUnique, ReversalsMirror, ReversalsUnique, BalancesAddUp, Announced, Appendable;
    if !PostTx(s, j).reply.replayed {
      CommittedIsAppendable(s, j);
      PostKeepsBalances(s, j);
      PostKeepsValid(s, j);
      AppendKeepsKeys(s.journals, PostTx(s, j).reply.journal);
      AppendKeepsMirrors(s.journals, PostTx(s, j).reply.journal);
    } else {
      ReplayChangesNothing(s, j);
    }
  }

  lemma ReplayChangesNothing(s: Ledger, j: Journal)
    requires PostTx(s, j).Committed? && PostTx(s, j).reply.replayed
    ensures PostTx(s, j).state == s
  {
    hide ById, ByEvent, Ensured, Stored, AccountKeysOf, ReversalFault;
  }

  lemma PostJournalKeepsInv(s: Ledger, j: Journal)
    requires Inv(s)
    ensures Inv(PostJournal(s, j).state)
  {
    hide Inv, PostTx, ValidJournal, Verdict;
    VerdictPassesValid(j);
    if ValidJournal(j) && PostTx(s, j).Committed? { PostKeepsInv(s, j); }
  }

  lemma LinkedIsValid(js: seq<Journal>, j: Journal)
    requires ValidJournal(j)
    ensures ValidJournal(Linked(js, j))
    ensures Linked(js, j).entries == j.entries && Linked(js, j).eventId == j.eventId
  {
    hide Total, NewestPending, Reverser, Mirrors;
    var n := Linked(js, j);
    forall e | e in n.entries ensures ValidEntry(n, e, n.entries[0].amount.currency) {
      assert ValidEntry(j, e, j.entries[0].amount.currency);
    }
  }

  lemma MarkingKeepsInv(s: Ledger, inbox: set<nat>, accounts: map<AccountKey, AccountStatus>)
    requires Inv(s)
    ensures Inv(s.(inbox := inbox)) && Inv(s.(accounts := accounts))
  {
    hide AllValid, KeysUnique, ReversalsMirror, ReversalsUnique;
  }

  lemma HandleKeepsInv(s: Ledger, ev: PaymentEvent, pol: Policy)
    requires Inv(s)
    ensures Inv(Handle(s, ev, pol).state)
  {
    hide Inv, PostTx, ValidJournal, TemplateFor, Linked, Posts;
    var marked := s.(inbox := s.inbox + {ev.eventId});
    MarkingKeepsInv(s, marked.inbox, s.accounts);
    TemplateAcceptsExactly(ev, pol);
    if TemplateFor(ev, pol).Ok? {
      var j := Linked(s.journals, TemplateFor(ev, pol).value);
      LinkedIsValid(s.journals, TemplateFor(ev, pol).value);
      if PostTx(marked, j).Committed? { PostKeepsInv(marked, j); }
    }
  }

  lemma NextKeepsInv(s: Ledger, a: Action, pol: Policy)
    requires Inv(s)
    ensures Inv(Next(s, a, pol))
  {
    hide Inv, PostJournal, ReverseResult, ById, ByEvent, AccountFault;
    match a {
      case Event(ev) => HandleKeepsInv(s, ev, pol);
      case Manual(inp) => if inp.eventId.Some? { PostJournalKeepsInv(s, ManualJournal(inp, inp.eventId.value)); }
      case ReverseById(id, eventId) =>
        if eventId.Some? && ReverseResult(GetById(s.journals, id), eventId.value).Ok? {
          PostJournalKeepsInv(s, ReverseResult(GetById(s.journals, id), eventId.value).value);
        }
      case SetStatus(key, status) => MarkingKeepsInv(s, s.inbox, s.accounts[key := status]);
    }
  }

  lemma EmptyInv()
    ensures Inv(EMPTY)
  {
  }

  lemma {:induction false} RunKeepsInv(actions: seq<Action>, pol: Policy)
    ensures Inv(Run(actions, pol))
  {
    hide Inv, Next;
    EmptyInv();
    if actions == [] {
    } else {
      RunKeepsInv(actions[..|actions| - 1], pol);
      NextKeepsInv(Run(actions[..|actions| - 1], pol), actions[|actions| - 1], pol);
    }
  }

  ghost predicate Reachable(s: Ledger, pol: Policy) {
    exists actions :: s == Run(actions, pol)
  }

  /** In every reachable state: journals are valid, ids and event ids are unique, reversals mirror an
      earlier journal and none is reversed twice, and each balance is the exact sum of the journals. */
  lemma ReachableInv(s: Ledger, pol: Policy)
    requires Reachable(s, pol)
    ensures Inv(s)
  {
    hide Run, Inv;
    var actions :| s == Run(actions, pol);
    RunKeepsInv(actions, pol);
  }

  // ---- reversal chains ----

  /** Indices of journals each of which reverses the one before it. */
  predicate IsChain(js: seq<Journal>, c: seq<nat>) {
    && (forall i | 0 <= i < |c| :: c[i] < |js|)
    && (forall i | 0 < i < |c| :: js[c[i]].reversalOf == Some(js[c[i - 1]].id))
  }

  function ChainEffect(js: seq<Journal>, c: seq<nat>, k: AccountKey): int
    requires forall i | 0 <= i < |c| :: c[i] < |js|
  {
    if c == [] then 0 else ChainEffect(js, c[..|c| - 1], k) + Effect(Lines(js[c[|c| - 1]].entries), k)
  }

  function Alternating(n: nat, x: int): int {
    if n == 0 then 0 else x - Alternating(n - 1, x)
  }

  lemma {:induction false} AlternatingIs(n: nat, x: int)
    ensures Alternating(n, x) == if n % 2 == 0 then 0 else x
  {
    if n == 0 {
    } else {
      AlternatingIs(n - 1, x);
    }
  }

  lemma ReversalOpposes(s: Ledger, i: nat, r: nat, k: AccountKey)
    requires Inv(s) && i < |s.journals| && r < |s.journals|
    requires s.journals[r].reversalOf == Some(s.journals[i].id)
    ensures Effect(Lines(s.journals[r].entries), k) == -Effect(Lines(s.journals[i].entries), k)
  {
    hide Effect, Lines, Mirrors, ValidJournal, BalancesAddUp, Announced, ReversalsUnique;
    var m :| 0 <= m < r && s.journals[m].id == s.journals[i].id
        && Mirrors(s.journals[m].entries, s.journals[r].entries);
    assert m == i;
    assert s.journals[i] in s.journals;
    MirroredEffect(s.journals[i], s.journals[r], k);
  }

  /** A journal of a chain has the root's effect or its opposite, in turn. */
  lemma {:induction false} ChainTurns(s: Ledger, c: seq<nat>, k: AccountKey)
    requires Inv(s) && IsChain(s.journals, c) && c != []
    ensures var root := Effect(Lines(s.journals[c[0]].entries), k);
            && ChainEffect(s.journals, c, k) == Alternating(|c|, root)
            && Effect(Lines(s.journals[c[|c| - 1]].entries), k) == root - 2 * Alternating(|c| - 1, root)
  {
    hide Inv, Effect, Lines;
    var root := Effect(Lines(s.journals[c[0]].entries), k);
    AlternatingIs(|c| - 1, root);
    if |c| == 1 {
      assert c[..0] == [];
    } else {
      ChainTurns(s, c[..|c| - 1], k);
      AlternatingIs(|c| - 2, root);
      ReversalOpposes(s, c[|c| - 2], c[|c| - 1], k);
    }
  }

  /** A chain of n journals moves the balances like its root when n is odd and not at all when n is even. */
  lemma ChainsCancel(s: Ledger, pol: Policy, c: seq<nat>, k: AccountKey)
    requires Reachable(s, pol) && IsChain(s.journals, c) && c != []
    ensures ChainEffect(s.journals, c, k) == if |c| % 2 == 1 then Effect(Lines(s.journals[c[0]].entries), k) else 0
  {
    hide Effect, Lines, Reachable, Inv;
    ReachableInv(s, pol);
    ChainTurns(s, c, k);
    AlternatingIs(|c|, Effect(Lines(s.journals[c[0]].entries), k));
  }

  /** No journal is reversed twice, whoever asks for it, so chains never branch. */
  lemma ChainsNeverBranch(s: Ledger, pol: Policy)
    requires Reachable(s, pol)
    ensures ReversalsUnique(s.journals)
  {
    hide Reachable;
    ReachableInv(s, pol);
  }

  // ---- handling one event ----

  /** Linking a failed refund never turns a journal that could be posted into one that cannot. */
  lemma LinkingIsHarmless(s: Ledger, j: Journal)
    requires Inv(s) && j.reversalOf == None
    ensures ReversalFault(s.journals, Linked(s.journals, j)) == None
  {
    hide AllValid, BalancesAddUp, Announced, ReversalsMirror, ReversalsUnique;
    hide KeysUnique, ById, NewestPending, Mirrors, Reverser;
    var pend := NewestPending(s.journals, j.refId);
    NewestPendingMeans(s.journals, j.refId);
    if pend.Some? { FoundById(s.journals, pend.value); }
  }

  /** Whether the accounts and balances let the journal in. */
  predicate Admits(s: Ledger, j: Journal) {
    Ensured(s.accounts, AccountKeysOf(j.entries)).Ok? && Stored(s.balances, j.entries).Some?
  }

  predicate AdmitsEvent(s: Ledger, ev: PaymentEvent, pol: Policy) {
    match TemplateFor(ev, pol)
    case Ok(j) => Admits(s, j)
    case Err(_) => false
  }

  /** The journal an event adds, if it adds one. */
  function JournalOf(s: Ledger, ev: PaymentEvent, pol: Policy): seq<Journal> {
    match TemplateFor(ev, pol)
    case Ok(j) => [Linked(s.journals, j).(id := s.nextId)]
    case Err(_) => []
  }

  lemma FreshIdIsFree(s: Ledger)
    requires Inv(s)
    ensures s.nextId != NIL && ById(s.journals, s.nextId) == None
  {
    hide ById, KeysUnique, BalancesAddUp, Announced, ReversalsMirror, ReversalsUnique, ValidJournal;
    ByIdMeans(s.journals, s.nextId);
  }

  lemma TemplateHeader(ev: PaymentEvent, pol: Policy)
    requires TemplateFor(ev, pol).Ok?
    ensures TemplateFor(ev, pol).value.eventId == ev.eventId
    ensures TemplateFor(ev, pol).value.reversalOf == None && TemplateFor(ev, pol).value.reversedBy == None
    ensures TemplateFor(ev, pol).value.id == NIL && TemplateFor(ev, pol).value.source == PaymentEventSource
  {
    hide Verdict, CaptureEntries, Move, BaseFault;
  }

  /** A first delivery is refused only when the event cannot be posted, an account is not active or a
      balance would leave its range; otherwise it is marked, and it adds a journal exactly when it
      moves money and no journal has its event id yet. A refusal changes nothing at all. */
  lemma HandleDoesExactly(s: Ledger, ev: PaymentEvent, pol: Policy)
    requires Inv(s) && ev.eventId !in s.inbox
    ensures var h := Handle(s, ev, pol);
            var known := ByEvent(s.journals, ev.eventId).Some?;
            && (h.result.Pass? <==> !MovesMoney(ev.typ) || (Posts(ev, pol) && (known || AdmitsEvent(s, ev, pol))))
            && (h.result.Fail? ==> h.state == s)
            && (h.result.Pass? ==> h.state.inbox == s.inbox + {ev.eventId})
            && (h.result.Pass? ==> h.state.journals == s.journals + if known then [] else JournalOf(s, ev, pol))
  {
    hide TemplateFor, Linked, Posts, ById, ByEvent, Ensured;
    hide Stored, ReversalFault, Inv, ValidJournal, AccountKeysOf, Reverser;
    TemplateAcceptsExactly(ev, pol);
    assert s.journals + [] == s.journals;
    if TemplateFor(ev, pol).Ok? {
      var t := TemplateFor(ev, pol).value;
      TemplateHeader(ev, pol);
      LinkingIsHarmless(s, t);
      FreshIdIsFree(s);
      LinkedKeeps(s.journals, t);
    }
  }

  lemma LinkedKeeps(js: seq<Journal>, j: Journal)
    ensures var n := Linked(js, j);
            && n.entries == j.entries && n.eventId == j.eventId && n.id == j.id && n.reversedBy == j.reversedBy
            && n.source == j.source
  {
    hide NewestPending, Reverser, Mirrors;
  }

  /** An event's journal is there exactly when it moves money, and is the event's own. */
  lemma EventJournal(s: Ledger, ev: PaymentEvent, pol: Policy)
    ensures MovesMoney(ev.typ) && Posts(ev, pol) ==> |JournalOf(s, ev, pol)| == 1
    ensures !MovesMoney(ev.typ) ==> JournalOf(s, ev, pol) == []
    ensures forall j | j in JournalOf(s, ev, pol) :: j.eventId == ev.eventId && j.source == PaymentEventSource
  {
    hide TemplateFor, Linked, Posts, ValidJournal;
    TemplateAcceptsExactly(ev, pol);
    if TemplateFor(ev, pol).Ok? {
      TemplateHeader(ev, pol);
      LinkedKeeps(s.journals, TemplateFor(ev, pol).value);
    }
  }

  /** Handling creates the accounts its journal needs and changes no others. */
  lemma HandleAccounts(s: Ledger, ev: PaymentEvent, pol: Policy)
    requires Handle(s, ev, pol).result.Pass? && ev.eventId !in s.inbox && TemplateFor(ev, pol).Ok?
    requires ByEvent(s.journals, ev.eventId).None?
    ensures var keys := AccountKeysOf(TemplateFor(ev, pol).value.entries);
            Ensured(s.accounts, keys) == Ok(Handle(s, ev, pol).state.accounts)
  {
    hide TemplateFor, Linked, ByEvent, Reverser, Ensured, Stored, ReversalFault, AccountKeysOf, ById;
    TemplateHeader(ev, pol);
    LinkedKeeps(s.journals, TemplateFor(ev, pol).value);
  }

  /** A redelivered event is acknowledged and changes nothing. */
  lemma RedeliveryIsHarmless(s: Ledger, ev: PaymentEvent, pol: Policy)
    requires Handle(s, ev, pol).result.Pass?
    ensures Handle(Handle(s, ev, pol).state, ev, pol) == Handled(Handle(s, ev, pol).state, Pass)
  {
    hide PostTx, TemplateFor, Linked;
    if ev.eventId !in s.inbox && TemplateFor(ev, pol).Ok? {
      PostKeepsInbox(s.(inbox := s.inbox + {ev.eventId}), Linked(s.journals, TemplateFor(ev, pol).value));
    }
  }

  lemma PostKeepsInbox(s: Ledger, j: Journal)
    requires PostTx(s, j).Committed?
    ensures PostTx(s, j).state.inbox == s.inbox
  {
    hide ById, ByEvent, Ensured, Stored, ReversalFault;
  }

  /** Posting adds at most one journal, under an event id that was free, and touches no inbox mark. */
  lemma PostJournalAdds(s: Ledger, j: Journal)
    ensures var t := PostJournal(s, j).state;
            && t.inbox == s.inbox
            && (t.journals == s.journals
                || (ByEvent(s.journals, j.eventId).None? && |t.journals| == |s.journals| + 1
                    && t.journals == s.journals + [t.journals[|s.journals|]]
                    && t.journals[|s.journals|].eventId == j.eventId && t.journals[|s.journals|].source == j.source))
  {
    hide ById, ByEvent, Ensured, Stored, ReversalFault, AccountKeysOf, Verdict, Reverser;
  }

  /** Manual postings and reversals add at most one journal, under a free event id, that is no event's. */
  lemma ManualActionsAdd(s: Ledger, a: Action, pol: Policy)
    requires a.Manual? || a.ReverseById?
    ensures var t := Next(s, a, pol);
            && t.inbox == s.inbox
            && (t.journals == s.journals
                || (|t.journals| == |s.journals| + 1 && t.journals == s.journals + [t.journals[|s.journals|]]
                    && ByEvent(s.journals, t.journals[|s.journals|].eventId).None?
                    && t.journals[|s.journals|].source != PaymentEventSource))
  {
    hide ById, ByEvent, PostJournal, AccountFault, Reverser, Verdict;
    match a {
      case Manual(inp) =>
        if inp.eventId.Some? { PostJournalAdds(s, ManualJournal(inp, inp.eventId.value)); }
      case ReverseById(id, eventId) =>
        if eventId.Some? && ReverseResult(GetById(s.journals, id), eventId.value).Ok? {
          PostJournalAdds(s, ReverseResult(GetById(s.journals, id), eventId.value).value);
        }
    }
  }

  // ---- when accounts and balances let an event in ----

  predicate Within(x: int) {
    MIN_INT64 <= x <= MAX_INT64
  }

  /** Every account is only debited or only credited, by positive amounts. */
  predicate OneWay(es: seq<Entry>) {
    && (forall i | 0 <= i < |es| :: es[i].direction.Valid() && es[i].amount.amount > 0)
    && (forall i, j | 0 <= i < j < |es| && es[i].account == es[j].account :: es[i].direction == es[j].direction)
  }

  predicate SameSigns(ls: seq<Line>) {
    && (forall i | 0 <= i < |ls| :: Delta(ls[i]) != 0)
    && (forall i, j | 0 <= i < j < |ls| && ls[i].account == ls[j].account :: (Delta(ls[i]) > 0) == (Delta(ls[j]) > 0))
  }

  lemma OneWayHasSameSigns(es: seq<Entry>)
    requires OneWay(es)
    ensures SameSigns(Lines(es))
  {
    hide DebitNormal;
  }

  /** Lines of one sign on an account add up to something of that sign. */
  lemma {:induction false} EffectHasSign(ls: seq<Line>, l: Line)
    requires SameSigns(ls + [l])
    ensures Effect(ls, l.account) == 0 || (Effect(ls, l.account) > 0) == (Delta(l) > 0)
    ensures (exists i :: 0 <= i < |ls| && ls[i].account == l.account) ==> Effect(ls, l.account) != 0
  {
    hide Delta;
    if ls == [] {
    } else {
      var n := |ls| - 1;
      var all := ls + [l];
      assert all[n] == ls[n] && all[n + 1] == l;
      SignsWithout(ls, l);
      EffectHasSign(ls[..n], l);
    }
  }

  lemma SignsWithout(ls: seq<Line>, l: Line)
    requires ls != [] && SameSigns(ls + [l])
    ensures SameSigns(ls[..|ls| - 1] + [l]) && SameSigns(ls)
  {
    hide Delta;
    var n := |ls| - 1;
    var all, less := ls + [l], ls[..n] + [l];
    forall i | 0 <= i < |less| ensures Delta(less[i]) != 0 { assert less[i] == all[if i < n then i else n + 1]; }
    forall i, j | 0 <= i < j < |less| && less[i].account == less[j].account
      ensures (Delta(less[i]) > 0) == (Delta(less[j]) > 0)
    {
      assert less[i] == all[i] && less[j] == all[if j < n then j else n + 1];
    }
    forall i | 0 <= i < |ls| ensures ls[i] == all[i] {}
  }

  /** Entries of one sign per account can be stored exactly when every balance ends in range. */
  lemma {:induction false} StoredExactly(b: Amts, es: seq<Entry>)
    requires SameSigns(Lines(es))
    ensures Stored(b, es).Some? <==> forall k :: Within(Of(b, k) + Effect(Lines(es), k))
  {
    hide Delta, SameSigns, Effect, Lines, Of, Stored, Within;
    if es == [] {
      NothingStored(b, es);
    } else {
      var n := |es| - 1;
      var l := LineOf(es[n]);
      LastLine(es);
      assert Lines(es) == Lines(es[..n]) + [l];
      StoredPrefix(Lines(es[..n]), l);
      StoredExactly(b, es[..n]);
      EffectHasSign(Lines(es[..n]), l);
      StoredStep(b, es, l);
    }
  }

  lemma NothingStored(b: Amts, es: seq<Entry>)
    requires es == []
    ensures Stored(b, es).Some? && forall k :: Within(Of(b, k) + Effect(Lines(es), k))
  {
    assert Lines(es) == [];
  }

  lemma StoredPrefix(ls: seq<Line>, l: Line)
    requires SameSigns(ls + [l])
    ensures SameSigns(ls)
  {
    hide Delta;
    var all := ls + [l];
    forall i | 0 <= i < |ls| ensures ls[i] == all[i] {}
  }

  lemma EffectOfNext(ls: seq<Line>, l: Line, k: AccountKey)
    ensures Effect(ls + [l], k) == Effect(ls, k) + DeltaAt(l, k)
  {
    hide Delta, DeltaAt;
    assert (ls + [l])[..|ls|] == ls;
  }

  lemma StoredNext(b: Amts, es: seq<Entry>, l: Line)
    requires es != [] && l == LineOf(es[|es| - 1])
    ensures var before := Stored(b, es[..|es| - 1]);
            Stored(b, es).Some? <==> before.Some? && Within(Of(before.value, l.account) + Delta(l))
  {
    hide Delta, LineOf, Of;
  }

  lemma StoredStep(b: Amts, es: seq<Entry>, l: Line)
    requires es != [] && l == LineOf(es[|es| - 1]) && Lines(es) == Lines(es[..|es| - 1]) + [l]
    requires Stored(b, es[..|es| - 1]).Some? <==> forall k :: Within(Of(b, k) + Effect(Lines(es[..|es| - 1]), k))
    requires var x := Effect(Lines(es[..|es| - 1]), l.account); x == 0 || (x > 0) == (Delta(l) > 0)
    ensures Stored(b, es).Some? <==> forall k :: Within(Of(b, k) + Effect(Lines(es), k))
  {
    hide Delta, Lines, LineOf, Effect, Of, Stored;
    var init := es[..|es| - 1];
    var a := l.account;
    forall k ensures Effect(Lines(es), k) == Effect(Lines(init), k) + DeltaAt(l, k) {
      EffectOfNext(Lines(init), l, k);
    }
    StoredNext(b, es, l);
    if Stored(b, es).Some? {
      forall k ensures Within(Of(b, k) + Effect(Lines(es), k)) { StoredIsEffect(b, es, k); }
    }
    if forall k :: Within(Of(b, k) + Effect(Lines(es), k)) {
      assert Within(Of(b, a) + Effect(Lines(es), a));
      forall k ensures Within(Of(b, k) + Effect(Lines(init), k)) {
        assert Within(Of(b, k) + Effect(Lines(es), k));
      }
      StoredIsEffect(b, init, a);
    }
  }

  /** The journal of a posted event debits or credits each account it touches, never both. */
  lemma TemplateIsOneWay(ev: PaymentEvent, pol: Policy)
    requires TemplateFor(ev, pol).Ok? && Posts(ev, pol)
    ensures OneWay(TemplateFor(ev, pol).value.entries)
  {
    hide OneWay, Posts, TemplateFor;
    if ev.typ == PaymentCaptured { CaptureIsOneWay(ev, pol); } else { MovesAreOneWay(ev, pol); }
  }

  lemma CaptureIsOneWay(ev: PaymentEvent, pol: Policy)
    requires ev.typ == PaymentCaptured && TemplateFor(ev, pol).Ok? && Posts(ev, pol)
    ensures OneWay(TemplateFor(ev, pol).value.entries)
  {
    hide Verdict, ValidQualifier;
  }

  lemma MovesAreOneWay(ev: PaymentEvent, pol: Policy)
    requires ev.typ != PaymentCaptured && TemplateFor(ev, pol).Ok? && Posts(ev, pol)
    ensures OneWay(TemplateFor(ev, pol).value.entries)
  {
    hide Verdict, ValidQualifier, CaptureTemplate, OneWay;
    if ev.typ.DisputeOpened? || ev.typ.DisputeLost? || ev.typ.DisputeWon? {
      DisputesAreOneWay(ev, pol);
    } else {
      RefundsAreOneWay(ev, pol);
    }
  }

  lemma RefundsAreOneWay(ev: PaymentEvent, pol: Policy)
    requires ev.typ.RefundCreated? || ev.typ.RefundFailed? || ev.typ.RefundSucceeded?
    requires TemplateFor(ev, pol).Ok? && Posts(ev, pol)
    ensures OneWay(TemplateFor(ev, pol).value.entries)
  {
    hide Verdict, ValidQualifier, CaptureTemplate, DisputeOpenedTemplate, DisputeLostTemplate, DisputeWonTemplate;
  }

  lemma DisputesAreOneWay(ev: PaymentEvent, pol: Policy)
    requires ev.typ.DisputeOpened? || ev.typ.DisputeLost? || ev.typ.DisputeWon?
    requires TemplateFor(ev, pol).Ok? && Posts(ev, pol)
    ensures OneWay(TemplateFor(ev, pol).value.entries)
  {
    hide Verdict, ValidQualifier, CaptureTemplate;
    hide RefundPendingTemplate, RefundFailedTemplate, RefundSucceededTemplate;
  }

  /** The account, if it exists, is active, and its balance stays in range when x is added. */
  predicate Open(s: Ledger, k: AccountKey, x: int) {
    (k in s.accounts ==> s.accounts[k] == Active) && Within(Of(s.balances, k) + x)
  }

  /** A postable event is let in exactly when every account it has an effect on is open to that effect. */
  lemma AdmitsExactly(s: Ledger, ev: PaymentEvent, pol: Policy)
    requires Posts(ev, pol)
    ensures AdmitsEvent(s, ev, pol) <==>
              forall k | EventEffect(ev, pol, k) != 0 :: Open(s, k, EventEffect(ev, pol, k))
  {
    hide TemplateFor, EventEffect, Posts, Ensured, Stored, Verdict, ValidJournal;
    hide Of, OneWay, Effect, Lines, AccountKeysOf, Within;
    TemplateAcceptsExactly(ev, pol);
    var j := TemplateFor(ev, pol).value;
    TemplateIsOneWay(ev, pol);
    OneWayHasSameSigns(j.entries);
    StoredExactly(s.balances, j.entries);
    forall k ensures Effect(Lines(j.entries), k) == EventEffect(ev, pol, k)
                     && (k in AccountKeysOf(j.entries) <==> EventEffect(ev, pol, k) != 0)
                     && (EventEffect(ev, pol, k) != 0 ==> k.Validate().Pass?)
                     && (EventEffect(ev, pol, k) == 0 ==> Within(Of(s.balances, k) + EventEffect(ev, pol, k)))
    {
      TemplateDoesExactly(ev, pol, k);
      TouchedExactly(j, k);
      BalanceIsWithin(s.balances, k);
    }
    EnsuredExactly(s.accounts, AccountKeysOf(j.entries));
  }

  lemma BalanceIsWithin(b: Amts, k: AccountKey)
    ensures Within(Of(b, k) + 0)
  {
  }

  /** An account is touched by such a journal exactly when the journal has an effect on it. */
  lemma TouchedExactly(j: Journal, k: AccountKey)
    requires ValidJournal(j) && SameSigns(Lines(j.entries))
    ensures k in AccountKeysOf(j.entries) <==> Effect(Lines(j.entries), k) != 0
    ensures k in AccountKeysOf(j.entries) ==> k.Validate().Pass?
  {
    hide Effect, AccountKeysOf, SameSigns, Delta, AccountKey.Validate, Total;
    AccountKeysAreKeys(j.entries);
    KeysAreAccounts(j.entries, k);
    TouchedHasEffect(Lines(j.entries), k);
    forall e | e in j.entries ensures e.account.Validate().Pass? {
      assert ValidEntry(j, e, j.entries[0].amount.currency);
    }
    forall i | 0 <= i < |j.entries| ensures j.entries[i] in j.entries {}
    if k in AccountKeysOf(j.entries) {
      var e :| e in j.entries && e.account == k;
      var i :| 0 <= i < |j.entries| && j.entries[i] == e;
      assert Lines(j.entries)[i] == LineOf(e);
    }
  }

  lemma {:induction false} TouchedHasEffect(ls: seq<Line>, k: AccountKey)
    requires SameSigns(ls)
    ensures Effect(ls, k) != 0 <==> exists i :: 0 <= i < |ls| && ls[i].account == k
  {
    hide Delta, SameSigns;
    if ls == [] {
    } else {
      var n := |ls| - 1;
      assert ls == ls[..n] + [ls[n]];
      StoredPrefix(ls[..n], ls[n]);
      TouchedHasEffect(ls[..n], k);
      EffectHasSign(ls[..n], ls[n]);
      LastIsNotZero(ls);
      if exists i :: 0 <= i < n && ls[i].account == k {
        var i :| 0 <= i < n && ls[i].account == k;
        assert ls[..n][i].account == k;
      }
    }
  }

  lemma LastIsNotZero(ls: seq<Line>)
    requires ls != [] && SameSigns(ls)
    ensures Delta(ls[|ls| - 1]) != 0
  {
  }

  // ---- accounts, and reversal on request ----

  /** Posting may use an account exactly when it is active, or does not exist yet and is a proper key. */
  predicate Usable(accts: map<AccountKey, AccountStatus>, k: AccountKey) {
    if k in accts then accts[k] == Active else k.Validate().Pass?
  }

  /** Accounts are let in exactly when each is usable; the missing ones are created active, the others
      stay as they are. */
  lemma {:induction false} EnsuredExactly(accts: map<AccountKey, AccountStatus>, keys: seq<AccountKey>)
    ensures Ensured(accts, keys).Ok? <==> forall k | k in keys :: Usable(accts, k)
    ensures Ensured(accts, keys).Ok? ==>
              var m := Ensured(accts, keys).value;
              && (forall k :: k in m <==> k in accts || k in keys)
              && (forall k | k in m :: m[k] == if k in accts then accts[k] else Active)
  {
    hide AccountKey.Validate;
    if keys == [] {
    } else {
      var init, last := keys[..|keys| - 1], keys[|keys| - 1];
      EnsuredExactly(accts, init);
      assert keys == init + [last];
      if Ensured(accts, init).Ok? {
        var m := Ensured(accts, init).value;
        assert EnsuredOne(m, last).Ok? <==> Usable(accts, last) by {
          if last in init { assert Usable(accts, last); }
        }
      }
    }
  }

  /** Reversing a journal on request under a new event id: it works exactly when the journal is not yet
      reversed and the accounts and balances let the mirror image in; then every balance loses what the
      journal had added, and nothing else happens. */
  lemma ReverseDoesExactly(s: Ledger, j: Journal, eventId: nat)
    requires Inv(s) && j in s.journals && ByEvent(s.journals, eventId).None?
    ensures var r := ReverseJournal(s, j.id, Some(eventId));
            && (r.result.Ok? <==> eventId != NIL && Reverser(s.journals, j.id).None?
                                   && Admits(s, ReversingJournal(j, eventId)))
            && (r.result.Err? ==> r.state == s)
            && (Reverser(s.journals, j.id).Some? ==> r.result == Err(AlreadyReversed))
            && (r.result.Ok? ==> forall k :: Of(r.state.balances, k) == Of(s.balances, k) - Effect(Lines(j.entries), k))
            && (r.result.Ok? ==> Reverser(r.state.journals, j.id) == Some(r.result.value.journal.id))
  {
    hide ById, ByEvent, Reverser, ValidJournal, PostJournal, ReverseResult, Effect, Lines, Of, Admits, ReversingJournal;
    FoundById(s.journals, j);
    var seen := Seen(s.journals, Some(j)).value;
    SeenIsValid(j, Reverser(s.journals, j.id));
    ReverseSucceedsExactlyWhen(seen, eventId);
    if ReverseResult(Some(seen), eventId).Ok? {
      MadeFrom(j, seen, eventId);
      PostsReversal(s, j, ReversingJournal(j, eventId), eventId);
    } else {
      WhyNot(seen, eventId);
    }
  }

  lemma SeenIsValid(j: Journal, who: Option<nat>)
    requires ValidJournal(j)
    ensures ValidJournal(j.(reversedBy := who))
  {
    hide Total;
    var n := j.(reversedBy := who);
    forall e | e in n.entries ensures ValidEntry(n, e, n.entries[0].amount.currency) {
      assert ValidEntry(j, e, j.entries[0].amount.currency);
    }
  }

  lemma MadeFrom(j: Journal, seen: Journal, eventId: nat)
    requires seen == j.(reversedBy := seen.reversedBy) && ReverseResult(Some(seen), eventId).Ok?
    ensures ReverseResult(Some(seen), eventId).value == ReversingJournal(j, eventId)
  {
    hide Verdict;
  }

  lemma WhyNot(seen: Journal, eventId: nat)
    ensures seen.reversedBy.Some? ==> ReverseResult(Some(seen), eventId) == Err(AlreadyReversed)
  {
    hide Verdict;
  }

  lemma PostsReversal(s: Ledger, j: Journal, rev: Journal, eventId: nat)
    requires Inv(s) && j in s.journals && ByEvent(s.journals, eventId).None? && Reverser(s.journals, j.id).None?
    requires rev == ReversingJournal(j, eventId) && ValidJournal(rev)
    ensures var r := PostJournal(s, rev);
            && (r.result.Ok? <==> Admits(s, rev)) && (r.result.Err? ==> r.state == s)
            && (r.result.Ok? ==> forall k :: Of(r.state.balances, k) == Of(s.balances, k) - Effect(Lines(j.entries), k))
            && (r.result.Ok? ==> Reverser(r.state.journals, j.id) == Some(r.result.value.journal.id))
  {
    hide ById, ByEvent, Reverser, ValidJournal, Effect, Lines, Of, Ensured, Stored, Verdict, AccountKeysOf, Mirrors;
    VerdictPassesValid(rev);
    FoundById(s.journals, j);
    FreshIdIsFree(s);
    MirrorMirrors(j.entries);
    var r := PostJournal(s, rev);
    if r.result.Ok? {
      var t := r.state;
      assert t.journals[..|t.journals| - 1] == s.journals;
      ReverserOfLast(t.journals, j.id);
      forall k ensures Of(t.balances, k) == Of(s.balances, k) - Effect(Lines(j.entries), k) {
        StoredIsEffect(s.balances, rev.entries, k);
        MirroredEffect(j, rev, k);
      }
    }
  }

  lemma MirrorMirrors(es: seq<Entry>)
    ensures Mirrors(es, Mirror(es))
  {
    hide Lines, Mirror;
  }

  lemma ReverserOfLast(js: seq<Journal>, id: nat)
    requires js != [] && js[|js| - 1].reversalOf == Some(id) && Reverser(js[..|js| - 1], id).None?
    ensures Reverser(js, id) == Some(js[|js| - 1].id)
  {
  }

  /** A journal reversed on request and its reversal reversed in turn: the second one has the entries of the
      journal, in order, and every balance is back where it was. */
  lemma ReversingTwiceRestores(s: Ledger, j: Journal, first: nat, second: nat)
    requires Inv(s) && j in s.journals && ByEvent(s.journals, first).None?
    requires ReverseJournal(s, j.id, Some(first)).result.Ok?
    requires var t := ReverseJournal(s, j.id, Some(first));
             ByEvent(t.state.journals, second).None?
                 && ReverseJournal(t.state, t.result.value.journal.id, Some(second)).result.Ok?
    ensures var t := ReverseJournal(s, j.id, Some(first));
            var u := ReverseJournal(t.state, t.result.value.journal.id, Some(second));
            && u.result.value.journal.entries == j.entries
            && forall k :: Of(u.state.balances, k) == Of(s.balances, k)
  {
    hide ReverseJournal, ByEvent, Of, Effect, Lines, Mirror, Reverser;
    var t := ReverseJournal(s, j.id, Some(first));
    var rev := t.result.value.journal;
    var u := ReverseJournal(t.state, rev.id, Some(second));
    ReverseDoesExactly(s, j, first);
    ReverseKeepsInv(s, j.id, Some(first));
    ReverseAdds(s, j, first);
    ReverseDoesExactly(t.state, rev, second);
    ReverseAdds(t.state, rev, second);
    forall k ensures Of(u.state.balances, k) == Of(s.balances, k) { EffectOfReversed(s, j, rev, k); }
    DirectionsIn(s, j);
    MirrorTwiceExactly(j.entries);
  }

  lemma DirectionsIn(s: Ledger, j: Journal)
    requires Inv(s) && j in s.journals
    ensures forall e | e in j.entries :: e.direction.Valid()
  {
    hide ValidJournal;
    ValidDirections(j);
  }

  lemma EffectOfReversed(s: Ledger, j: Journal, rev: Journal, k: AccountKey)
    requires Inv(s) && j in s.journals && rev.entries == Mirror(j.entries)
    ensures Effect(Lines(rev.entries), k) == -Effect(Lines(j.entries), k)
  {
    hide Effect, Lines;
    DirectionsIn(s, j);
    EffectOfMirror(j.entries, k);
  }

  lemma ReverseKeepsInv(s: Ledger, id: nat, eventId: Option<nat>)
    requires Inv(s)
    ensures Inv(ReverseJournal(s, id, eventId).state)
  {
    hide Inv, ReverseJournal, Handle, PostManual;
    NextKeepsInv(s, ReverseById(id, eventId), Policy(false));
  }

  /** What a reversal on request under a new event id adds: the mirror image of the journal. */
  lemma ReverseAdds(s: Ledger, j: Journal, eventId: nat)
    requires Inv(s) && j in s.journals && ByEvent(s.journals, eventId).None?
    requires ReverseJournal(s, j.id, Some(eventId)).result.Ok?
    ensures var t := ReverseJournal(s, j.id, Some(eventId));
            && t.result.value.journal.entries == Mirror(j.entries)
            && t.state.journals == s.journals + [t.result.value.journal]
  {
    hide ById, ByEvent, Reverser, Ensured, Stored, Verdict;
    hide AccountKeysOf, ReversalFault, Mirror, Inv, ValidJournal, Announced;
    assert KeysUnique(s.journals) by { KeysOf(s); }
    FoundById(s.journals, j);
  }

  lemma KeysOf(s: Ledger)
    requires Inv(s)
    ensures KeysUnique(s.journals)
  {
  }

  // ---- runs of events alone ----

  /** The events there are, by id. */
  type Catalog = map<nat, PaymentEvent>

  /** Only deliveries of catalogued events, in any order and any number of times, between changes of
      account status. */
  predicate OnlyEvents(actions: seq<Action>, cat: Catalog) {
    forall a | a in actions :: a.SetStatus? || (a.Event? && a.ev.eventId in cat && cat[a.ev.eventId] == a.ev)
  }

  function EffectOf(cat: Catalog, pol: Policy, k: AccountKey): nat -> int {
    (id: nat) => if id in cat then EventEffect(cat[id], pol, k) else 0
  }

  ghost predicate Counted(s: Ledger, cat: Catalog, pol: Policy) {
    && (forall j | j in s.journals :: j.eventId in s.inbox)
    && forall k :: Of(s.balances, k) == SumSet(s.inbox, EffectOf(cat, pol, k))
  }

  lemma NoMoneyNoEffect(ev: PaymentEvent, pol: Policy, k: AccountKey)
    requires !MovesMoney(ev.typ)
    ensures EventEffect(ev, pol, k) == 0
  {
  }

  lemma UnknownEvent(s: Ledger, ev: PaymentEvent)
    requires ev.eventId !in s.inbox && forall j | j in s.journals :: j.eventId in s.inbox
    ensures ByEvent(s.journals, ev.eventId) == None
  {
    hide ByEvent;
    ByEventMeans(s.journals, ev.eventId);
  }

  /** One handled event adds its effect to every balance. */
  lemma HandleAddsEffect(s: Ledger, ev: PaymentEvent, pol: Policy, k: AccountKey)
    requires Inv(s) && ev.eventId !in s.inbox && Handle(s, ev, pol).result.Pass?
             && ByEvent(s.journals, ev.eventId).None?
    ensures Of(Handle(s, ev, pol).state.balances, k) == Of(s.balances, k) + EventEffect(ev, pol, k)
  {
    hide Handle, Posts, EventEffect, TemplateFor, Linked, Effect, Lines, ByEvent;
    hide Of, Admits, AllValid, KeysUnique, ReversalsMirror, ReversalsUnique, Announced;
    var t := Handle(s, ev, pol).state;
    HandleKeepsInv(s, ev, pol);
    HandleDoesExactly(s, ev, pol);
    if MovesMoney(ev.typ) {
      TemplateDoesExactly(ev, pol, k);
      var j := TemplateFor(ev, pol).value;
      LinkedKeeps(s.journals, j);
      assert t.journals[..|t.journals| - 1] == s.journals;
    } else {
      TemplateAcceptsExactly(ev, pol);
      assert t.journals == s.journals;
      NoMoneyNoEffect(ev, pol, k);
    }
  }

  lemma HandleKeepsCount(s: Ledger, ev: PaymentEvent, cat: Catalog, pol: Policy)
    requires Inv(s) && Counted(s, cat, pol) && ev.eventId in cat && cat[ev.eventId] == ev
    ensures Counted(Handle(s, ev, pol).state, cat, pol)
  {
    hide Handle, Inv, TemplateFor, Linked, Admits, Posts, EventEffect, SumSet, ByEvent, Of;
    if ev.eventId in s.inbox {
      assert Handle(s, ev, pol).state == s by { SeenChangesNothing(s, ev, pol); }
    } else {
      UnknownEvent(s, ev);
      HandleDoesExactly(s, ev, pol);
      var t := Handle(s, ev, pol).state;
      if Handle(s, ev, pol).result.Pass? {
        TemplateAcceptsExactly(ev, pol);
        if MovesMoney(ev.typ) {
          TemplateHeader(ev, pol);
          LinkedKeeps(s.journals, TemplateFor(ev, pol).value);
        }
        forall k ensures Of(t.balances, k) == SumSet(t.inbox, EffectOf(cat, pol, k)) {
          HandleAddsEffect(s, ev, pol, k);
          SumSetInsert(s.inbox, EffectOf(cat, pol, k), ev.eventId);
        }
      }
    }
  }

  lemma SeenChangesNothing(s: Ledger, ev: PaymentEvent, pol: Policy)
    requires ev.eventId in s.inbox
    ensures Handle(s, ev, pol) == Handled(s, Pass)
  {
  }

  lemma {:induction false} EventsAreCounted(actions: seq<Action>, cat: Catalog, pol: Policy)
    requires OnlyEvents(actions, cat)
    ensures Counted(Run(actions, pol), cat, pol)
  {
    hide Handle, EventEffect, SumSet, Inv;
    if actions != [] {
      var init, a := actions[..|actions| - 1], actions[|actions| - 1];
      assert a in actions;
      EventsAreCounted(init, cat, pol);
      RunKeepsInv(init, pol);
      if a.Event? { HandleKeepsCount(Run(init, pol), a.ev, cat, pol); }
    } else {
      forall k ensures Of(EMPTY.balances, k) == SumSet(EMPTY.inbox, EffectOf(cat, pol, k)) {
        SumOfNone(EffectOf(cat, pol, k));
      }
    }
  }

  lemma SumOfNone(f: nat -> int)
    ensures SumSet<nat>({}, f) == 0
  {
  }

  /** A ledger fed by nothing but deliveries of catalogued events. */
  ghost predicate FedByEvents(s: Ledger, cat: Catalog, pol: Policy) {
    exists actions :: OnlyEvents(actions, cat) && s == Run(actions, pol)
  }

  /** Balances depend on nothing but the set of events handled: not on the order, the repeats, or
      the failed deliveries in between. */
  lemma BalancesDependOnEventsAlone(s: Ledger, t: Ledger, cat: Catalog, pol: Policy, k: AccountKey)
    requires FedByEvents(s, cat, pol) && FedByEvents(t, cat, pol) && s.inbox == t.inbox
    ensures Of(s.balances, k) == Of(t.balances, k) == SumSet(s.inbox, EffectOf(cat, pol, k))
  {
    hide Run, SumSet, Of, OnlyEvents;
    var a :| OnlyEvents(a, cat) && s == Run(a, pol);
    var b :| OnlyEvents(b, cat) && t == Run(b, pol);
    EventsAreCounted(a, cat, pol);
    EventsAreCounted(b, cat, pol);
  }

  // ---- a manual journal in an event's place ----

  /** A manual posting that was accepted under an event's id, before the event came: the event is then
      refused if it could not be posted anyway, and otherwise acknowledged without a journal or any change
      but its mark in the inbox. */
  lemma ManualJournalShadowsTheEvent(s: Ledger, inp: ManualInput, ev: PaymentEvent, pol: Policy)
    requires Inv(s) && PostManual(s, inp).result.Ok? && inp.eventId == Some(ev.eventId) && ev.eventId !in s.inbox
    ensures var t := PostManual(s, inp).state;
            && (Handle(t, ev, pol).result.Pass? <==> !MovesMoney(ev.typ) || Posts(ev, pol))
            && (Handle(t, ev, pol).result.Pass? ==> Handle(t, ev, pol).state == t.(inbox := t.inbox + {ev.eventId}))
  {
    hide PostManual, Handle, Inv, Posts, ByEvent;
    var t := PostManual(s, inp).state;
    ManualLeavesItsEvent(s, inp);
    ManualKeepsInv(s, inp);
    HandleDoesExactly(t, ev, pol);
    if Handle(t, ev, pol).result.Pass? { ShadowedOnlyMarks(t, ev, pol); }
  }

  lemma ManualKeepsInv(s: Ledger, inp: ManualInput)
    requires Inv(s)
    ensures Inv(PostManual(s, inp).state)
  {
    hide Inv, ReverseJournal, Handle, PostManual;
    NextKeepsInv(s, Manual(inp), Policy(false));
  }

  lemma ManualLeavesItsEvent(s: Ledger, inp: ManualInput)
    requires PostManual(s, inp).result.Ok?
    ensures inp.eventId.Some? && ByEvent(PostManual(s, inp).state.journals, inp.eventId.value).Some?
    ensures PostManual(s, inp).state.inbox == s.inbox
  {
    hide Reverser, Ensured, Stored, Verdict, AccountKeysOf, ReversalFault, AccountFault, ById;
  }

  lemma ShadowedOnlyMarks(t: Ledger, ev: PaymentEvent, pol: Policy)
    requires ByEvent(t.journals, ev.eventId).Some? && ev.eventId !in t.inbox && Handle(t, ev, pol).result.Pass?
    ensures Handle(t, ev, pol).state == t.(inbox := t.inbox + {ev.eventId})
  {
    hide TemplateFor, Linked, ByEvent, Reverser;
    if TemplateFor(ev, pol).Ok? {
      TemplateHeader(ev, pol);
      LinkedKeeps(t.journals, TemplateFor(ev, pol).value);
    }
  }

  /** A manual journal without a reversal is posted when its input is in order, it is valid, its event id is
      new, and accounts and balances let it in. */
  lemma ManualPosts(s: Ledger, inp: ManualInput)
    requires Inv(s) && ManualFault(inp).None? && inp.reverses.None? && AccountFault(s.accounts, inp.entries).None?
    requires var j := ManualJournal(inp, inp.eventId.value);
             ValidJournal(j) && ByEvent(s.journals, j.eventId).None? && Admits(s, j)
    ensures PostManual(s, inp).result.Ok?
    ensures PostManual(s, inp).state.journals == s.journals + [ManualJournal(inp, inp.eventId.value).(id := s.nextId)]
  {
    hide ByEvent, ById, Ensured, Stored, Verdict, ValidJournal, AccountFault, RefTypeOf, RefIdOf, Inv, AccountKeysOf;
    var j := ManualJournal(inp, inp.eventId.value);
    VerdictPassesValid(j);
    FreshIdIsFree(s);
  }

  /** Manual entries are let in exactly when each account exists and is active. */
  lemma {:induction false} AccountFaultExactly(accts: map<AccountKey, AccountStatus>, es: seq<Entry>)
    ensures AccountFault(accts, es).None? <==> forall e | e in es :: e.account in accts && accts[e.account] == Active
  {
    if es == [] {
    } else {
      AccountFaultExactly(accts, es[..|es| - 1]);
      assert es == es[..|es| - 1] + [es[|es| - 1]];
    }
  }

  lemma CapturedEntries(ev: PaymentEvent, pol: Policy)
    requires ev.typ == PaymentCaptured && ev.fee.amount == 0 && ev.amount.amount > 0 && TemplateFor(ev, pol).Ok?
    ensures TemplateFor(ev, pol).value.entries
            == Templates.Move(ev.Account(PspReceivable(ev.provider)), ev.Account(MerchantPayable), ev.amount)
  {
    hide Verdict, ValidQualifier;
  }

  lemma MoveKeys(x: AccountKey, y: AccountKey, m: Money)
    ensures x in AccountKeysOf(Templates.Move(x, y, m)) && y in AccountKeysOf(Templates.Move(x, y, m))
    ensures forall k | k in AccountKeysOf(Templates.Move(x, y, m)) :: k == x || k == y
  {
    hide AccountKeysOf, Keys;
    var es := Templates.Move(x, y, m);
    AccountKeysAreKeys(es);
    assert es[0] in es && es[1] in es;
    forall k ensures k in Keys(es) <==> exists e :: e in es && e.account == k { KeysAreAccounts(es, k); }
  }
}

/** What is posted to the ledger by hand: the journal an input makes, why it is refused, what a reversal consists of,
    and what becomes of an event that cannot be posted. */
module Postings {
  import opened Wrappers
  import opened Amounts
  import opened Accounts
  import opened Journals
  import opened Balances
  import opened Templates
  import opened LedgerService
  import opened LedgerRuns

  /** The journal an input asks for: its reference is the one given, else the source's id, else the key. */
  function Wanted(inp: ManualInput, eventId: nat): Journal {
    var reversal := inp.source == ReversalSource;
    var about := if inp.refType.Some? then inp.refType.value
                 else if reversal then RefReversal else if inp.source == Payout then RefSettlement else RefAdjustment;
    var named := if inp.refId != "" then inp.refId else if inp.sourceId != "" then inp.sourceId else inp.key;
    Journal(NIL, eventId, inp.merchant, inp.live, inp.source, about, Named(named),
            if reversal then JRev else Untemplated, inp.reverses, None, inp.entries)
  }

  /** The input itself is refused. */
  function InputFault(inp: ManualInput): Option<LedgerError> {
    if inp.eventId == None then Some(EventIdMissing)
    else if inp.source == PaymentEventSource then Some(ParameterInvalid)
    else if !inp.hasDescription then Some(ParameterMissing)
    else if |inp.entries| <= 1 then Some(TooFewEntries)
    else if inp.reverses.Some? && inp.source != ReversalSource then Some(ParameterInvalid)
    else None
  }

  predicate Usable(s: Ledger, k: AccountKey) {
    k in s.accounts && s.accounts[k] == Active
  }

  /** The reply is the journal that holds the key, shown as reversed if and only if it is. */
  predicate Answers(s: Ledger, reply: Reply, eventId: nat) {
    && reply.replayed && reply.journal.eventId == eventId && reply.journal.(reversedBy := None) in s.journals
    && (reply.journal.reversedBy.Some? <==> exists k :: k in s.journals && k.reversalOf == Some(reply.journal.id))
  }

  lemma EarlierAnswers(s: Ledger, eventId: nat)
    requires Inv(s) && ByEvent(s.journals, eventId).Some?
    ensures Answers(s, Reply(GetByEvent(s.journals, eventId).value, true), eventId)
  {
    hide KeysUnique, BalancesAddUp, Announced, ReversalsMirror, ReversalsUnique, ValidJournal, Reverser, ByEvent;
    ByEventMeans(s.journals, eventId);
    var j := ByEvent(s.journals, eventId).value;
    ReverserMeans(s.journals, j.id);
    assert j.(reversedBy := None) == j;
  }

  /** The journal reverses one that is there, has not been taken back, and is mirrored. */
  predicate ReversesOne(s: Ledger, id: nat, es: seq<Entry>) {
    exists j :: j in s.journals && j.id == id && Mirrors(j.entries, es)
                && forall k | k in s.journals :: k.reversalOf != Some(id)
  }

  /** A posting by hand: refused for its input, for the first account that is missing or not active, or for a journal
      that is not valid; a key used before is answered with its journal; a reversal must reverse one; and balances
      must stay in range. Otherwise exactly the journal asked for is posted, under a fresh id, announced once, and
      no account and no inbox mark changes. */
  lemma ManualPostingExactly(s: Ledger, inp: ManualInput)
    requires Inv(s)
    ensures var r := PostManual(s, inp);
            if InputFault(inp).Some? then r == Step(s, Err(InputFault(inp).value))
            else
              var j := Wanted(inp, inp.eventId.value);
              if exists i :: 0 <= i < |inp.entries| && !Usable(s, inp.entries[i].account) then
                r.state == s && exists i | 0 <= i < |inp.entries| ::
                  !Usable(s, inp.entries[i].account) && (forall k | 0 <= k < i :: Usable(s, inp.entries[k].account))
                  && r.result == Err(if inp.entries[i].account in s.accounts then AccountInactive else AccountNotFound)
              else if !ValidJournal(j) then r.state == s && r.result.Err?
              else if exists k :: k in s.journals && k.eventId == j.eventId then
                r.state == s && r.result.Ok? && Answers(s, r.result.value, j.eventId)
              else if j.reversalOf.Some? && !ReversesOne(s, j.reversalOf.value, j.entries) then
                r.state == s && r.result.Err?
              else if Stored(s.balances, j.entries).None? then r == Step(s, Err(BalanceOutOfRange))
              else
                var posted := j.(id := s.nextId);
                r == Step(Ledger(s.journals + [posted], s.accounts, Stored(s.balances, j.entries).value, s.inbox,
                                 s.outbox + [posted.id], s.nextId + 1), Ok(Reply(posted, false)))
  {
    hide Inv, PostJournal, AccountFault, ValidJournal, Stored, ReversesOne, Answers;
    if InputFault(inp).None? {
      var j := Wanted(inp, inp.eventId.value);
      assert j == ManualJournal(inp, inp.eventId.value);
      FirstBadAccount(s, inp.entries);
      if AccountFault(s.accounts, inp.entries).None? {
        PostedExactly(s, j);
      }
    }
  }

  /** The first entry whose account cannot be used decides the error. */
  lemma {:induction false} FirstBadAccount(s: Ledger, es: seq<Entry>)
    ensures AccountFault(s.accounts, es).None? <==> forall i | 0 <= i < |es| :: Usable(s, es[i].account)
    ensures AccountFault(s.accounts, es).Some? ==>
              exists i | 0 <= i < |es| ::
                !Usable(s, es[i].account) && (forall k | 0 <= k < i :: Usable(s, es[k].account))
                && AccountFault(s.accounts, es)
                   == Some(if es[i].account in s.accounts then AccountInactive else AccountNotFound)
  {
    if es == [] {
    } else {
      var n := |es| - 1;
      FirstBadAccount(s, es[..n]);
      assert forall i | 0 <= i < n :: es[..n][i] == es[i];
    }
  }

  lemma PostedExactly(s: Ledger, j: Journal)
    requires Inv(s) && j.id == NIL && j.reversedBy == None
    requires forall i | 0 <= i < |j.entries| :: Usable(s, j.entries[i].account)
    ensures var r := PostJournal(s, j);
            if !ValidJournal(j) then r.state == s && r.result.Err?
            else if exists k :: k in s.journals && k.eventId == j.eventId then
              r.state == s && r.result.Ok? && Answers(s, r.result.value, j.eventId)
            else if j.reversalOf.Some? && !ReversesOne(s, j.reversalOf.value, j.entries) then
              r.state == s && r.result.Err?
            else if Stored(s.balances, j.entries).None? then r == Step(s, Err(BalanceOutOfRange))
            else
              var posted := j.(id := s.nextId);
              r == Step(Ledger(s.journals + [posted], s.accounts, Stored(s.balances, j.entries).value, s.inbox,
                               s.outbox + [posted.id], s.nextId + 1), Ok(Reply(posted, false)))
  {
    hide Inv, ValidJournal, Stored, Ensured, AccountKeysOf, Verdict, ByEvent;
    hide ReversalFault, ById, ReversesOne, Reverser, Answers;
    VerdictPassesValid(j);
    if ValidJournal(j) {
      if ByEvent(s.journals, j.eventId).Some? { EarlierAnswers(s, j.eventId); }
      ByEventMeans(s.journals, j.eventId);
      FreshIdIsFree(s);
      FaultExactly(s, j);
      NoAccountChanges(s, j.entries);
    }
  }

  /** Accounts that are there and active stay as they are. */
  lemma NoAccountChanges(s: Ledger, es: seq<Entry>)
    requires forall i | 0 <= i < |es| :: Usable(s, es[i].account)
    ensures Ensured(s.accounts, AccountKeysOf(es)) == Ok(s.accounts)
  {
    hide Ensured, AccountKeysOf;
    AccountKeysAreKeys(es);
    forall k | k in AccountKeysOf(es) ensures Usable(s, k) {
      KeysAreAccounts(es, k);
    }
    EnsuredSame(s, AccountKeysOf(es));
  }

  lemma {:induction false} EnsuredSame(s: Ledger, keys: seq<AccountKey>)
    requires forall k | k in keys :: Usable(s, k)
    ensures Ensured(s.accounts, keys) == Ok(s.accounts)
  {
    if keys == [] {
    } else {
      EnsuredSame(s, keys[..|keys| - 1]);
      assert keys[|keys| - 1] in keys;
    }
  }

  lemma FaultExactly(s: Ledger, j: Journal)
    requires Inv(s)
    ensures ReversalFault(s.journals, j).None? <==>
              (j.reversalOf.Some? ==> ReversesOne(s, j.reversalOf.value, j.entries))
  {
    hide AllValid, BalancesAddUp, Announced, ReversalsMirror, ReversalsUnique, Mirrors, Reverser, ById;
    if j.reversalOf.Some? {
      var id := j.reversalOf.value;
      ByIdMeans(s.journals, id);
      ReverserMeans(s.journals, id);
      if ById(s.journals, id).Some? {
        forall k | k in s.journals && k.id == id ensures k == ById(s.journals, id).value {
          FoundById(s.journals, k);
        }
      }
    }
  }

  // ---- reversals ----

  /** What a reversal consists of: each entry of the journal on the other side, in order, under the journal's owner and
      mode, naming it. */
  lemma ReversalExactly(orig: Journal, eventId: nat)
    requires ReverseResult(Some(orig), eventId).Ok?
    ensures var r := ReverseResult(Some(orig), eventId).value;
            && r == Journal(NIL, eventId, orig.merchant, orig.live, ReversalSource, RefReversal, OfJournal(orig.id),
                            JRev, Some(orig.id), None, r.entries)
            && |r.entries| == |orig.entries|
            && forall i | 0 <= i < |r.entries| ::
                 r.entries[i] == Entry(orig.entries[i].account,
                                       if orig.entries[i].direction == Debit then Credit else Debit,
                                       orig.entries[i].amount)
  {
    hide Verdict;
  }

  /** Why a journal may not name another as reversed: that is not there, is reversed already, or is not mirrored. */
  lemma LinkRefusedFor(orig: Option<Journal>, rev: Journal)
    ensures ReversalVerdict(orig, rev)
            == if orig == None then Fail(JournalNotFound)
               else if orig.value.reversedBy != None then Fail(AlreadyReversed)
               else if rev.reversalOf == Some(orig.value.id) && Mirrors(orig.value.entries, rev.entries) then Pass
               else Fail(ReversalMismatch)
  {
    hide Mirrors;
  }

  /** Why it is refused: for a journal that is not there or not saved, that has been reversed, or without a valid
      result. */
  lemma ReversalRefused(orig: Option<Journal>, eventId: nat)
    ensures orig.None? ==> ReverseResult(orig, eventId) == Err(JournalNotFound)
    ensures orig.Some? && orig.value.reversedBy.Some? ==> ReverseResult(orig, eventId) == Err(AlreadyReversed)
    ensures orig.Some? && orig.value.reversedBy.None? && orig.value.id == NIL ==>
              ReverseResult(orig, eventId) == Err(JournalNotFound)
    ensures orig.Some? && orig.value.reversedBy.None? && orig.value.id != NIL && ValidJournal(orig.value)
            && eventId == NIL ==>
              ReverseResult(orig, eventId) == Err(EventIdMissing)
  {
    hide FirstFault, ValidJournal;
  }

  // ---- events that cannot be posted ----

  /** An event that moves money and lacks what its journal needs is refused as poison and leaves no trace; one that
      moves none is only marked. */
  lemma PoisonExactly(s: Ledger, ev: PaymentEvent, pol: Policy)
    requires ev.eventId !in s.inbox
    ensures MovesMoney(ev.typ) && !Posts(ev, pol) ==> Handle(s, ev, pol) == Handled(s, Fail(PoisonMessage))
    ensures !MovesMoney(ev.typ) ==> Handle(s, ev, pol) == Handled(s.(inbox := s.inbox + {ev.eventId}), Pass)
  {
    hide PostTx, Linked, Posts;
    TemplateAcceptsExactly(ev, pol);
    NoTemplateExactly(ev, pol);
  }

  lemma NoTemplateExactly(ev: PaymentEvent, pol: Policy)
    ensures TemplateFor(ev, pol) == Err(NoTemplate) <==> !MovesMoney(ev.typ)
  {
    hide Verdict, CaptureEntries, Move, ValidQualifier;
    forall j: Journal ensures Verdict(j) != Fail(NoTemplate) { VerdictKinds(j); }
  }

  lemma VerdictKinds(j: Journal)
    ensures Verdict(j) != Fail(NoTemplate)
  {
    hide FirstFault;
    FaultKinds(j, |j.entries|);
  }

  lemma {:induction false} FaultKinds(j: Journal, n: nat)
    requires n <= |j.entries|
    ensures FirstFault(j, n) != Some(NoTemplate)
  {
    hide Total;
    if n == 0 {
    } else {
      FaultKinds(j, n - 1);
    }
  }
}

/** A failed refund takes back the pending one: which journal its own journal names as reversed. */
module Linking {
  import opened Wrappers
  import opened Amounts
  import opened Accounts
  import opened Journals
  import opened Balances
  import opened Templates
  import opened LedgerService
  import opened LedgerRuns

  /** The journal in which a refund was set aside. */
  predicate SetAside(j: Journal, refundId: string) {
    j.refType == RefRefund && j.refId == Named(refundId) && j.template == JRefPend
  }

  /** Place i holds the last of them. */
  predicate LastSetAside(js: seq<Journal>, i: nat, refundId: string) {
    i < |js| && SetAside(js[i], refundId) && forall k | i < k < |js| :: !SetAside(js[k], refundId)
  }

  /** Some journal reverses the one with this id. */
  predicate TakenBack(js: seq<Journal>, id: nat) {
    exists j :: j in js && j.reversalOf == Some(id)
  }

  lemma {:induction false} NewestPendingExactly(js: seq<Journal>, refundId: string)
    ensures NewestPending(js, Named(refundId)).None? ==> forall j | j in js :: !SetAside(j, refundId)
    ensures NewestPending(js, Named(refundId)).Some? ==>
              exists i: nat :: LastSetAside(js, i, refundId) && NewestPending(js, Named(refundId)).value == js[i]
  {
    if js == [] {
    } else {
      var n := |js| - 1;
      assert js == js[..n] + [js[n]];
      NewestPendingExactly(js[..n], refundId);
      if SetAside(js[n], refundId) {
        assert LastSetAside(js, n, refundId);
      } else if NewestPending(js, Named(refundId)).Some? {
        var i: nat :| LastSetAside(js[..n], i, refundId) && NewestPending(js[..n], Named(refundId)).value == js[..n][i];
        assert LastSetAside(js, i, refundId);
      }
    }
  }

  lemma LastSetAsideIsOne(js: seq<Journal>, i: nat, k: nat, refundId: string)
    requires LastSetAside(js, i, refundId) && LastSetAside(js, k, refundId)
    ensures i == k
  {
  }

  /** What a journal for a failed refund is linked to. */
  lemma LinkedExactly(js: seq<Journal>, j: Journal, refundId: string)
    requires j.template == JRefFail && j.refId == Named(refundId) && j.reversalOf.None?
    ensures var l := Linked(js, j).reversalOf;
            && (forall i: nat | LastSetAside(js, i, refundId) ::
                  l == if !TakenBack(js, js[i].id) && Mirrors(js[i].entries, j.entries) then Some(js[i].id) else None)
            && ((forall i: nat :: !LastSetAside(js, i, refundId)) ==> l == None)
  {
    hide NewestPending, Mirrors;
    NewestPendingExactly(js, refundId);
    if NewestPending(js, Named(refundId)).Some? {
      var i: nat :| LastSetAside(js, i, refundId) && NewestPending(js, Named(refundId)).value == js[i];
      ReverserMeans(js, js[i].id);
      forall k: nat | LastSetAside(js, k, refundId) ensures k == i { LastSetAsideIsOne(js, i, k, refundId); }
    } else {
      forall i: nat ensures !LastSetAside(js, i, refundId) { NoneSetAside(js, i, refundId); }
    }
  }

  lemma NoneSetAside(js: seq<Journal>, i: nat, refundId: string)
    requires forall j | j in js :: !SetAside(j, refundId)
    ensures !LastSetAside(js, i, refundId)
  {
  }

  lemma FailedRefundHeader(ev: PaymentEvent, pol: Policy)
    requires ev.typ == RefundFailed && TemplateFor(ev, pol).Ok?
    ensures var j := TemplateFor(ev, pol).value;
            j.template == JRefFail && j.refType == RefRefund && j.refId == Named(ev.refundId) && j.reversalOf.None?
  {
    hide Verdict;
  }

  /** Handling the failure of a refund for the first time adds one journal. It names as reversed the last journal in
      which the refund was set aside, exactly when nothing reversed that one before and it is mirrored. From then on
      that one counts as reversed, and a reversal of it on request is refused. */
  lemma FailedRefundLinks(s: Ledger, ev: PaymentEvent, pol: Policy)
    requires Inv(s) && ev.typ == RefundFailed && ev.eventId !in s.inbox && ByEvent(s.journals, ev.eventId).None?
    requires Handle(s, ev, pol).result.Pass?
    ensures var t := Handle(s, ev, pol).state;
            && |t.journals| == |s.journals| + 1 && t.journals[..|s.journals|] == s.journals
            && var j := t.journals[|s.journals|];
               && j.eventId == ev.eventId && j.template == JRefFail && j.refId == Named(ev.refundId)
               && (forall i: nat | LastSetAside(s.journals, i, ev.refundId) ::
                     var p := s.journals[i];
                     j.reversalOf == if !TakenBack(s.journals, p.id) && Mirrors(p.entries, j.entries) then Some(p.id)
                                     else None)
               && ((forall i: nat :: !LastSetAside(s.journals, i, ev.refundId)) ==> j.reversalOf == None)
    ensures var t := Handle(s, ev, pol).state;
            forall p, eventId: nat | p in s.journals && t.journals[|s.journals|].reversalOf == Some(p.id)
                                     && ByEvent(t.journals, eventId).None? && eventId != NIL ::
              TakenBack(t.journals, p.id) && ReverseJournal(t, p.id, Some(eventId)) == Step(t, Err(AlreadyReversed))
  {
    hide Handle, Inv, TemplateFor, Linked, Posts, ByEvent, AdmitsEvent;
    hide Mirrors, LastSetAside, ReverseJournal, TakenBack;
    var t := Handle(s, ev, pol).state;
    HandleDoesExactly(s, ev, pol);
    HandleKeepsInv(s, ev, pol);
    TemplateAcceptsExactly(ev, pol);
    var j := TemplateFor(ev, pol).value;
    FailedRefundHeader(ev, pol);
    TemplateHeader(ev, pol);
    LinkedKeeps(s.journals, j);
    LinkedHeader(s.journals, j);
    LinkedExactly(s.journals, j, ev.refundId);
    var posted := t.journals[|s.journals|];
    assert posted == Linked(s.journals, j).(id := s.nextId) && posted in t.journals;
    forall p, eventId: nat | p in s.journals && posted.reversalOf == Some(p.id)
                             && ByEvent(t.journals, eventId).None? && eventId != NIL
      ensures TakenBack(t.journals, p.id) && ReverseJournal(t, p.id, Some(eventId)) == Step(t, Err(AlreadyReversed))
    {
      TakenBackIsFinal(t, posted, p, eventId);
    }
  }

  /** A refund set aside and then failed, with nothing about it in between: the second journal reverses the first. */
  lemma FailedRefundReverses(s: Ledger, created: PaymentEvent, failed: PaymentEvent, pol: Policy)
    requires Inv(s) && created.typ == RefundCreated && failed.typ == RefundFailed
    requires created.merchant == failed.merchant && created.live == failed.live && created.amount == failed.amount
    requires created.refundId == failed.refundId && created.eventId != failed.eventId
    requires created.eventId !in s.inbox && ByEvent(s.journals, created.eventId).None?
    requires failed.eventId !in s.inbox && ByEvent(s.journals, failed.eventId).None?
    requires var h := Handle(s, created, pol); h.result.Pass? && Handle(h.state, failed, pol).result.Pass?
    ensures var t := Handle(Handle(s, created, pol).state, failed, pol).state;
            && |t.journals| == |s.journals| + 2
            && t.journals[|s.journals| + 1].reversalOf == Some(t.journals[|s.journals|].id)
  {
    hide Handle, Inv, TemplateFor, Linked, Posts, ByEvent, AdmitsEvent, Mirrors, TakenBack, AllValid;
    var m, n := Handle(s, created, pol).state, |s.journals|;
    var t := Handle(m, failed, pol).state;
    SetAsideJournal(s, created, pol);
    HandleKeepsInv(s, created, pol);
    var p := m.journals[n];
    OneMoreEvent(s.journals, p, failed.eventId);
    FailedRefundLinks(m, failed, pol);
    FailedEntries(m, failed, pol);
    assert t.journals[n] == t.journals[..n + 1][n] == p;
    assert LastSetAside(m.journals, n, failed.refundId);
    assert Mirrors(p.entries, t.journals[n + 1].entries) by {
      MoveMirrors(failed.Account(MerchantPayable), failed.Account(RefundClearing), failed.amount);
    }
    assert !TakenBack(m.journals, p.id) by { NewIsNotTakenBack(m, n); }
  }

  lemma OneMoreEvent(js: seq<Journal>, p: Journal, eventId: nat)
    requires ByEvent(js, eventId).None? && p.eventId != eventId
    ensures ByEvent(js + [p], eventId).None?
  {
    assert (js + [p])[..|js|] == js;
  }

  lemma SetAsideJournal(s: Ledger, ev: PaymentEvent, pol: Policy)
    requires Inv(s) && ev.typ == RefundCreated && ev.eventId !in s.inbox && ByEvent(s.journals, ev.eventId).None?
    requires Handle(s, ev, pol).result.Pass?
    ensures var t := Handle(s, ev, pol).state;
            && t.inbox == s.inbox + {ev.eventId}
            && |t.journals| == |s.journals| + 1 && t.journals == s.journals + [t.journals[|s.journals|]]
            && var j := t.journals[|s.journals|];
               && SetAside(j, ev.refundId) && j.eventId == ev.eventId && j.reversalOf.None?
               && j.entries == [Entry(ev.Account(MerchantPayable), Debit, ev.amount),
                                Entry(ev.Account(RefundClearing), Credit, ev.amount)]
  {
    hide Handle, Inv, Posts, ByEvent, AdmitsEvent, NewestPending, Verdict, ValidJournal;
    HandleDoesExactly(s, ev, pol);
    TemplateAcceptsExactly(ev, pol);
  }

  lemma FailedEntries(s: Ledger, ev: PaymentEvent, pol: Policy)
    requires Inv(s) && ev.typ == RefundFailed && ev.eventId !in s.inbox && ByEvent(s.journals, ev.eventId).None?
    requires Handle(s, ev, pol).result.Pass?
    ensures var t := Handle(s, ev, pol).state;
            |t.journals| == |s.journals| + 1
            && t.journals[|s.journals|].entries == [Entry(ev.Account(RefundClearing), Debit, ev.amount),
                                                    Entry(ev.Account(MerchantPayable), Credit, ev.amount)]
  {
    hide Handle, Inv, Posts, ByEvent, AdmitsEvent, NewestPending, Verdict, ValidJournal, Mirrors, Reverser;
    HandleDoesExactly(s, ev, pol);
    TemplateAcceptsExactly(ev, pol);
  }

  lemma MoveMirrors(a: AccountKey, b: AccountKey, x: Money)
    ensures Mirrors([Entry(a, Debit, x), Entry(b, Credit, x)], [Entry(b, Debit, x), Entry(a, Credit, x)])
  {
    var es, rev := [Entry(a, Debit, x), Entry(b, Credit, x)], [Entry(b, Debit, x), Entry(a, Credit, x)];
    assert Lines(rev) == [LineOf(rev[0]), LineOf(rev[1])];
    assert Lines(Mirror(es)) == [LineOf(rev[1]), LineOf(rev[0])];
  }

  /** No journal reverses the newest one. */
  lemma NewIsNotTakenBack(s: Ledger, n: nat)
    requires Inv(s) && |s.journals| == n + 1 && s.journals[n].reversalOf.None?
    ensures !TakenBack(s.journals, s.journals[n].id)
  {
    hide AllValid, BalancesAddUp, Announced, ReversalsUnique;
    hide Mirrors;
    forall k | 0 <= k < |s.journals| ensures s.journals[k].reversalOf != Some(s.journals[n].id) {
      assert forall i | 0 <= i < k :: s.journals[i].id != s.journals[n].id;
    }
  }

  lemma LinkedHeader(js: seq<Journal>, j: Journal)
    ensures Linked(js, j).template == j.template && Linked(js, j).refId == j.refId
  {
    hide NewestPending, Reverser, Mirrors;
  }

  lemma TakenBackIsFinal(t: Ledger, j: Journal, p: Journal, eventId: nat)
    requires Inv(t) && j in t.journals && p in t.journals && j.reversalOf == Some(p.id)
    requires ByEvent(t.journals, eventId).None? && eventId != NIL
    ensures TakenBack(t.journals, p.id) && ReverseJournal(t, p.id, Some(eventId)) == Step(t, Err(AlreadyReversed))
  {
    hide Inv, ReverseJournal, ByEvent, Reverser;
    ReverserMeans(t.journals, p.id);
    ReverseDoesExactly(t, p, eventId);
  }
}

/** A run in which a manual journal takes an event's id, so that the event is acknowledged and never posted. */
module Shadowing {
  import opened Wrappers
  import opened Amounts
  import opened Accounts
  import opened Journals
  import opened Balances
  import opened Templates
  import opened LedgerService
  import opened LedgerRuns

  /** A capture of 100 and a manual adjustment of 10, both sound. */
  function SampleCapture(id: nat): PaymentEvent {
    PaymentEvent(id, PaymentCaptured, 7, "pay", true, "psp", Money(100, USD), Money(0, USD), "", "")
  }

  function SampleAdjustment(id: nat): ManualInput {
    var ev := SampleCapture(id);
    ManualInput("key", Some(id), 7, true, ManualAdjustment, "", None, "", true, None,
                Templates.Move(ev.Account(MerchantPayable), ev.Account(PspReceivable("psp")), Money(10, USD)))
  }

  /** The run: a capture is handled, an adjustment takes the id of the next capture, that capture arrives. */
  function ShadowRun(): seq<Action> {
    [Event(SampleCapture(1)), Manual(SampleAdjustment(2))]
  }

  lemma SampleCapturePosts(id: nat, pol: Policy)
    requires id != NIL
    ensures Posts(SampleCapture(id), pol)
  {
  }

  lemma EmptyAdmitsTheCapture(pol: Policy)
    ensures AdmitsEvent(EMPTY, SampleCapture(1), pol)
    ensures TemplateFor(SampleCapture(1), pol).Ok?
    ensures TemplateFor(SampleCapture(1), pol).value.entries
            == Templates.Move(SampleCapture(1).Account(PspReceivable("psp")),
                              SampleCapture(1).Account(MerchantPayable), Money(100, USD))
  {
    hide EventEffect, Posts, TemplateFor, AdmitsEvent, ValidJournal;
    var ev := SampleCapture(1);
    SampleCapturePosts(1, pol);
    TemplateAcceptsExactly(ev, pol);
    CapturedEntries(ev, pol);
    forall k ensures Open(EMPTY, k, EventEffect(ev, pol, k)) { SampleCaptureEffect(pol, k); }
    AdmitsExactly(EMPTY, ev, pol);
  }

  lemma SampleJournalIsValid(inp: ManualInput)
    requires inp == SampleAdjustment(2)
    ensures var j := ManualJournal(inp, 2);
            ValidJournal(j) && OneWay(j.entries)
    ensures ManualFault(inp) == None
  {
    hide Total;
    var ev := SampleCapture(2);
    var j := ManualJournal(inp, 2);
    MoveIsValid(j, ev.Account(MerchantPayable), ev.Account(PspReceivable("psp")), Money(10, USD));
  }

  /** The effect of the adjustment: 10 less owed to the merchant, 10 less owed by the provider. */
  lemma SampleAdjustmentEffect(k: AccountKey)
    ensures var ev := SampleCapture(2);
            Effect(Lines(SampleAdjustment(2).entries), k)
            == if k == ev.Account(MerchantPayable) || k == ev.Account(PspReceivable("psp")) then -10 else 0
  {
    hide Effect, Lines, ValidQualifier;
    var ev := SampleCapture(2);
    var es := SampleAdjustment(2).entries;
    EffectOfPair(es[0], es[1], k);
    ProviderName();
  }

  lemma ProviderName()
    ensures ValidQualifier("psp")
  {
  }

  lemma CaptureIsHandled(pol: Policy)
    ensures var h := Handle(EMPTY, SampleCapture(1), pol);
            && h.result.Pass? && h.state.inbox == {1} && |h.state.journals| == 1 && h.state.journals[0].eventId == 1
  {
    hide Handle, Inv, EventEffect, Of, AdmitsEvent, Posts, TemplateFor, Linked;
    var ev := SampleCapture(1);
    EmptyInv();
    SampleCapturePosts(1, pol);
    EmptyAdmitsTheCapture(pol);
    HandleDoesExactly(EMPTY, ev, pol);
    TemplateHeader(ev, pol);
    LinkedKeeps(EMPTY.journals, TemplateFor(ev, pol).value);
  }

  /** The first event of the run leaves two active accounts and a balance of 100 on each. */
  lemma AfterTheCapture(pol: Policy)
    ensures var s := Next(EMPTY, Event(SampleCapture(1)), pol);
            var psp, pay := SampleCapture(1).Account(PspReceivable("psp")), SampleCapture(1).Account(MerchantPayable);
            && Inv(s) && s.inbox == {1} && |s.journals| == 1 && s.journals[0].eventId == 1
            && psp in s.accounts && s.accounts[psp] == Active && pay in s.accounts && s.accounts[pay] == Active
            && forall k :: Of(s.balances, k) == if k == psp || k == pay then 100 else 0
  {
    hide Handle, Inv, EventEffect, Of, AdmitsEvent, Posts, Ensured, AccountKeysOf, EnsuredOne, TemplateFor;
    var ev := SampleCapture(1);
    var s := Next(EMPTY, Event(ev), pol);
    EmptyInv();
    CaptureIsHandled(pol);
    HandleKeepsInv(EMPTY, ev, pol);
    EmptyAdmitsTheCapture(pol);
    HandleAccounts(EMPTY, ev, pol);
    MoveKeys(ev.Account(PspReceivable("psp")), ev.Account(MerchantPayable), Money(100, USD));
    EnsuredExactly(EMPTY.accounts, AccountKeysOf(TemplateFor(ev, pol).value.entries));
    forall k
      ensures Of(s.balances, k)
              == if k == ev.Account(PspReceivable("psp")) || k == ev.Account(MerchantPayable) then 100 else 0
    {
      HandleAddsEffect(EMPTY, ev, pol, k);
      SampleCaptureEffect(pol, k);
      assert Of(EMPTY.balances, k) == 0 by { EmptyBalance(k); }
    }
  }

  lemma EmptyBalance(k: AccountKey)
    ensures Of(EMPTY.balances, k) == 0
  {
  }

  lemma SampleCaptureEffect(pol: Policy, k: AccountKey)
    ensures var ev := SampleCapture(1);
            EventEffect(ev, pol, k)
            == if k == ev.Account(PspReceivable("psp")) || k == ev.Account(MerchantPayable) then 100 else 0
  {
    hide ValidQualifier;
  }

  /** A run in which it happens: after the capture, an adjustment is accepted under id 2; the second capture,
      perfectly postable, is then acknowledged and leaves no journal, so the provider's balance is 90
      where 190 is owed. */
  lemma ShadowingHappens(pol: Policy)
    ensures var s := LedgerRuns.Run(ShadowRun(), pol);
            var ev := SampleCapture(2);
            && LedgerRuns.Reachable(s, pol) && ev.eventId !in s.inbox && Posts(ev, pol)
            && Handle(s, ev, pol) == Handled(s.(inbox := s.inbox + {ev.eventId}), Pass)
            && Of(s.balances, ev.Account(PspReceivable("psp"))) == 90
  {
    hide Handle, Inv, Posts, PostManual, ByEvent, Of, EventEffect;
    hide ManualFault, AccountFault, Effect, Lines, Admits, ManualJournal;
    var run, ev, inp := ShadowRun(), SampleCapture(2), SampleAdjustment(2);
    assert run[..1] == [run[0]] && run[..1][..0] == [];
    var s1 := Next(EMPTY, run[0], pol);
    assert LedgerRuns.Run(run[..1], pol) == s1;
    var s := Next(s1, run[1], pol);
    assert LedgerRuns.Run(run, pol) == s;
    AfterTheCapture(pol);
    AdjustmentIsPosted(s1, inp);
    SampleCapturePosts(2, pol);
    ManualJournalShadowsTheEvent(s1, inp, ev, pol);
    ManualLeavesItsEvent(s1, inp);
    ManualKeepsInv(s1, inp);
    AdjustedBalance(s1, s, inp, ev.Account(PspReceivable("psp")));
  }

  lemma AdjustmentIsPosted(s: Ledger, inp: ManualInput)
    requires inp == SampleAdjustment(2) && Inv(s) && |s.journals| == 1 && s.journals[0].eventId == 1
    requires var psp, pay := SampleCapture(1).Account(PspReceivable("psp")), SampleCapture(1).Account(MerchantPayable);
             && psp in s.accounts && s.accounts[psp] == Active && pay in s.accounts && s.accounts[pay] == Active
             && forall k :: Of(s.balances, k) == if k == psp || k == pay then 100 else 0
    ensures PostManual(s, inp).result.Ok?
    ensures PostManual(s, inp).state.journals == s.journals + [ManualJournal(inp, 2).(id := s.nextId)]
  {
    hide Inv, PostManual, Of, Effect, Lines, ValidJournal, Ensured;
    hide Stored, AccountKeysOf, AccountFault, ManualFault, OneWay, SameSigns;
    var psp, pay := SampleCapture(1).Account(PspReceivable("psp")), SampleCapture(1).Account(MerchantPayable);
    var es := inp.entries;
    SampleJournalIsValid(inp);
    ByEventMeans(s.journals, 2);
    assert es[..1] == [es[0]] && es[..1][..0] == [];
    MoveKeys(pay, psp, Money(10, USD));
    EnsuredExactly(s.accounts, AccountKeysOf(es));
    OneWayHasSameSigns(es);
    StoredExactly(s.balances, es);
    forall k ensures Within(Of(s.balances, k) + Effect(Lines(es), k)) { SampleAdjustmentEffect(k); }
    AccountFaultExactly(s.accounts, es);
    ManualPosts(s, inp);
  }

  lemma AdjustedBalance(s: Ledger, t: Ledger, inp: ManualInput, k: AccountKey)
    requires Inv(s) && Inv(t) && inp == SampleAdjustment(2) && k == SampleCapture(2).Account(PspReceivable("psp"))
    requires t.journals == s.journals + [ManualJournal(inp, 2).(id := s.nextId)] && Of(s.balances, k) == 100
    ensures Of(t.balances, k) == 90
  {
    hide Effect, Lines, Of, AllValid, KeysUnique, ReversalsMirror, ReversalsUnique, Announced;
    SampleAdjustmentEffect(k);
    assert t.journals[..|t.journals| - 1] == s.journals;
  }
}

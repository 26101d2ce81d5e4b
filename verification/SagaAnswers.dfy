/** What an authorize saga makes of the providers' answers: attempt by attempt, and for the payment. */
module SagaAnswers {
  import opened Wrappers
  import opened Amounts
  import opened Attempts
  import opened Payments
  import opened PaymentStore
  import opened AuthorizeSaga

  // ---- reading a reply and the inquiries after it ----

  /** A failure that leaves open whether the money was reserved. */
  predicate Undecided(r: Reply) {
    r.Failing? && (r.category in {NoCategory, ProviderTimeout, UnknownCategory} || r.category.OtherCategory?)
  }

  predicate Silent(q: Inquiry) {
    q == NoAnswer || q == SaysPending
  }

  /** Inquiry i is the first to say anything. */
  predicate FirstToSay(answers: seq<Inquiry>, i: nat) {
    i < |answers| && !Silent(answers[i]) && forall k | 0 <= k < i :: Silent(answers[k])
  }

  predicate AllSilent(answers: seq<Inquiry>) {
    forall q | q in answers :: Silent(q)
  }

  /** The attempt as the provider's reply, and after an undecided one the first inquiry to say anything, leave it. */
  predicate Shows(a: AttemptRow, reply: Reply, answers: seq<Inquiry>) {
    match reply
    case Approving(approval) => a == AttemptRow(a.provider, Approved, NoCategory, "", approval.reference)
    case Acting(ref, _) => a.status == NeedsAction && a.reference == ref
    case Failing(category, code, _) =>
      if !Undecided(reply) then
        && a.category == category && a.code == code
        && a.status == if category in {ProviderConfigError, ProviderUnavailable, ProviderRateLimited} then Unavailable
                       else Declined
      else
        && (AllSilent(answers) ==> a.category == category && a.code == code && a.status == Unknown)
        && forall i | 0 <= i < |answers| && FirstToSay(answers, i) :: Told(a, answers[i])
  }

  predicate Told(a: AttemptRow, q: Inquiry) {
    match q
    case SaysAuthorized(ref) => a.status == Approved && a.reference == ref
    case SaysCaptured(ref) => a.status == Approved && a.reference == ref
    case SaysNotFound => a.status == Unavailable && a.category == ProviderUnavailable
    case SaysFailed(code) => a.status == Declined && a.category == DeclinedHard && a.code == code
    case _ => false
  }

  /** The payment authorized, and captured too if it captures by itself and the money was or could be taken. */
  predicate Holds(start: Row, p: Row, captured: bool, reported: Money) {
    && p.authorized == start.amount
    && if start.captureMethod == Automatic && captured
       then p.status == Payments.Captured && p.captured == if reported.amount > 0 then reported else start.amount
       else p.status == Authorized && p.captured == start.captured
  }

  predicate NoneIsApproved(p: Row) {
    forall a | a in p.attempts :: a.status != Approved
  }

  /** The payment as the last answer leaves it. */
  predicate Leaves(start: Row, p: Row, reply: Reply, answers: seq<Inquiry>, captureOk: bool) {
    match reply
    case Approving(a) => Holds(start, p, a.captured || captureOk, a.reported)
    case Acting(ref, _) => p.status == RequiresAction && p.reference == ref && NoneIsApproved(p)
    case Failing(_, _, _) =>
      if !Undecided(reply) then p.status == Failed && NoneIsApproved(p)
      else
        && (AllSilent(answers) ==> p.status == Created && NoneIsApproved(p))
        && forall i | 0 <= i < |answers| && FirstToSay(answers, i) ::
             match answers[i]
             case SaysAuthorized(_) => Holds(start, p, captureOk, Money(0, start.amount.currency))
             case SaysCaptured(_) => Holds(start, p, true, Money(0, start.amount.currency))
             case _ => p.status == Failed && NoneIsApproved(p)
  }

  /** Another provider may be tried after this attempt. */
  predicate MayGoOn(a: AttemptRow) {
    || a.status == Unavailable
    || (a.status == Declined && a.category == DeclinedSoft
        && a.code in {"processing_error", "issuer_unavailable", "try_again_later"})
  }

  /** After n attempts, the last of which is a, a provider is left to try, and there is room and time for it. */
  predicate OneIsLeft(a: AttemptRow, n: nat, names: seq<string>, cfg: Config, env: Env) {
    && MayGoOn(a) && n < cfg.maxAttempts && !env.timeShort(n)
    && (n < |names| || (cfg.retrySame && a.status == Unavailable))
  }

  // ---- the outcome of one round ----

  lemma {:induction false} ResolvedExactly(out: Reply, answers: seq<Inquiry>)
    ensures AllSilent(answers) ==> Resolved(out, answers) == out
    ensures forall i | 0 <= i < |answers| && FirstToSay(answers, i) ::
              Resolved(out, answers) == match answers[i]
                                        case SaysAuthorized(ref) =>
                                          Approving(Approval("", ref, None, 0, false, Money(0, Other(""))))
                                        case SaysCaptured(ref) =>
                                          Approving(Approval("", ref, None, 0, true, Money(0, Other(""))))
                                        case SaysNotFound => Failing(ProviderUnavailable, "timeout_not_found", "")
                                        case SaysFailed(code) => Failing(DeclinedHard, code, "")
                                        case _ => out
  {
    if answers == [] {
    } else {
      hide FirstToSay, AllSilent, Silent, Decisive;
      ResolvedExactly(out, answers[1..]);
      RestAnswers(answers);
      forall i | 0 <= i < |answers| && FirstToSay(answers, i)
        ensures if Silent(answers[0]) then i > 0 && FirstToSay(answers[1..], i - 1) else i == 0
      {
        FirstOfRest(answers, i);
      }
      DecisiveExactly(answers[0]);
    }
  }

  lemma RestAnswers(answers: seq<Inquiry>)
    requires answers != []
    ensures AllSilent(answers) <==> Silent(answers[0]) && AllSilent(answers[1..])
  {
    hide Silent;
    assert answers == [answers[0]] + answers[1..];
  }

  lemma FirstOfRest(answers: seq<Inquiry>, i: nat)
    requires FirstToSay(answers, i)
    ensures if Silent(answers[0]) then i > 0 && FirstToSay(answers[1..], i - 1) else i == 0
  {
    hide Silent;
    if i > 0 {
      assert answers[1..][i - 1] == answers[i];
      assert forall k | 0 <= k < i - 1 :: answers[1..][k] == answers[k + 1];
    }
  }

  lemma DecisiveExactly(q: Inquiry)
    ensures Decisive(q) <==> !Silent(q)
  {
  }

  function MarkedBy(a: AttemptRow, out: Reply): AttemptRow {
    match out
    case Approving(approval) => a.MarkApproved(approval.reference)
    case Acting(ref, _) => a.MarkRequiresAction(ref)
    case Failing(category, code, ref) => a.MarkFailed(category, code, ref)
  }

  lemma OutcomeShows(a: AttemptRow, env: Env, n: nat)
    ensures Shows(MarkedBy(a, env.Outcome(n)), env.reply(n), env.answers(n))
  {
    var reply, answers := env.reply(n), env.answers(n);
    if reply.Failing? {
      FailureStatusExactly(a, reply.category, reply.code, reply.reference);
      assert IsUnknown(reply) <==> Undecided(reply);
      if Undecided(reply) {
        hide Resolved, FirstToSay, AllSilent;
        ResolvedExactly(reply, answers);
        forall i | 0 <= i < |answers| && FirstToSay(answers, i) ensures Told(MarkedBy(a, env.Outcome(n)), answers[i]) {
          SaysSomething(answers, i);
          AnswerTells(a, answers[i], env.Outcome(n));
        }
      }
    }
  }

  lemma SaysSomething(answers: seq<Inquiry>, i: nat)
    requires FirstToSay(answers, i)
    ensures !Silent(answers[i])
  {
  }

  lemma AnswerTells(a: AttemptRow, q: Inquiry, out: Reply)
    requires q.SaysAuthorized? ==> out == Approving(Approval("", q.reference, None, 0, false, Money(0, Other(""))))
    requires q.SaysCaptured? ==> out == Approving(Approval("", q.reference, None, 0, true, Money(0, Other(""))))
    requires q.SaysNotFound? ==> out == Failing(ProviderUnavailable, "timeout_not_found", "")
    requires q.SaysFailed? ==> out == Failing(DeclinedHard, q.code, "")
    requires !Silent(q)
    ensures Told(MarkedBy(a, out), q)
  {
  }

  // ---- the payment after one round ----

  lemma ApprovalLeaves(start: Row, q: Row, a: Approval, env: Env)
    requires q == start.(attempts := q.attempts, provider := q.provider)
    ensures var e := SaveApproval(q, a, env);
            && e.row.attempts == q.attempts
            && (e.error.None? ==> Holds(start, e.row, a.captured || env.captureOk, a.reported))
  {
    hide CanTransition, Money.GreaterThan;
  }

  lemma ActionLeaves(q: Row, ref: string, expires: Option<int>, now: int, fault: Option<PaymentError>)
    ensures var e := SaveChange(q, q.RequireAction(ref, expires, now), fault);
            && e.row.attempts == q.attempts
            && (e.error.None? ==> e.row.status == RequiresAction && e.row.reference == ref)
  {
  }

  lemma FailureLeaves(q: Row, prov: string, fault: Option<PaymentError>)
    ensures var e := SaveChange(q, q.Fail(prov), fault);
            && e.row.attempts == q.attempts && (e.error.None? ==> e.row.status == Payments.Failed)
  {
  }

  /** How the payment must stand for each outcome of the last round. */
  predicate Fits(start: Row, p: Row, out: Reply, captureOk: bool) {
    match out
    case Approving(a) => Holds(start, p, a.captured || captureOk, a.reported)
    case Acting(ref, _) => p.status == RequiresAction && p.reference == ref && NoneIsApproved(p)
    case Failing(_, _, _) =>
      p.status == (if Undecided(out) then Created else Payments.Failed) && NoneIsApproved(p)
  }

  lemma FitsLeaves(start: Row, p: Row, env: Env, n: nat)
    requires Fits(start, p, env.Outcome(n), env.captureOk)
    ensures Leaves(start, p, env.reply(n), env.answers(n), env.captureOk)
  {
    var reply, answers := env.reply(n), env.answers(n);
    if reply.Failing? {
      FailureStatusExactly(NewAttempt(""), reply.category, reply.code, reply.reference);
      assert IsUnknown(reply) <==> Undecided(reply);
      if Undecided(reply) {
        hide Resolved, FirstToSay, AllSilent, NoneIsApproved, Holds;
        ResolvedExactly(reply, answers);
        forall i | 0 <= i < |answers| && FirstToSay(answers, i)
          ensures match answers[i]
                  case SaysAuthorized(_) => Holds(start, p, env.captureOk, Money(0, start.amount.currency))
                  case SaysCaptured(_) => Holds(start, p, true, Money(0, start.amount.currency))
                  case _ => p.status == Payments.Failed && NoneIsApproved(p)
        {
          SaysSomething(answers, i);
          NothingReported(start, p, env.captureOk);
          NothingReported(start, p, true);
        }
      }
    }
  }

  lemma NothingReported(start: Row, p: Row, captured: bool)
    ensures Holds(start, p, captured, Money(0, Other("")))
            <==> Holds(start, p, captured, Money(0, start.amount.currency))
  {
  }

  // ---- the whole saga ----

  /** Every attempt but the last shows its reply, and then there was another to make. */
  predicate Story(attempts: seq<AttemptRow>, names: seq<string>, cfg: Config, env: Env) {
    forall k | 0 <= k < |attempts| - 1 ::
      Shows(attempts[k], env.reply(k + 1), env.answers(k + 1)) && OneIsLeft(attempts[k], k + 1, names, cfg, env)
  }

  predicate Underway(start: Row, p: Row, names: seq<string>, cfg: Config, env: Env) {
    && names != [] && Distinct(names) && start.status == Created
    && p == start.(attempts := p.attempts, provider := p.provider)
    && p.attempts != [] && Trail(p.attempts, names, cfg) && Story(p.attempts, names, cfg, env)
  }

  /** A saga that ends without error: the last attempt and the payment are as the last answer leaves them, and a
      failed payment has nothing left to try. */
  predicate Ended(start: Row, e: End, names: seq<string>, cfg: Config, env: Env) {
    e.error.None? ==>
      var n := |e.row.attempts|;
      && n > 0 && Shows(e.row.attempts[n - 1], env.reply(n), env.answers(n))
      && Leaves(start, e.row, env.reply(n), env.answers(n), env.captureOk)
      && (e.row.status == Payments.Failed ==> !OneIsLeft(e.row.attempts[n - 1], n, names, cfg, env))
  }

  lemma ChoiceExactly(attempts: seq<AttemptRow>, names: seq<string>, cfg: Config, env: Env, cat: Category, code: string,
                      ref: string, a: AttemptRow)
    requires names != [] && Distinct(names) && Trail(attempts, names, cfg)
    requires attempts[|attempts| - 1] == a.MarkFailed(cat, code, ref)
    ensures NextCandidate(attempts, names, Place(|attempts|, names), cfg, env).provider.Some?
            <==> OneIsLeft(attempts[|attempts| - 1], |attempts|, names, cfg, env)
  {
    var n := |attempts|;
    var i, last := Place(n, names), attempts[n - 1];
    assert last.provider == names[i];
    assert NextOther(names, i, last.provider)
           == if i + 1 < |names| then Choice(i + 1, Some(names[i + 1])) else Choice(i, None);
    FailureStatusExactly(a, cat, code, ref);
    FailoverExactlyWhen(a, cat, code, ref);
  }

  /** The saga after one round, by its outcome. */
  lemma OneRound(p: Row, names: seq<string>, i: nat, cfg: Config, env: Env)
    requires p.attempts != []
    ensures var n, last := |p.attempts|, p.attempts[|p.attempts| - 1];
            var out := env.Outcome(n);
            var q := WithLast(p, MarkedBy(last, out));
            var c := NextCandidate(q.attempts, names, i, cfg, env);
            Saga(p, names, i, cfg, env)
            == match out
               case Approving(a) => SaveApproval(q, a.(provider := last.provider), env)
               case Acting(ref, expires) => SaveChange(q, q.RequireAction(ref, expires, env.now(n)), env.fault(n))
               case Failing(_, _, _) =>
                 if q.attempts[n - 1].status == Unknown then SaveOr(q, q, env.fault(n))
                 else if c.provider.None? then SaveChange(q, q.Fail(last.provider), env.fault(n))
                 else if q.StartAttempt(c.provider.value).Err?
                 then End(q, Some(q.StartAttempt(c.provider.value).error))
                 else
                   var next := q.StartAttempt(c.provider.value).value;
                   if env.fault(n).Some? then End(next, env.fault(n)) else Saga(next, names, c.index, cfg, env)
  {
    hide SaveApproval, SaveChange, NextCandidate, Row.StartAttempt, Row.Fail, Row.RequireAction;
  }

  lemma {:induction false} SagaTells(start: Row, p: Row, names: seq<string>, cfg: Config, env: Env)
    requires Underway(start, p, names, cfg, env)
    ensures var e := Saga(p, names, Place(|p.attempts|, names), cfg, env);
            Story(e.row.attempts, names, cfg, env) && Ended(start, e, names, cfg, env)
    decreases if cfg.maxAttempts > |p.attempts| then cfg.maxAttempts - |p.attempts| else 0
  {
    hide SaveApproval, SaveChange, NextCandidate, Row.StartAttempt, Row.Fail, Row.RequireAction, Saga, Trail, Story;
    hide Shows, OneIsLeft, Ended, Holds, Leaves, Place, Distinct;
    var n, last := |p.attempts|, p.attempts[|p.attempts| - 1];
    var out := env.Outcome(n);
    var q := WithLast(p, MarkedBy(last, out));
    OneRound(p, names, Place(n, names), cfg, env);
    OutcomeShows(last, env, n);
    LastKeepsTrail(p, MarkedBy(last, out), names, cfg);
    LastKeepsStory(p, MarkedBy(last, out), names, cfg, env);
    match out {
      case Approving(a) =>
        ApprovalLeaves(start, q, a.(provider := last.provider), env);
        RoundEnds(start, q, SaveApproval(q, a.(provider := last.provider), env), out, names, cfg, env);
      case Acting(ref, expires) =>
        ActionLeaves(q, ref, expires, env.now(n), env.fault(n));
        var e := SaveChange(q, q.RequireAction(ref, expires, env.now(n)), env.fault(n));
        RoundEnds(start, q, e, out, names, cfg, env);
      case Failing(cat, code, ref) =>
        FailedRound(start, p, q, names, cfg, env);
    }
  }

  lemma LastKeepsStory(p: Row, a: AttemptRow, names: seq<string>, cfg: Config, env: Env)
    requires p.attempts != [] && Story(p.attempts, names, cfg, env)
    ensures Story(WithLast(p, a).attempts, names, cfg, env)
  {
    hide Shows, OneIsLeft;
  }

  /** How the payment stands after a last round, apart from its earlier attempts. */
  predicate StandsAs(start: Row, p: Row, out: Reply, captureOk: bool) {
    match out
    case Approving(a) => Holds(start, p, a.captured || captureOk, a.reported)
    case Acting(ref, _) => p.status == RequiresAction && p.reference == ref
    case Failing(_, _, _) => p.status == if Undecided(out) then Created else Payments.Failed
  }

  lemma RoundEnds(start: Row, q: Row, e: End, out: Reply, names: seq<string>, cfg: Config, env: Env)
    requires q.attempts != [] && e.row.attempts == q.attempts && out == env.Outcome(|q.attempts|)
    requires Story(q.attempts, names, cfg, env)
    requires var n := |q.attempts|;
             && Shows(q.attempts[n - 1], env.reply(n), env.answers(n))
             && (!out.Approving? ==> q.attempts[n - 1].status != Approved)
             && (e.error.None? ==> StandsAs(start, e.row, out, env.captureOk))
             && (e.error.None? && out.Failing? && !Undecided(out) ==>
                   !OneIsLeft(q.attempts[n - 1], n, names, cfg, env))
    ensures Story(e.row.attempts, names, cfg, env) && Ended(start, e, names, cfg, env)
  {
    hide Shows, OneIsLeft, Undecided, Leaves, FirstToSay, AllSilent;
    if e.error.None? {
      var n := |q.attempts|;
      if !out.Approving? {
        forall a | a in e.row.attempts ensures a.status != Approved {
          var k :| 0 <= k < n && e.row.attempts[k] == a;
          if k < n - 1 { EarlierNotApproved(q.attempts, k, names, cfg, env); }
        }
      }
      assert Fits(start, e.row, out, env.captureOk);
      FitsLeaves(start, e.row, env, n);
    }
  }

  lemma EarlierNotApproved(attempts: seq<AttemptRow>, k: nat, names: seq<string>, cfg: Config, env: Env)
    requires Story(attempts, names, cfg, env) && k < |attempts| - 1
    ensures attempts[k].status != Approved
  {
    hide Shows;
  }

  lemma MarkedStatus(a: AttemptRow, out: Reply)
    ensures !out.Approving? ==> MarkedBy(a, out).status != Approved
    ensures out.Failing? ==> (MarkedBy(a, out).status == Unknown <==> Undecided(out))
  {
    if out.Failing? { FailureStatusExactly(a, out.category, out.code, out.reference); }
  }

  lemma StoryGoesOn(attempts: seq<AttemptRow>, next: seq<AttemptRow>, names: seq<string>, cfg: Config, env: Env)
    requires attempts != [] && |next| == |attempts| + 1 && next[..|attempts|] == attempts
    requires Story(attempts, names, cfg, env)
    requires var n := |attempts|;
             Shows(attempts[n - 1], env.reply(n), env.answers(n)) && OneIsLeft(attempts[n - 1], n, names, cfg, env)
    ensures Story(next, names, cfg, env)
  {
    hide Shows, OneIsLeft;
    forall k | 0 <= k < |next| - 1
      ensures Shows(next[k], env.reply(k + 1), env.answers(k + 1)) && OneIsLeft(next[k], k + 1, names, cfg, env)
    {
      assert next[k] == next[..|attempts|][k] == attempts[k];
    }
  }

  /** After a failed attempt: the saga stops with nothing left to try, or goes on with one attempt more. */
  lemma {:induction false} FailedRound(start: Row, p: Row, q: Row, names: seq<string>, cfg: Config, env: Env)
    requires Underway(start, p, names, cfg, env) && env.Outcome(|p.attempts|).Failing?
    requires q == WithLast(p, MarkedBy(p.attempts[|p.attempts| - 1], env.Outcome(|p.attempts|)))
    requires Trail(q.attempts, names, cfg) && Story(q.attempts, names, cfg, env)
    requires Shows(q.attempts[|p.attempts| - 1], env.reply(|p.attempts|), env.answers(|p.attempts|))
    ensures var e := Saga(p, names, Place(|p.attempts|, names), cfg, env);
            Story(e.row.attempts, names, cfg, env) && Ended(start, e, names, cfg, env)
    decreases if cfg.maxAttempts > |p.attempts| then cfg.maxAttempts - |p.attempts| else 0, 0
  {
    hide SaveChange, NextCandidate, Row.StartAttempt, Row.Fail, Saga, Trail, Story, Shows, OneIsLeft, Ended;
    hide Place, Distinct, Undecided;
    var n, last, out := |p.attempts|, p.attempts[|p.attempts| - 1], env.Outcome(|p.attempts|);
    var c := NextCandidate(q.attempts, names, Place(n, names), cfg, env);
    OneRound(p, names, Place(n, names), cfg, env);
    MarkedStatus(last, out);
    ChoiceExactly(q.attempts, names, cfg, env, out.category, out.code, out.reference, last);
    if q.attempts[n - 1].status == Unknown {
      RoundEnds(start, q, SaveOr(q, q, env.fault(n)), out, names, cfg, env);
    } else if c.provider.None? {
      FailureLeaves(q, last.provider, env.fault(n));
      RoundEnds(start, q, SaveChange(q, q.Fail(last.provider), env.fault(n)), out, names, cfg, env);
    } else if q.StartAttempt(c.provider.value).Err? {
      RoundEnds(start, q, End(q, Some(q.StartAttempt(c.provider.value).error)), out, names, cfg, env);
    } else {
      var next := q.StartAttempt(c.provider.value).value;
      StartedIsLonger(q, c.provider.value);
      ChoiceFollowsTrail(q.attempts, names, cfg, env);
      TrailGrows(q.attempts, c.provider.value, names, cfg);
      assert next.attempts[..n] == q.attempts;
      StoryGoesOn(q.attempts, next.attempts, names, cfg, env);
      if env.fault(n).Some? {
        ErrorEnded(start, next, env.fault(n), names, cfg, env);
      } else {
        StartedOnly(q, c.provider.value);
        SagaTells(start, next, names, cfg, env);
      }
    }
  }

  lemma ErrorEnded(start: Row, p: Row, fault: Option<PaymentError>, names: seq<string>, cfg: Config, env: Env)
    requires fault.Some?
    ensures Ended(start, End(p, fault), names, cfg, env)
  {
  }

  lemma StartedOnly(q: Row, prov: string)
    requires q.StartAttempt(prov).Ok?
    ensures var next := q.StartAttempt(prov).value;
            next == q.(attempts := next.attempts, provider := next.provider)
  {
  }

  /** The whole story of a saga, by the replies and inquiries alone: every attempt shows its answer; each one but the
      last allowed another, and there was one left, within the limit and in time; and without error the payment is
      as the last answer leaves it, and has failed only when nothing was left to try. */
  lemma SagaTellsTheAnswers(start: Row, names: seq<string>, config: Config, env: Env, e: End)
    requires SagaRan(start, names, config, env, e)
    ensures var max := config.maxAttempts;
            var cfg := Config(if max <= 0 then 2 else if max > 3 then 3 else max, config.retrySame);
            && Story(e.row.attempts, names, cfg, env) && Ended(start, e, names, cfg, env)
  {
    hide Saga, Shows, OneIsLeft, Ended;
    FirstTrail(names, config.WithDefaults());
    SagaTells(start, start, names, config.WithDefaults(), env);
  }
}

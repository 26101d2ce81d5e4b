/** The authorize saga: one provider after another, until one approves, asks for action, leaves the
    outcome unknown, or no further provider may be tried. */
module AuthorizeSaga {
  import opened Wrappers
  import opened Amounts
  import opened Attempts
  import opened Payments
  import opened PaymentStore
  import P = PaymentRuns

  datatype Config = Config(maxAttempts: int, retrySame: bool) {

    /** Two attempts unless set, and never more than three. */
    function WithDefaults(): Config {
      this.(maxAttempts := if maxAttempts <= 0 then 2 else if maxAttempts > 3 then 3 else maxAttempts)
    }
  }

  datatype Reply =
    | Approving(approval: Approval)
    | Acting(reference: string, expires: Option<int>)
    | Failing(category: Category, code: string, reference: string)

  // ---- asking again after an unknown outcome ----

  datatype Inquiry = NoAnswer | SaysAuthorized(reference: string) | SaysCaptured(reference: string) | SaysNotFound
                   | SaysFailed(code: string) | SaysPending

  predicate Decisive(q: Inquiry) {
    !q.NoAnswer? && !q.SaysPending?
  }

  /** What a decisive answer makes of the authorization: one the provider has no record of counts as
      unavailable, so that another provider may be tried. */
  function Settled(q: Inquiry): Reply
    requires Decisive(q)
  {
    var none := Money(0, Other(""));
    match q
    case SaysAuthorized(ref) => Approving(Approval("", ref, None, 0, false, none))
    case SaysCaptured(ref) => Approving(Approval("", ref, None, 0, true, none))
    case SaysNotFound => Failing(ProviderUnavailable, "timeout_not_found", "")
    case SaysFailed(code) => Failing(DeclinedHard, code, "")
  }

  /** The outcome after asking again: the first decisive answer settles it. */
  function Resolved(out: Reply, answers: seq<Inquiry>): Reply {
    if answers == [] then out else if Decisive(answers[0]) then Settled(answers[0]) else Resolved(out, answers[1..])
  }

  method ResolveUnknown(out: Reply, answers: seq<Inquiry>) returns (r: Reply)
    ensures r == Resolved(out, answers)
  {
    for i := 0 to |answers|
      invariant Resolved(out, answers) == Resolved(out, answers[i..])
    {
      if Decisive(answers[i]) { return Settled(answers[i]); }
    }
    return out;
  }

  /** Without a decisive answer the outcome stays as it was; otherwise the first one, and no later one,
      settles it. */
  lemma {:induction false} FirstDecisiveSettles(out: Reply, answers: seq<Inquiry>)
    ensures (forall q | q in answers :: !Decisive(q)) ==> Resolved(out, answers) == out
    ensures forall i | 0 <= i < |answers| && Decisive(answers[i]) && (forall k | 0 <= k < i :: !Decisive(answers[k])) ::
              Resolved(out, answers) == Settled(answers[i])
  {
    if answers == [] {
    } else {
      FirstDecisiveSettles(out, answers[1..]);
      forall i | 0 <= i < |answers| && Decisive(answers[i]) && (forall k | 0 <= k < i :: !Decisive(answers[k]))
        ensures Resolved(out, answers) == Settled(answers[i])
      {
        if i > 0 { assert !Decisive(answers[0]) && answers[i] == answers[1..][i - 1]; }
      }
    }
  }

  /** A failed reply whose category leaves the outcome open. */
  predicate IsUnknown(r: Reply) {
    r.Failing? && StatusFor(r.category) == Unknown
  }

  /** Everything the saga cannot decide: what the provider replies to the n-th authorization and to the
      inquiries that follow an unknown outcome, whether time is short, how the n-th write fails if it fails,
      whether the one immediate capture works, and what the clock shows. */
  datatype Env = Env(reply: nat -> Reply, answers: nat -> seq<Inquiry>, timeShort: nat -> bool,
                     fault: nat -> Option<PaymentError>, captureOk: bool, now: nat -> int) {

    /** What the n-th authorization comes to. */
    function Outcome(n: nat): Reply {
      if IsUnknown(reply(n)) then Resolved(reply(n), answers(n)) else reply(n)
    }
  }

  /** How the saga ended: the payment in memory, and the error if there was one. */
  datatype End = End(row: Row, error: Option<PaymentError>)

  predicate Distinct(names: seq<string>) {
    forall i, j | 0 <= i < j < |names| :: names[i] != names[j]
  }

  // ---- candidates ----

  /** The names in the order they are considered: the token's provider alone, or else the preferred one
      and then the usual order. */
  function Mentions(ordered: seq<string>, token: string, preferred: string): seq<string> {
    if token != "" then [token] else if preferred != "" then [preferred] + ordered else ordered
  }

  /** Whether the i-th mention of a name finds it usable: known, supporting the currency, circuit closed.
      The question is asked anew at each mention that is not already a candidate. */
  type Usable = (string, nat) -> bool

  /** Each candidate is a mention found usable, in order of mention. */
  predicate PickedInOrder(out: seq<string>, at: seq<nat>, names: seq<string>, usable: Usable) {
    && |at| == |out|
    && (forall i | 0 <= i < |at| :: at[i] < |names| && names[at[i]] == out[i] && usable(out[i], at[i]))
    && (forall i, j | 0 <= i < j < |at| :: at[i] < at[j])
  }

  /** The candidates are those of the first n mentions. */
  predicate RoutedUpTo(n: nat, out: seq<string>, at: seq<nat>, names: seq<string>, usable: Usable)
    requires n <= |names|
  {
    && Distinct(out) && PickedInOrder(out, at, names, usable) && (forall k | 0 <= k < |at| :: at[k] < n)
    && forall k | 0 <= k < n && usable(names[k], k) :: names[k] in out
  }

  lemma RoutedFurther(n: nat, out: seq<string>, at: seq<nat>, names: seq<string>, usable: Usable)
    requires n < |names| && RoutedUpTo(n, out, at, names, usable)
    ensures if names[n] !in out && usable(names[n], n)
            then RoutedUpTo(n + 1, out + [names[n]], at + [n], names, usable)
            else RoutedUpTo(n + 1, out, at, names, usable)
  {
  }

  /** Candidates without repeats, in order of mention; every mention found usable is among them. at tells
      which mention each candidate comes from. */
  method Route(ordered: seq<string>, usable: Usable, token: string, preferred: string)
    returns (out: seq<string>, ghost at: seq<nat>)
    ensures Distinct(out) && PickedInOrder(out, at, Mentions(ordered, token, preferred), usable)
    ensures var names := Mentions(ordered, token, preferred);
            forall i | 0 <= i < |names| && usable(names[i], i) :: names[i] in out
  {
    out, at := [], [];
    if token != "" {
      if usable(token, 0) { out, at := [token], [0]; }
      return;
    }
    ghost var names := Mentions(ordered, token, preferred);
    var first := 0;
    if preferred != "" {
      if usable(preferred, 0) { out, at := [preferred], [0]; }
      first := 1;
    }
    for i := 0 to |ordered|
      invariant RoutedUpTo(first + i, out, at, names, usable)
    {
      assert names[first + i] == ordered[i];
      RoutedFurther(first + i, out, at, names, usable);
      if ordered[i] !in out && usable(ordered[i], first + i) { out, at := out + [ordered[i]], at + [first + i]; }
    }
  }

  datatype Choice = Choice(index: nat, provider: Option<string>)

  /** The next name after position i that is not the last provider. */
  function NextOther(names: seq<string>, i: nat, last: string): Choice
    decreases |names| - i
  {
    if i + 1 >= |names| then Choice(i, None)
    else if names[i + 1] != last then Choice(i + 1, Some(names[i + 1]))
    else NextOther(names, i + 1, last)
  }

  /** The same provider may be asked again, when that is configured and it was unavailable. */
  predicate Repeatable(last: AttemptRow, cfg: Config) {
    cfg.retrySame && last.status == Unavailable
  }

  /** The provider to try after the last attempt, if the rules allow one. */
  function NextCandidate(attempts: seq<AttemptRow>, names: seq<string>, i: nat, cfg: Config, env: Env): Choice
    requires attempts != []
  {
    var last := attempts[|attempts| - 1];
    if !last.CanFailover() || |attempts| >= cfg.maxAttempts || env.timeShort(|attempts|) then Choice(i, None)
    else
      var c := NextOther(names, i, last.provider);
      if c.provider.Some? then c
      else if Repeatable(last, cfg) then Choice(c.index, Some(last.provider))
      else c
  }

  method ChooseNext(attempts: seq<AttemptRow>, names: seq<string>, i: nat, cfg: Config, env: Env) returns (c: Choice)
    requires attempts != []
    ensures c == NextCandidate(attempts, names, i, cfg, env)
  {
    var last := attempts[|attempts| - 1];
    if !last.CanFailover() { return Choice(i, None); }
    if |attempts| >= cfg.maxAttempts { return Choice(i, None); }
    if env.timeShort(|attempts|) { return Choice(i, None); }
    var idx := i;
    while idx + 1 < |names|
      invariant i <= idx && NextOther(names, i, last.provider) == NextOther(names, idx, last.provider)
    {
      idx := idx + 1;
      if names[idx] != last.provider { return Choice(idx, Some(names[idx])); }
    }
    if Repeatable(last, cfg) { return Choice(idx, Some(last.provider)); }
    return Choice(idx, None);
  }

  // ---- the saga ----

  function WithLast(p: Row, a: AttemptRow): Row
    requires p.attempts != []
  {
    p.(attempts := p.attempts[|p.attempts| - 1 := a])
  }

  function SaveOr(p: Row, q: Row, fault: Option<PaymentError>): End {
    if fault.None? then End(q, None) else End(p, fault)
  }

  function SaveChange(p: Row, c: Change, fault: Option<PaymentError>): End {
    match c
    case Refused(error) => End(p, Some(error))
    case Changed(row, _) => SaveOr(p, row, fault)
  }

  function SaveApproval(p: Row, a: Approval, env: Env): End {
    match Approve(p, a, env.captureOk, env.now(|p.attempts|))
    case Err(error) => End(p, Some(error))
    case Ok(w) => SaveOr(p, w.row, env.fault(|p.attempts|))
  }

  function Saga(p: Row, names: seq<string>, i: nat, cfg: Config, env: Env): End
    requires p.attempts != []
    decreases if cfg.maxAttempts > |p.attempts| then cfg.maxAttempts - |p.attempts| else 0
  {
    var n := |p.attempts|;
    var last := p.attempts[n - 1];
    match env.Outcome(n)
    case Approving(a) => SaveApproval(WithLast(p, last.MarkApproved(a.reference)), a.(provider := last.provider), env)
    case Acting(ref, expires) =>
      var q := WithLast(p, last.MarkRequiresAction(ref));
      SaveChange(q, q.RequireAction(ref, expires, env.now(n)), env.fault(n))
    case Failing(cat, code, ref) =>
      var q := WithLast(p, last.MarkFailed(cat, code, ref));
      if q.attempts[n - 1].status == Unknown then SaveOr(q, q, env.fault(n))
      else
        var c := NextCandidate(q.attempts, names, i, cfg, env);
        if c.provider.None? then SaveChange(q, q.Fail(last.provider), env.fault(n))
        else match q.StartAttempt(c.provider.value)
          case Err(error) => End(q, Some(error))
          case Ok(next) =>
            if env.fault(n).Some? then End(next, env.fault(n)) else Saga(next, names, c.index, cfg, env)
  }

  /** The loop itself. */
  method RunAuthorizeSaga(start: Row, names: seq<string>, cfg: Config, env: Env) returns (e: End)
    requires start.attempts != []
    ensures e == Saga(start, names, 0, cfg, env)
  {
    hide Approve, NextCandidate;
    var p := start;
    var i: nat := 0;
    while true
      invariant p.attempts != [] && Saga(start, names, 0, cfg, env) == Saga(p, names, i, cfg, env)
      decreases if cfg.maxAttempts > |p.attempts| then cfg.maxAttempts - |p.attempts| else 0
    {
      var n := |p.attempts|;
      var last := p.attempts[n - 1];
      var out := env.reply(n);
      if IsUnknown(out) { out := ResolveUnknown(out, env.answers(n)); }
      match out {
        case Approving(a) =>
          return SaveApproval(WithLast(p, last.MarkApproved(a.reference)), a.(provider := last.provider), env);
        case Acting(ref, expires) =>
          var q := WithLast(p, last.MarkRequiresAction(ref));
          return SaveChange(q, q.RequireAction(ref, expires, env.now(n)), env.fault(n));
        case Failing(cat, code, ref) =>
          var q := WithLast(p, last.MarkFailed(cat, code, ref));
          if q.attempts[n - 1].status == Unknown { return SaveOr(q, q, env.fault(n)); }
          var c := ChooseNext(q.attempts, names, i, cfg, env);
          if c.provider.None? { return SaveChange(q, q.Fail(last.provider), env.fault(n)); }
          var next := q.StartAttempt(c.provider.value);
          if next.Err? { return End(q, Some(next.error)); }
          if env.fault(n).Some? { return End(next.value, env.fault(n)); }
          StartedIsLonger(q, c.provider.value);
          AllowedIsBelowMax(q.attempts, names, i, cfg, env);
          p, i := next.value, c.index;
      }
    }
  }

  lemma StartedIsLonger(q: Row, prov: string)
    requires q.StartAttempt(prov).Ok?
    ensures q.StartAttempt(prov).value.attempts == q.attempts + [NewAttempt(prov)]
  {
  }

  lemma AllowedIsBelowMax(attempts: seq<AttemptRow>, names: seq<string>, i: nat, cfg: Config, env: Env)
    requires attempts != [] && NextCandidate(attempts, names, i, cfg, env).provider.Some?
    ensures |attempts| < cfg.maxAttempts && attempts[|attempts| - 1].CanFailover()
  {
  }

  // ---- what the saga did ----

  /** The attempts made: the candidates in order, then the last one again after it was unavailable; all
      but the last one failed in a way that allows another try; never more than the limit. */
  predicate Trail(attempts: seq<AttemptRow>, names: seq<string>, cfg: Config)
    requires names != []
  {
    && 1 <= |attempts| && (|attempts| > 1 ==> |attempts| <= cfg.maxAttempts)
    && (forall k | 0 <= k < |attempts| :: attempts[k].provider == names[if k < |names| then k else |names| - 1])
    && (forall k | 0 <= k < |attempts| - 1 :: attempts[k].CanFailover())
    && (forall k | |names| - 1 <= k < |attempts| - 1 :: Repeatable(attempts[k], cfg))
  }

  function Place(n: nat, names: seq<string>): nat
    requires n > 0 && names != []
  {
    if n <= |names| then n - 1 else |names| - 1
  }

  lemma ChoiceFollowsTrail(attempts: seq<AttemptRow>, names: seq<string>, cfg: Config, env: Env)
    requires names != [] && Distinct(names) && Trail(attempts, names, cfg)
    ensures var n := |attempts|;
            var c := NextCandidate(attempts, names, Place(n, names), cfg, env);
            c.provider.Some? ==>
              && attempts[n - 1].CanFailover() && n < cfg.maxAttempts && c.index == Place(n + 1, names)
              && c.provider.value == names[Place(n + 1, names)]
              && (n >= |names| ==> Repeatable(attempts[n - 1], cfg))
  {
    var n := |attempts|;
    var i, last := Place(n, names), attempts[n - 1];
    assert last.provider == names[i];
    assert NextOther(names, i, last.provider)
           == if i + 1 < |names| then Choice(i + 1, Some(names[i + 1])) else Choice(i, None);
  }

  lemma TrailGrows(attempts: seq<AttemptRow>, prov: string, names: seq<string>, cfg: Config)
    requires names != [] && Trail(attempts, names, cfg) && attempts[|attempts| - 1].CanFailover()
    requires |attempts| < cfg.maxAttempts && prov == names[Place(|attempts| + 1, names)]
    requires |attempts| >= |names| ==> Repeatable(attempts[|attempts| - 1], cfg)
    ensures Trail(attempts + [NewAttempt(prov)], names, cfg)
  {
  }

  lemma LastKeepsTrail(p: Row, a: AttemptRow, names: seq<string>, cfg: Config)
    requires names != [] && Trail(p.attempts, names, cfg) && a.provider == p.attempts[|p.attempts| - 1].provider
    ensures Trail(WithLast(p, a).attempts, names, cfg)
  {
  }

  /** Where an error-free run leaves the payment, by the answer to the last authorization. */
  predicate EndsAs(e: End, reply: Reply, env: Env) {
    e.error.None? ==>
      e.row.status == match reply
                      case Approving(a) => if e.row.captureMethod == Automatic && (a.captured || env.captureOk)
                          then Captured else Authorized
                      case Acting(_, _) => RequiresAction
                      case Failing(cat, _, _) => if StatusFor(cat) == Unknown then Created else Failed
  }

  lemma ApprovalEnds(p: Row, a: Approval, env: Env)
    requires p.attempts != [] && p.status == Created
    ensures var e := SaveApproval(p, a, env); e.row.attempts == p.attempts && EndsAs(e, Approving(a), env)
  {
    hide CanTransition, Money.GreaterThan;
    var c := p.Authorize(a.provider, a.reference, a.authExpiry, a.fee, env.now(|p.attempts|));
    if c.Changed? { assert c.row.attempts == p.attempts && c.row.status == Authorized; }
  }

  lemma ActionEnds(p: Row, ref: string, expires: Option<int>, env: Env, now: int, fault: Option<PaymentError>)
    requires p.status == Created
    ensures var e := SaveChange(p, p.RequireAction(ref, expires, now), fault);
            e.row.attempts == p.attempts && EndsAs(e, Acting(ref, expires), env)
  {
  }

  lemma FailEnds(p: Row, prov: string, cat: Category, code: string, ref: string, env: Env, fault: Option<PaymentError>)
    requires p.status == Created && StatusFor(cat) != Unknown
    ensures var e := SaveChange(p, p.Fail(prov), fault);
            e.row.attempts == p.attempts && EndsAs(e, Failing(cat, code, ref), env)
  {
  }

  predicate Started(p: Row, names: seq<string>, cfg: Config) {
    names != [] && p.attempts != [] && p.status == Created && Trail(p.attempts, names, cfg)
  }

  lemma {:induction false} SagaEnds(p: Row, names: seq<string>, cfg: Config, env: Env)
    requires names != [] && Started(p, names, cfg) && Distinct(names)
    ensures var e := Saga(p, names, Place(|p.attempts|, names), cfg, env);
            && Trail(e.row.attempts, names, cfg) && |e.row.attempts| >= |p.attempts|
            && EndsAs(e, env.Outcome(|e.row.attempts|), env)
    decreases if cfg.maxAttempts > |p.attempts| then cfg.maxAttempts - |p.attempts| else 0
  {
    hide Trail, EndsAs, NextCandidate, SaveApproval, SaveChange, Distinct, StatusFor;
    var n := |p.attempts|;
    var last := p.attempts[n - 1];
    match env.Outcome(n) {
      case Approving(a) =>
        var q := WithLast(p, last.MarkApproved(a.reference));
        LastKeepsTrail(p, last.MarkApproved(a.reference), names, cfg);
        ApprovalEnds(q, a.(provider := last.provider), env);
        SameEnd(SaveApproval(q, a.(provider := last.provider), env), a, last.provider, env);
      case Acting(ref, expires) =>
        LastKeepsTrail(p, last.MarkRequiresAction(ref), names, cfg);
        ActionEnds(WithLast(p, last.MarkRequiresAction(ref)), ref, expires, env, env.now(n), env.fault(n));
      case Failing(cat, code, ref) =>
        var q := WithLast(p, last.MarkFailed(cat, code, ref));
        LastKeepsTrail(p, last.MarkFailed(cat, code, ref), names, cfg);
        FailedSagaEnds(p, q, names, cfg, env);
    }
  }

  lemma SameEnd(e: End, a: Approval, prov: string, env: Env)
    requires EndsAs(e, Approving(a.(provider := prov)), env)
    ensures EndsAs(e, Approving(a), env)
  {
  }

  lemma UnknownEnds(q: Row, cat: Category, code: string, ref: string, env: Env, fault: Option<PaymentError>)
    requires q.status == Created && StatusFor(cat) == Unknown
    ensures EndsAs(SaveOr(q, q, fault), Failing(cat, code, ref), env) && SaveOr(q, q, fault).row == q
  {
  }

  lemma BrokenEnds(q: Row, error: PaymentError, reply: Reply, env: Env)
    ensures EndsAs(End(q, Some(error)), reply, env)
  {
  }

  /** After a failed attempt: the saga stops, or goes on with one attempt more. */
  lemma {:induction false} FailedSagaEnds(p: Row, q: Row, names: seq<string>, cfg: Config, env: Env)
    requires names != [] && Started(p, names, cfg) && Distinct(names) && env.Outcome(|p.attempts|).Failing?
    requires var out := env.Outcome(|p.attempts|);
             q == WithLast(p, p.attempts[|p.attempts| - 1].MarkFailed(out.category, out.code, out.reference))
    requires Trail(q.attempts, names, cfg)
    ensures var e := Saga(p, names, Place(|p.attempts|, names), cfg, env);
            && Trail(e.row.attempts, names, cfg) && |e.row.attempts| >= |p.attempts|
            && EndsAs(e, env.Outcome(|e.row.attempts|), env)
    decreases if cfg.maxAttempts > |p.attempts| then cfg.maxAttempts - |p.attempts| else 0, 0
  {
    hide Trail, EndsAs, NextCandidate, SaveChange, Distinct, StatusFor, Place, CanFailoverDecline;
    var n, out := |p.attempts|, env.Outcome(|p.attempts|);
    var last := p.attempts[n - 1];
    var c := NextCandidate(q.attempts, names, Place(n, names), cfg, env);
    if q.attempts[n - 1].status == Unknown {
      UnknownEnds(q, out.category, out.code, out.reference, env, env.fault(n));
    } else if c.provider.None? {
      FailEnds(q, last.provider, out.category, out.code, out.reference, env, env.fault(n));
    } else if q.StartAttempt(c.provider.value).Err? {
      BrokenEnds(q, q.StartAttempt(c.provider.value).error, out, env);
    } else {
      var next := q.StartAttempt(c.provider.value).value;
      ChoiceFollowsTrail(q.attempts, names, cfg, env);
      StartedIsLonger(q, c.provider.value);
      TrailGrows(q.attempts, c.provider.value, names, cfg);
      if env.fault(n).None? { SagaEnds(next, names, cfg, env); }
      else { BrokenEnds(next, env.fault(n).value, env.Outcome(|next.attempts|), env); }
    }
  }

  /** The saga of a new payment with its first attempt recorded ended as e. */
  predicate SagaRan(start: Row, names: seq<string>, config: Config, env: Env, e: End) {
    && names != [] && Distinct(names) && start.status == Created && start.attempts == [NewAttempt(names[0])]
    && e == Saga(start, names, 0, config.WithDefaults(), env)
  }

  /** The saga makes at most three authorizations and stops; it tries the candidates in order and then
      only repeats the last one after it was unavailable; every attempt but the last failed in a way that
      allows another; so at most one is open, at most one approved, and nothing follows an unknown outcome. */
  lemma SagaIsBounded(start: Row, names: seq<string>, config: Config, env: Env, e: End)
    requires SagaRan(start, names, config, env, e)
    ensures |e.row.attempts| <= config.WithDefaults().maxAttempts <= 3
    ensures Trail(e.row.attempts, names, config.WithDefaults())
    ensures forall k | 0 <= k < |e.row.attempts| - 1 :: Over(e.row.attempts[k])
  {
    hide Saga, EndsAs, StatusFor;
    SagaEnds(start, names, config.WithDefaults(), env);
  }

  predicate Over(a: AttemptRow) {
    !a.status.IsOpen() && !a.status.Approved? && a.CanFailover()
  }

  /** Without error, the answer to the last authorization fixes the status of the payment. */
  lemma LastAnswerFixesStatus(start: Row, names: seq<string>, config: Config, env: Env, e: End)
    requires SagaRan(start, names, config, env, e)
    ensures EndsAs(e, env.Outcome(|e.row.attempts|), env)
  {
    hide Saga, EndsAs, StatusFor, Trail;
    FirstTrail(names, config.WithDefaults());
    SagaEnds(start, names, config.WithDefaults(), env);
  }

  lemma FirstTrail(names: seq<string>, cfg: Config)
    requires names != []
    ensures Trail([NewAttempt(names[0])], names, cfg)
  {
  }

  // ---- the saga as steps of the concurrent payment ----

  /** What other requests do to the payment before the saga's n-th write. */
  type Others = nat -> seq<P.Action>

  /** The saga's step of the concurrent payment for its n-th write, once the provider has replied. */
  function StepFor(p: Row, names: seq<string>, i: nat, cfg: Config, env: Env): Option<P.Action>
    requires p.attempts != []
  {
    var n := |p.attempts|;
    match env.Outcome(n)
    case Approving(a) => Some(P.SagaApproved(a, env.captureOk, env.now(n)))
    case Acting(ref, expires) => Some(P.SagaRequiresAction(ref, expires, env.now(n)))
    case Failing(cat, code, ref) =>
      var q := WithLast(p, p.attempts[n - 1].MarkFailed(cat, code, ref));
      if q.attempts[n - 1].status == Unknown then Some(P.SagaUnknown(cat, code, ref))
      else
        var c := NextCandidate(q.attempts, names, i, cfg, env);
        if c.provider.None? then Some(P.SagaFailed(cat, code, ref))
        else if q.StartAttempt(c.provider.value).Err? then None
        else Some(P.SagaFailover(cat, code, ref, c.provider.value))
  }

  /** The copy and the place the saga goes on with, if it goes on. */
  function Next(p: Row, names: seq<string>, i: nat, cfg: Config, env: Env): Option<(Row, nat)>
    requires p.attempts != []
    ensures Next(p, names, i, cfg, env).Some? ==>
              |p.attempts| < cfg.maxAttempts && |Next(p, names, i, cfg, env).value.0.attempts| == |p.attempts| + 1
  {
    var n := |p.attempts|;
    match env.Outcome(n)
    case Failing(cat, code, ref) =>
      (var q := WithLast(p, p.attempts[n - 1].MarkFailed(cat, code, ref));
       if q.attempts[n - 1].status == Unknown then None
       else
         var c := NextCandidate(q.attempts, names, i, cfg, env);
         if c.provider.None? then None
         else match q.StartAttempt(c.provider.value)
           case Err(_) => None
           case Ok(next) => Some((next, c.index)))
    case _ => None
  }

  /** The payment after the saga and the others have taken turns: before each of the saga's writes the
      others do what they do. A write that fails ends the saga and writes nothing. */
  function Interleaved(c: P.Cell, p: Row, names: seq<string>, i: nat, cfg: Config, env: Env, others: Others): P.Cell
    requires p.attempts != []
    decreases if cfg.maxAttempts > |p.attempts| then cfg.maxAttempts - |p.attempts| else 0
  {
    var n := |p.attempts|;
    var d := P.Run(c, others(n));
    match StepFor(p, names, i, cfg, env)
    case None => d
    case Some(a) =>
      var next := Next(p, names, i, cfg, env);
      if env.fault(n).Some? then d.(saga := None)
      else if next.Some? then Interleaved(P.Step(d, a), next.value.0, names, next.value.1, cfg, env, others)
      else P.Step(d, a)
  }

  /** The others are not the saga, and a write of the saga fails if somebody else has written since it last
      looked; it may fail for any other reason, too. */
  predicate Contended(c: P.Cell, p: Row, names: seq<string>, i: nat, cfg: Config, env: Env, others: Others)
    requires p.attempts != []
    decreases if cfg.maxAttempts > |p.attempts| then cfg.maxAttempts - |p.attempts| else 0
  {
    var n := |p.attempts|;
    var d := P.Run(c, others(n));
    var next := Next(p, names, i, cfg, env);
    && (forall a | a in others(n) :: !P.IsSaga(a))
    && (env.fault(n).None? ==> d.store.row.version == p.version)
    && (next.Some? && env.fault(n).None? ==>
          Contended(P.Step(d, StepFor(p, names, i, cfg, env).value), next.value.0, names, next.value.1, cfg, env,
                    others))
  }

  lemma OtherKeepsSaga(c: P.Cell, a: P.Action)
    requires !P.IsSaga(a)
    ensures P.Step(c, a).saga == c.saga
  {
    hide CaptureCommit, VoidCommit, ExpireCommit, RefundBegin, RefundEnd, P.ConfirmFailed, P.ConfirmApproved;
  }

  lemma {:induction false} OthersKeepSaga(c: P.Cell, actions: seq<P.Action>)
    requires forall a | a in actions :: !P.IsSaga(a)
    ensures P.Run(c, actions).saga == c.saga
  {
    hide P.Step, P.IsSaga;
    if actions == [] {
    } else {
      OthersKeepSaga(c, actions[..|actions| - 1]);
      OtherKeepsSaga(P.Run(c, actions[..|actions| - 1]), actions[|actions| - 1]);
    }
  }

  /** The saga's copy is what is stored, unless somebody has written since. */
  predicate InStep(c: P.Cell, p: Row) {
    c.saga == Some(p) && p.attempts != [] && (c.store.row.version == p.version ==> c.store.row == p)
  }

  lemma StayInStep(c: P.Cell, p: Row, actions: seq<P.Action>)
    requires P.CellInv(c) && c.saga == Some(p) && p.attempts != [] && forall a | a in actions :: !P.IsSaga(a)
    ensures P.CellInv(P.Run(c, actions)) && InStep(P.Run(c, actions), p)
  {
    hide P.Run, P.StoreInv, P.Current;
    P.RunKeepsInv(c, actions);
    OthersKeepSaga(c, actions);
  }

  /** An approval, an action asked for, or a failure: the step stores what the saga ends with, or, when the
      payment refuses, nothing. */
  predicate Ends(c: P.Cell, e: End, d: P.Cell) {
    if e.error.None? then d.store.row == e.row else d.store == c.store
  }

  lemma ApprovedStep(c: P.Cell, p: Row, a: Approval, env: Env)
    requires InStep(c, p) && c.store.row == p && env.fault(|p.attempts|).None?
    ensures var last := p.attempts[|p.attempts| - 1];
            var e := SaveApproval(WithLast(p, last.MarkApproved(a.reference)), a.(provider := last.provider), env);
            Ends(c, e, P.Step(c, P.SagaApproved(a, env.captureOk, env.now(|p.attempts|))))
  {
    hide Approve;
  }

  lemma ActionStep(c: P.Cell, p: Row, ref: string, expires: Option<int>, now: int)
    requires InStep(c, p) && c.store.row == p
    ensures var q := WithLast(p, p.attempts[|p.attempts| - 1].MarkRequiresAction(ref));
            Ends(c, SaveChange(q, q.RequireAction(ref, expires, now), None),
                 P.Step(c, P.SagaRequiresAction(ref, expires, now)))
  {
    hide Row.RequireAction;
  }

  lemma FailedStep(c: P.Cell, p: Row, cat: Category, code: string, ref: string)
    requires InStep(c, p) && c.store.row == p
    ensures var last := p.attempts[|p.attempts| - 1];
            var q := WithLast(p, last.MarkFailed(cat, code, ref));
            && Ends(c, SaveChange(q, q.Fail(last.provider), None), P.Step(c, P.SagaFailed(cat, code, ref)))
            && Ends(c, SaveOr(q, q, None), P.Step(c, P.SagaUnknown(cat, code, ref)))
  {
    hide Row.Fail;
  }

  lemma FailoverStep(c: P.Cell, p: Row, cat: Category, code: string, ref: string, prov: string)
    requires InStep(c, p) && c.store.row == p
    requires WithLast(p, p.attempts[|p.attempts| - 1].MarkFailed(cat, code, ref)).StartAttempt(prov).Ok?
    ensures var d := P.Step(c, P.SagaFailover(cat, code, ref, prov));
            var q := WithLast(p, p.attempts[|p.attempts| - 1].MarkFailed(cat, code, ref)).StartAttempt(prov).value;
            d.saga == Some(q) && d.store.row == q
  {
  }

  /** A saga step that comes after somebody else's write ends the saga and leaves no trace in what is stored. */
  lemma RefusedStepLeavesNoTrace(c: P.Cell, p: Row, names: seq<string>, i: nat, cfg: Config, env: Env)
    requires InStep(c, p) && c.store.row.version != p.version && StepFor(p, names, i, cfg, env).Some?
    ensures P.Step(c, StepFor(p, names, i, cfg, env).value) == c.(saga := None)
  {
    hide Approve, Row.Fail, Row.RequireAction, NextCandidate;
  }

  /** The saga's last turn, if its write does not fail: it stores what it ends with, or nothing. */
  lemma TurnRefines(d: P.Cell, p: Row, names: seq<string>, i: nat, cfg: Config, env: Env)
    requires InStep(d, p) && d.store.row == p && env.fault(|p.attempts|).None? && Next(p, names, i, cfg, env).None?
    ensures var e, a := Saga(p, names, i, cfg, env), StepFor(p, names, i, cfg, env);
            if a.Some? then Ends(d, e, P.Step(d, a.value)) else e.error.Some?
  {
    hide P.Step, SaveApproval, SaveChange, NextCandidate, Row.StartAttempt, Row.Fail, Row.RequireAction, Ends;
    var n := |p.attempts|;
    match env.Outcome(n) {
      case Approving(a) => ApprovedStep(d, p, a, env);
      case Acting(ref, expires) => ActionStep(d, p, ref, expires, env.now(n));
      case Failing(cat, code, ref) => FailedStep(d, p, cat, code, ref);
    }
  }

  lemma GoesOn(d: P.Cell, p: Row, names: seq<string>, i: nat, cfg: Config, env: Env)
    requires InStep(d, p) && d.store.row == p && env.fault(|p.attempts|).None? && Next(p, names, i, cfg, env).Some?
    ensures var next := Next(p, names, i, cfg, env).value;
            && StepFor(p, names, i, cfg, env).Some?
            && P.Step(d, StepFor(p, names, i, cfg, env).value).saga == Some(next.0)
            && P.Step(d, StepFor(p, names, i, cfg, env).value).store.row == next.0
            && Saga(p, names, i, cfg, env) == Saga(next.0, names, next.1, cfg, env)
  {
    hide P.Step, NextCandidate, Row.StartAttempt;
    var n, out := |p.attempts|, env.Outcome(|p.attempts|);
    var q := WithLast(p, p.attempts[n - 1].MarkFailed(out.category, out.code, out.reference));
    var ch := NextCandidate(q.attempts, names, i, cfg, env);
    FailoverStep(d, p, out.category, out.code, out.reference, ch.provider.value);
  }

  lemma FaultEnds(p: Row, names: seq<string>, i: nat, cfg: Config, env: Env)
    requires p.attempts != [] && env.fault(|p.attempts|).Some?
    ensures Saga(p, names, i, cfg, env).error.Some?
  {
    hide NextCandidate, Row.StartAttempt, Row.Fail, Row.RequireAction, Approve;
  }

  /** Whatever other requests do in between, a saga that ends without error leaves stored exactly the
      payment it ended with: the loop refines the steps of the concurrent payment. */
  lemma {:induction false} SagaRefinesSteps(c: P.Cell, p: Row, names: seq<string>, i: nat, cfg: Config, env: Env,
                                            others: Others)
    requires P.CellInv(c) && c.saga == Some(p) && p.attempts != [] && Contended(c, p, names, i, cfg, env, others)
    ensures var e := Saga(p, names, i, cfg, env);
            e.error.None? ==> Interleaved(c, p, names, i, cfg, env, others).store.row == e.row
    decreases if cfg.maxAttempts > |p.attempts| then cfg.maxAttempts - |p.attempts| else 0
  {
    hide P.Step, P.Run, P.CellInv, StepFor, Next, P.IsSaga, Saga;
    var n := |p.attempts|;
    var d := P.Run(c, others(n));
    StayInStep(c, p, others(n));
    var next := Next(p, names, i, cfg, env);
    if env.fault(n).Some? {
      FaultEnds(p, names, i, cfg, env);
    } else if next.None? {
      TurnRefines(d, p, names, i, cfg, env);
    } else {
      GoesOn(d, p, names, i, cfg, env);
      var a := StepFor(p, names, i, cfg, env).value;
      P.StepKeepsInv(d, a);
      SagaRefinesSteps(P.Step(d, a), next.value.0, names, next.value.1, cfg, env, others);
    }
  }

  /** The payment right after the last write by which the saga went on to another provider, and the saga's copy
      of it then. */
  function LastTurn(c: P.Cell, p: Row, names: seq<string>, i: nat, cfg: Config, env: Env, others: Others): (P.Cell, Row)
    requires p.attempts != []
    decreases if cfg.maxAttempts > |p.attempts| then cfg.maxAttempts - |p.attempts| else 0
  {
    var n := |p.attempts|;
    var next, a := Next(p, names, i, cfg, env), StepFor(p, names, i, cfg, env);
    if next.Some? && a.Some? && env.fault(n).None?
    then LastTurn(P.Step(P.Run(c, others(n)), a.value), next.value.0, names, next.value.1, cfg, env, others)
    else (c, p)
  }

  /** And a saga that ends in error, because a write failed or because the payment refused, leaves stored what
      its last successful write left and whatever the others did since; nothing of the last turn is kept. */
  lemma {:induction false} SagaErrorsLeaveNoTrace(c: P.Cell, p: Row, names: seq<string>, i: nat, cfg: Config, env: Env,
                                                  others: Others)
    requires P.CellInv(c) && c.saga == Some(p) && c.store.row == p && p.attempts != []
    requires Contended(c, p, names, i, cfg, env, others) && Saga(p, names, i, cfg, env).error.Some?
    ensures var last := LastTurn(c, p, names, i, cfg, env, others);
            && last.0.store.row == last.1
            && Interleaved(c, p, names, i, cfg, env, others).store
               == P.Run(last.0, others(|last.1.attempts|)).store
    decreases if cfg.maxAttempts > |p.attempts| then cfg.maxAttempts - |p.attempts| else 0
  {
    hide P.Step, P.Run, P.CellInv, StepFor, Next, P.IsSaga, Saga;
    var n := |p.attempts|;
    var d := P.Run(c, others(n));
    StayInStep(c, p, others(n));
    var next := Next(p, names, i, cfg, env);
    if env.fault(n).None? && next.None? {
      TurnRefines(d, p, names, i, cfg, env);
    } else if env.fault(n).None? {
      GoesOn(d, p, names, i, cfg, env);
      var a := StepFor(p, names, i, cfg, env).value;
      P.StepKeepsInv(d, a);
      SagaErrorsLeaveNoTrace(P.Step(d, a), next.value.0, names, next.value.1, cfg, env, others);
    }
  }
}

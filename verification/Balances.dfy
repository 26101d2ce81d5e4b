/** The balances read model: account balances as int64 values, and the accounting identity. */
module Balances {
  import opened Wrappers
  import opened Amounts
  import opened Accounts
  import opened Journals
  import opened Sums

  type Amts = map<AccountKey, int64>

  type Group = (Currency, bool)

  function Of(m: Amts, k: AccountKey): int64 {
    if k in m then m[k] else 0
  }

  /** What a line does to its account, counted in the account's normal direction. */
  function Delta(l: Line): int {
    if DebitNormal(l.account.code) then (if l.direction == Debit then l.amount else -l.amount)
    else (if l.direction == Credit then l.amount else -l.amount)
  }

  function DeltaAt(l: Line, k: AccountKey): int {
    if l.account == k then Delta(l) else 0
  }

  /** The exact effect of lines on an account, in whatever order they come. */
  function Effect(ls: seq<Line>, k: AccountKey): int {
    if ls == [] then 0 else Effect(ls[..|ls| - 1], k) + DeltaAt(ls[|ls| - 1], k)
  }

  function Put(m: Amts, l: Line): Amts {
    m[l.account := Wrap(Of(m, l.account) + Delta(l))]
  }

  /** The balances after entries are applied one by one, each addition an int64 addition. */
  function After(m: Amts, es: seq<Entry>): Amts {
    if es == [] then m else Put(After(m, es[..|es| - 1]), LineOf(es[|es| - 1]))
  }

  function Applied(m: Amts, j: Journal): Amts {
    if ValidJournal(j) then After(m, j.entries) else m
  }

  function Run(js: seq<Journal>): Amts {
    if js == [] then map[] else Applied(Run(js[..|js| - 1]), js[|js| - 1])
  }

  lemma PutAt(m: Amts, l: Line, k: AccountKey)
    ensures Of(Put(m, l), k) == Wrap(Of(m, k) + DeltaAt(l, k))
  {
    hide Wrap, Delta;
  }

  /** Intermediate wrap-around does not matter: only the exact sum, reduced once. */
  lemma AfterNothing(m: Amts, k: AccountKey)
    ensures Of(After(m, []), k) == Wrap(Of(m, k) + Effect(Lines([]), k))
  {
  }

  lemma OneMoreEntry(m: Amts, es: seq<Entry>, k: AccountKey)
    requires es != []
    ensures var init, l := es[..|es| - 1], LineOf(es[|es| - 1]);
            After(m, es) == Put(After(m, init), l) && Effect(Lines(es), k) == Effect(Lines(init), k) + DeltaAt(l, k)
  {
    hide Put, DeltaAt, LineOf, Lines;
    LastLine(es);
  }

  lemma {:induction false} AfterIsEffect(m: Amts, es: seq<Entry>, k: AccountKey)
    ensures Of(After(m, es), k) == Wrap(Of(m, k) + Effect(Lines(es), k))
  {
    hide Wrap, Put, Of, DeltaAt, LineOf, After, Effect, Lines;
    if es == [] {
      AfterNothing(m, k);
    } else {
      var init, l := es[..|es| - 1], LineOf(es[|es| - 1]);
      AfterIsEffect(m, init, k);
      OneMoreEntry(m, es, k);
      PutAt(After(m, init), l, k);
      WrapAdd(Of(m, k) + Effect(Lines(init), k), DeltaAt(l, k));
    }
  }

  // ---- the identity ----

  datatype TrialBalance = TrialBalance(assets: int64, liabilities: int64, revenue: int64, expense: int64) {

    function Equity(): int64 {
      Wrap(revenue - expense)
    }

    predicate InBalance() {
      assets == Wrap(liabilities + Equity())
    }
  }

  function GroupOf(k: AccountKey): Group {
    (k.currency, k.live)
  }

  function Part(m: Amts, g: Group, t: AccountType): AccountKey -> int {
    (k: AccountKey) => if GroupOf(k) == g && TypeOf(k.code) == Some(t) then Of(m, k) as int else 0
  }

  /** The trial balance of group g over the accounts in s. */
  ghost function TrialOver(m: Amts, s: set<AccountKey>, g: Group): TrialBalance {
    TrialBalance(Wrap(SumSet(s, Part(m, g, Asset))), Wrap(SumSet(s, Part(m, g, Liability))),
                 Wrap(SumSet(s, Part(m, g, Revenue))), Wrap(SumSet(s, Part(m, g, Expense))))
  }

  function TrialIn(out: map<Group, TrialBalance>, g: Group): TrialBalance {
    if g in out then out[g] else TrialBalance(0, 0, 0, 0)
  }

  function AddBalance(t: TrialBalance, typ: Option<AccountType>, x: int): TrialBalance {
    match typ
    case Some(Asset) => t.(assets := Wrap(t.assets + x))
    case Some(Liability) => t.(liabilities := Wrap(t.liabilities + x))
    case Some(Revenue) => t.(revenue := Wrap(t.revenue + x))
    case Some(Expense) => t.(expense := Wrap(t.expense + x))
    case None => t
  }

  lemma PartStep(m: Amts, s: set<AccountKey>, k: AccountKey, g: Group, t: AccountType)
    requires k !in s
    ensures Wrap(SumSet(s + {k}, Part(m, g, t))) == Wrap(Wrap(SumSet(s, Part(m, g, t))) + Part(m, g, t)(k))
  {
    hide Wrap, Part, SumSet;
    SumSetInsert(s, Part(m, g, t), k);
    WrapAdd(SumSet(s, Part(m, g, t)), Part(m, g, t)(k));
  }

  lemma TrialStep(m: Amts, s: set<AccountKey>, k: AccountKey, g: Group)
    requires k !in s
    ensures TrialOver(m, s + {k}, g)
            == if g == GroupOf(k) then AddBalance(TrialOver(m, s, g), TypeOf(k.code), Of(m, k)) else TrialOver(m, s, g)
  {
    hide Wrap, Of, SumSet, GroupOf, TypeOf;
    PartStep(m, s, k, g, Asset);
    PartStep(m, s, k, g, Liability);
    PartStep(m, s, k, g, Revenue);
    PartStep(m, s, k, g, Expense);
  }

  lemma TrialOfNone(m: Amts)
    ensures forall g :: TrialOver(m, {}, g) == TrialBalance(0, 0, 0, 0)
  {
  }

  class Balances {
    var amounts: Amts

    constructor ()
      ensures amounts == map[]
    {
      amounts := map[];
    }

    /** Applies a valid journal; any other is refused and changes nothing. */
    method Apply(j: Journal) returns (r: Outcome<LedgerError>)
      modifies this
      ensures r == Verdict(j)
      ensures amounts == Applied(old(amounts), j)
      ensures r.Fail? ==> amounts == old(amounts)
    {
      hide Wrap, Delta, Verdict, ValidJournal;
      r := Validate(j);
      if r.Fail? { return; }
      for i := 0 to |j.entries|
        invariant amounts == After(old(amounts), j.entries[..i])
      {
        var l := LineOf(j.entries[i]);
        assert j.entries[..i + 1][..i] == j.entries[..i];
        amounts := amounts[l.account := Wrap(Of(amounts, l.account) + Delta(l))];
      }
      assert j.entries[..|j.entries|] == j.entries;
    }

    /** Balances grouped by currency and mode, whatever the order of the walk. */
    method TrialBalances() returns (out: map<Group, TrialBalance>)
      ensures forall g :: TrialIn(out, g) == TrialOver(amounts, amounts.Keys, g)
      ensures forall g :: g in out <==> exists k :: k in amounts && GroupOf(k) == g
    {
      hide Wrap, SumSet, TrialOver, AddBalance, GroupOf, TypeOf;
      out := map[];
      TrialOfNone(amounts);
      var todo := amounts.Keys;
      ghost var done: set<AccountKey> := {};
      while todo != {}
        invariant todo !! done && todo + done == amounts.Keys
        invariant forall g :: TrialIn(out, g) == TrialOver(amounts, done, g)
        invariant forall g :: g in out <==> exists k :: k in done && GroupOf(k) == g
        decreases |todo|
      {
        var k :| k in todo;
        forall g ensures TrialOver(amounts, done + {k}, g)
                         == if g == GroupOf(k)
                             then AddBalance(TrialOver(amounts, done, g), TypeOf(k.code), Of(amounts, k))
                            else TrialOver(amounts, done, g)
        {
          TrialStep(amounts, done, k, g);
        }
        out := out[GroupOf(k) := AddBalance(TrialIn(out, GroupOf(k)), TypeOf(k.code), amounts[k])];
        todo, done := todo - {k}, done + {k};
      }
      assert done == amounts.Keys;
    }

    /** Whether assets equal liabilities plus equity in every group. */
    method CheckIdentity() returns (ok: bool)
      ensures ok <==> forall k | k in amounts :: TrialOver(amounts, amounts.Keys, GroupOf(k)).InBalance()
    {
      var trials := TrialBalances();
      var todo := trials.Keys;
      while todo != {}
        invariant todo <= trials.Keys
        invariant forall g | g in trials.Keys - todo :: trials[g].InBalance()
        decreases |todo|
      {
        var g :| g in todo;
        if !trials[g].InBalance() {
          assert TrialIn(trials, g) == TrialOver(amounts, amounts.Keys, g);
          return false;
        }
        todo := todo - {g};
      }
      forall k | k in amounts ensures TrialOver(amounts, amounts.Keys, GroupOf(k)).InBalance() {
        assert TrialIn(trials, GroupOf(k)).InBalance();
      }
      return true;
    }

    /** Equality that does not tell a zero balance from a missing one. */
    method Equal(o: Amts) returns (same: bool)
      ensures same <==> forall k :: Of(amounts, k) == Of(o, k)
    {
      var fits := EachAgrees(amounts, o);
      if !fits { return false; }
      same := EachAgrees(o, amounts);
    }
  }

  method EachAgrees(a: Amts, b: Amts) returns (same: bool)
    ensures same <==> forall k | k in a :: Of(a, k) == Of(b, k)
  {
    var todo := a.Keys;
    while todo != {}
      invariant todo <= a.Keys && forall k | k in a.Keys - todo :: Of(a, k) == Of(b, k)
      decreases |todo|
    {
      var k :| k in todo;
      if a[k] != Of(b, k) { return false; }
      todo := todo - {k};
    }
    return true;
  }

  // ---- why the identity always holds ----

  /** A balance counted positive on the debit side, negative on the credit side. */
  function Signed(k: AccountKey, x: int): int {
    if TypeOf(k.code).None? then 0 else if DebitNormal(k.code) then x else -x
  }

  function NetPart(m: Amts, g: Group): AccountKey -> int {
    (k: AccountKey) => if GroupOf(k) == g then Signed(k, Of(m, k)) else 0
  }

  ghost function Net(m: Amts, g: Group): int {
    SumSet(m.Keys, NetPart(m, g))
  }

  lemma {:induction false} FourParts(s: set<AccountKey>, f: AccountKey -> int, a: AccountKey -> int,
                                     l: AccountKey -> int, r: AccountKey -> int, e: AccountKey -> int)
    requires forall k | k in s :: f(k) == a(k) + e(k) - l(k) - r(k)
    ensures SumSet(s, f) == SumSet(s, a) + SumSet(s, e) - SumSet(s, l) - SumSet(s, r)
    decreases |s|
  {
    if s == {} {
    } else {
      var k :| k in s;
      SumSetRemove(s, f, k);
      SumSetRemove(s, a, k);
      SumSetRemove(s, l, k);
      SumSetRemove(s, r, k);
      SumSetRemove(s, e, k);
      FourParts(s - {k}, f, a, l, r, e);
    }
  }

  lemma SameWrap(x: int, y: int)
    requires Wrap(x - y) == 0
    ensures Wrap(x) == Wrap(y)
  {
    WrapAdd(x - y, y);
  }

  lemma NetZeroBalances(m: Amts, g: Group)
    requires Wrap(Net(m, g)) == 0
    ensures TrialOver(m, m.Keys, g).InBalance()
  {
    hide Wrap, SumSet;
    var a, l, r, e := Part(m, g, Asset), Part(m, g, Liability), Part(m, g, Revenue), Part(m, g, Expense);
    FourParts(m.Keys, NetPart(m, g), a, l, r, e);
    SumsInBalance(SumSet(m.Keys, a), SumSet(m.Keys, l), SumSet(m.Keys, r), SumSet(m.Keys, e));
  }

  lemma SumsInBalance(a: int, l: int, r: int, e: int)
    requires Wrap(a + e - l - r) == 0
    ensures Wrap(a) == Wrap(Wrap(l) + Wrap(Wrap(r) - Wrap(e)))
  {
    hide Wrap;
    SameWrap(a, l + r - e);
    WrapSub(e, Wrap(r));
    WrapAdd(r, -e);
    WrapAdd(r - e, Wrap(l));
    WrapAdd(l, r - e);
  }

  /** What a line adds to the debit side of its group. */
  function DebitPart(l: Line, g: Group): int {
    if GroupOf(l.account) != g then 0 else if l.direction == Debit then l.amount else -l.amount
  }

  function DebitSide(ls: seq<Line>, g: Group): int {
    if ls == [] then 0 else DebitSide(ls[..|ls| - 1], g) + DebitPart(ls[|ls| - 1], g)
  }

  predicate Postable(l: Line) {
    l.direction.Valid() && ValidCode(l.account.code)
  }

  lemma PutNet(m: Amts, l: Line, g: Group)
    ensures Net(Put(m, l), g) == Net(m, g) + NetPart(Put(m, l), g)(l.account) - NetPart(m, g)(l.account)
  {
    var n, k := Put(m, l), l.account;
    if k in m {
      assert n.Keys == m.Keys;
      SumSetChange(m.Keys, NetPart(m, g), NetPart(n, g), k);
    } else {
      assert n.Keys == m.Keys + {k};
      SumSetInsert(m.Keys, NetPart(n, g), k);
      SumSetSame(m.Keys, NetPart(m, g), NetPart(n, g));
    }
  }

  /** The account of a line counts for or against the group, as its code says, or not at all. */
  lemma PutParts(m: Amts, l: Line, g: Group)
    requires Postable(l)
    ensures var n := Put(m, l);
            var v: int := Of(m, l.account);
            var before: int, after: int := NetPart(m, g)(l.account), NetPart(n, g)(l.account);
            || (before == after == DebitPart(l, g) == 0)
            || (before == v && after == Wrap(v + Delta(l)) && DebitPart(l, g) == Delta(l))
            || (before == -v && after == -(Wrap(v + Delta(l)) as int) && DebitPart(l, g) == -Delta(l))
  {
    hide Wrap;
  }

  lemma PutKeepsNet(m: Amts, l: Line, g: Group)
    requires Postable(l)
    ensures Wrap(Net(Put(m, l), g)) == Wrap(Net(m, g) + DebitPart(l, g))
  {
    hide Wrap, Net, Put, Delta, DebitPart, NetPart;
    PutNet(m, l, g);
    PutParts(m, l, g);
    var v := Of(m, l.account);
    WrapAdd(v + Delta(l), Net(m, g) - v);
    WrapSub(v + Delta(l), Net(m, g) + v);
  }

  lemma {:induction false} AfterKeepsNet(m: Amts, es: seq<Entry>, g: Group)
    requires forall e | e in es :: Postable(LineOf(e))
    ensures Wrap(Net(After(m, es), g)) == Wrap(Net(m, g) + DebitSide(Lines(es), g))
  {
    hide Wrap, Put, Net, DebitPart, Postable, Lines;
    if es == [] {
    } else {
      var n := |es| - 1;
      var l := LineOf(es[n]);
      AfterKeepsNet(m, es[..n], g);
      LastLine(es);
      assert es[n] in es;
      PutKeepsNet(After(m, es[..n]), l, g);
      WrapAdd(Net(After(m, es[..n]), g), DebitPart(l, g));
      WrapAdd(Net(m, g) + DebitSide(Lines(es[..n]), g), DebitPart(l, g));
    }
  }

  lemma {:induction false} DebitSideOfGroup(es: seq<Entry>, home: Group, g: Group)
    requires forall e | e in es :: e.direction.Valid() && GroupOf(e.account) == home
    ensures DebitSide(Lines(es), g) == if g == home then Total(es, Debit) - Total(es, Credit) else 0
  {
    if es == [] {
    } else {
      DebitSideOfGroup(es[..|es| - 1], home, g);
      LastLine(es);
      assert es[|es| - 1] in es;
    }
  }

  lemma ValidJournalNetsOut(j: Journal, g: Group)
    requires ValidJournal(j)
    ensures DebitSide(Lines(j.entries), g) == 0
    ensures forall e | e in j.entries :: Postable(LineOf(e))
  {
    var currency := j.entries[0].amount.currency;
    forall e | e in j.entries
      ensures e.direction.Valid() && ValidCode(e.account.code) && GroupOf(e.account) == (currency, j.live)
    {
      assert ValidEntry(j, e, currency);
    }
    DebitSideOfGroup(j.entries, (currency, j.live), g);
  }

  lemma {:induction false} RunNetsOut(js: seq<Journal>, g: Group)
    ensures Wrap(Net(Run(js), g)) == 0
  {
    if js == [] {
    } else {
      var init, last := js[..|js| - 1], js[|js| - 1];
      RunNetsOut(init, g);
      if ValidJournal(last) {
        ValidJournalNetsOut(last, g);
        AfterKeepsNet(Run(init), last.entries, g);
      }
    }
  }

  /** Balances that some sequence of Apply calls leaves, starting from empty. */
  ghost predicate Reachable(m: Amts) {
    exists js :: m == Run(js)
  }

  /** After any journals, accepted or refused, every group is in balance, wrap-around included. */
  lemma IdentityAlwaysHolds(m: Amts, g: Group)
    requires Reachable(m)
    ensures TrialOver(m, m.Keys, g).InBalance()
  {
    hide Run, Net, TrialOver, Wrap;
    var js :| m == Run(js);
    RunNetsOut(js, g);
    NetZeroBalances(m, g);
  }

  // ---- reversal restores ----

  lemma {:induction false} EffectConcat(a: seq<Line>, b: seq<Line>, k: AccountKey)
    ensures Effect(a + b, k) == Effect(a, k) + Effect(b, k)
  {
    if b == [] {
      assert a + b == a;
    } else {
      assert (a + b)[..|a + b| - 1] == a + b[..|b| - 1];
      EffectConcat(a, b[..|b| - 1], k);
    }
  }

  lemma EffectRemove(b: seq<Line>, i: nat, k: AccountKey)
    requires i < |b|
    ensures Effect(b, k) == Effect(b[..i] + b[i + 1..], k) + DeltaAt(b[i], k)
  {
    assert b == b[..i] + [b[i]] + b[i + 1..];
    EffectConcat(b[..i] + [b[i]], b[i + 1..], k);
    EffectConcat(b[..i], [b[i]], k);
    EffectConcat(b[..i], b[i + 1..], k);
    assert [b[i]][..0] == [];
  }

  /** The order of lines does not matter to their effect. */
  lemma {:induction false} EffectOfMultiset(a: seq<Line>, b: seq<Line>, k: AccountKey)
    requires multiset(a) == multiset(b)
    ensures Effect(a, k) == Effect(b, k)
    decreases |a|
  {
    assert |multiset(a)| == |a| && |multiset(b)| == |b|;
    if a == [] {
    } else {
      var init, x := a[..|a| - 1], a[|a| - 1];
      assert a == init + [x];
      assert x in multiset(b);
      var i :| 0 <= i < |b| && b[i] == x;
      var rest := b[..i] + b[i + 1..];
      RemoveSame(init, x, b, i);
      EffectOfMultiset(init, rest, k);
      EffectRemove(b, i, k);
    }
  }

  lemma RemoveSame(init: seq<Line>, x: Line, b: seq<Line>, i: nat)
    requires i < |b| && b[i] == x && multiset(init + [x]) == multiset(b)
    ensures multiset(init) == multiset(b[..i] + b[i + 1..])
  {
    assert b == b[..i] + [x] + b[i + 1..];
    assert multiset(init) + multiset{x} == multiset(b[..i] + b[i + 1..]) + multiset{x};
    assert multiset(init) == multiset(init) + multiset{x} - multiset{x};
  }

  lemma {:induction false} EffectOfMirror(es: seq<Entry>, k: AccountKey)
    requires forall e | e in es :: e.direction.Valid()
    ensures Effect(Lines(Mirror(es)), k) == -Effect(Lines(es), k)
  {
    if es == [] {
    } else {
      var n := |es| - 1;
      EffectOfMirror(es[..n], k);
      LastLine(es);
      assert es[n] in es;
      assert DeltaAt(LineOf(MirrorOf(es[n])), k) == -DeltaAt(LineOf(es[n]), k);
    }
  }

  lemma MirroredEffect(orig: Journal, rev: Journal, k: AccountKey)
    requires ValidJournal(orig) && Mirrors(orig.entries, rev.entries)
    ensures Effect(Lines(rev.entries), k) == -Effect(Lines(orig.entries), k)
  {
    forall e | e in orig.entries ensures e.direction.Valid() {
      assert ValidEntry(orig, e, orig.entries[0].amount.currency);
    }
    EffectOfMirror(orig.entries, k);
    EffectOfMultiset(Lines(rev.entries), Lines(Mirror(orig.entries)), k);
  }

  /** A valid journal followed by any accepted reversal of it leaves every balance as it was. */
  lemma ReversalRestores(m: Amts, orig: Journal, rev: Journal, k: AccountKey)
    requires ValidJournal(orig) && ValidJournal(rev) && ReversalVerdict(Some(orig), rev) == Pass
    ensures Of(Applied(Applied(m, orig), rev), k) == Of(m, k)
  {
    hide Wrap, Effect, Lines, Of, After, ValidJournal, Mirrors, Verdict, Total;
    assert Mirrors(orig.entries, rev.entries);
    MirroredEffect(orig, rev, k);
    AfterIsEffect(m, orig.entries, k);
    AfterIsEffect(After(m, orig.entries), rev.entries, k);
    WrapAdd(Of(m, k) + Effect(Lines(orig.entries), k), Effect(Lines(rev.entries), k));
  }
}

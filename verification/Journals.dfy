/** Double-entry journals: what makes one valid, and what makes one the reversal of another. */
module Journals {
  import opened Wrappers
  import opened Amounts
  import opened Accounts

  datatype Direction = Debit | Credit | OtherDirection(text: string) {

    predicate Valid() {
      Debit? || Credit?
    }

    function Opposite(): Direction {
      if Debit? then Credit else Debit
    }
  }

  datatype RefType =
    | RefPayment | RefRefund | RefDispute | RefFee | RefSettlement | RefAdjustment | RefReversal
    | OtherRef(text: string)

  datatype Source =
    | PaymentEventSource | ReconciliationAdjustment | ManualAdjustment | ReversalSource | Payout | OtherSource

  datatype Template = JCap | JRefPend | JRefOk | JRefFail | JCbOpen | JCbLost | JCbWon | JStl | JRev | Untemplated

  /** What a journal refers to: an outside object by name, or another journal. */
  datatype RefId = Named(text: string) | OfJournal(id: nat)

  datatype Entry = Entry(account: AccountKey, direction: Direction, amount: Money)

  /** Identifiers are numbers, NIL the absent one; reversedBy is filled in when a journal is read. */
  datatype Journal = Journal(id: nat, eventId: nat, merchant: nat, live: bool, source: Source, refType: RefType,
                             refId: RefId, template: Template, reversalOf: Option<nat>, reversedBy: Option<nat>,
                             entries: seq<Entry>)

  /** The exact total of the entries in one direction, over mathematical integers. */
  function Total(es: seq<Entry>, dir: Direction): int {
    if es == [] then 0
    else Total(es[..|es| - 1], dir) + if es[|es| - 1].direction == dir then es[|es| - 1].amount.amount else 0
  }

  // ---- a valid journal ----

  predicate EntryBelongs(j: Journal, e: Entry) {
    && e.account.currency == e.amount.currency && e.account.live == j.live
    && (e.account.IsSystem() || j.merchant == NIL || e.account.merchant == j.merchant)
  }

  predicate ValidEntry(j: Journal, e: Entry, currency: Currency) {
    && e.direction.Valid() && Supported(e.amount.currency) && e.amount.amount > 0 && e.amount.currency == currency
    && e.account.Validate().Pass? && EntryBelongs(j, e)
  }

  predicate ValidHeader(j: Journal) {
    j.eventId != NIL && !j.refType.OtherRef? && |j.entries| >= 2
  }

  predicate Balanced(es: seq<Entry>) {
    Total(es, Debit) == Total(es, Credit) <= MAX_INT64
  }

  /** The ledger's rules: one currency, one mode, one merchant, real accounts, positive amounts, and
      debits that equal credits without leaving the int64 range. */
  predicate ValidJournal(j: Journal) {
    && ValidHeader(j) && Balanced(j.entries)
    && forall e | e in j.entries :: ValidEntry(j, e, j.entries[0].amount.currency)
  }

  /** The first rule entry e breaks. */
  function EntryFault(j: Journal, e: Entry, currency: Currency): Option<LedgerError> {
    if !e.direction.Valid() then Some(DirectionInvalid)
    else if e.amount.Validate().Fail? then Some(UnsupportedCurrency)
    else if !e.amount.IsPositive() then Some(EntryAmountInvalid)
    else if e.amount.currency != currency then Some(JournalCurrencyMismatch)
    else match e.account.Validate()
      case Fail(error) => Some(error)
      case Pass =>
        if e.account.currency != currency then Some(JournalCurrencyMismatch)
        else if e.account.live != j.live then Some(LivemodeMismatch)
        else if !e.account.IsSystem() && j.merchant != NIL && e.account.merchant != j.merchant
            then Some(MerchantMismatch)
        else None
  }

  /** The fault of the first faulty entry among the first n: one that breaks a rule, or one that
      takes its side's total out of range. */
  function FirstFault(j: Journal, n: nat): Option<LedgerError>
    requires n <= |j.entries|
  {
    if n == 0 then None
    else if FirstFault(j, n - 1).Some? then FirstFault(j, n - 1)
    else
      var e := j.entries[n - 1];
      if EntryFault(j, e, j.entries[0].amount.currency).Some? then EntryFault(j, e, j.entries[0].amount.currency)
      else if Total(j.entries[..n], e.direction) > MAX_INT64 then Some(EntryAmountInvalid)
      else None
  }

  function Verdict(j: Journal): Outcome<LedgerError> {
    if j.eventId == NIL then Fail(EventIdMissing)
    else if j.refType.OtherRef? then Fail(ReferenceTypeInvalid)
    else if |j.entries| < 2 then Fail(TooFewEntries)
    else match FirstFault(j, |j.entries|)
      case Some(error) => Fail(error)
      case None => if Total(j.entries, Debit) != Total(j.entries, Credit) then Fail(Unbalanced) else Pass
  }

  lemma NoFaultMeans(j: Journal, e: Entry, currency: Currency)
    ensures EntryFault(j, e, currency) == None <==> ValidEntry(j, e, currency)
  {
  }

  /** What is wrong with an entry, error by error. */
  predicate Explains(j: Journal, e: Entry, currency: Currency, error: LedgerError) {
    match error
    case DirectionInvalid => e.direction != Debit && e.direction != Credit
    case UnsupportedCurrency =>
      !Supported(e.amount.currency) || e.amount.amount < 0 || !Supported(e.account.currency)
    case EntryAmountInvalid => e.amount.amount == 0
    case JournalCurrencyMismatch => e.amount.currency != currency || e.account.currency != currency
    case LivemodeMismatch => e.account.live != j.live
    case MerchantMismatch => !e.account.IsSystem() && j.merchant != NIL && e.account.merchant != j.merchant
    case _ => e.account.Validate() == Fail(error)
  }

  /** A refused journal has no event id, an unknown reference type, fewer than two entries, or totals that differ; or a
      first entry that is wrong, for the reason given, or takes its side out of range, all entries before it being
      fine. */
  lemma RefusedFor(j: Journal)
    requires Verdict(j).Fail?
    ensures var error := Verdict(j).error;
            if j.eventId == NIL then error == EventIdMissing
            else if j.refType.OtherRef? then error == ReferenceTypeInvalid
            else if |j.entries| < 2 then error == TooFewEntries
            else if PrefixFine(j, |j.entries|) then error == Unbalanced
            else exists i | 0 <= i < |j.entries| :: PrefixFine(j, i) && !PrefixFine(j, i + 1) && FaultAt(j, i, error)
  {
    hide Total, FirstFault;
    var n := |j.entries|;
    if j.eventId != NIL && !j.refType.OtherRef? && n >= 2 { FirstFaultAt(j, n); }
  }

  predicate FaultAt(j: Journal, i: nat, error: LedgerError)
    requires i < |j.entries|
  {
    var e, currency := j.entries[i], j.entries[0].amount.currency;
    if ValidEntry(j, e, currency) then error == EntryAmountInvalid && Total(j.entries[..i + 1], e.direction) > MAX_INT64
    else Explains(j, e, currency, error)
  }

  lemma FaultExplained(j: Journal, e: Entry, currency: Currency)
    requires EntryFault(j, e, currency).Some?
    ensures !ValidEntry(j, e, currency) && Explains(j, e, currency, EntryFault(j, e, currency).value)
  {
    hide ValidCode, MerchantLevel;
  }

  lemma {:induction false} FirstFaultAt(j: Journal, n: nat)
    requires n <= |j.entries|
    ensures FirstFault(j, n).None? <==> PrefixFine(j, n)
    ensures FirstFault(j, n).Some? ==>
              exists i | 0 <= i < n ::
                PrefixFine(j, i) && !PrefixFine(j, i + 1) && FaultAt(j, i, FirstFault(j, n).value)
  {
    hide Total, EntryFault, ValidEntry, Explains;
    if n == 0 {
      assert j.entries[..0] == [];
      NothingTotals([]);
    } else {
      FirstFaultAt(j, n - 1);
      PrefixStep(j, n - 1);
      var e, currency := j.entries[n - 1], j.entries[0].amount.currency;
      NoFaultMeans(j, e, currency);
      if FirstFault(j, n - 1).None? && FirstFault(j, n).Some? {
        if EntryFault(j, e, currency).Some? { FaultExplained(j, e, currency); }
        assert FaultAt(j, n - 1, FirstFault(j, n).value);
      }
    }
  }

  lemma NextTotal(es: seq<Entry>, n: nat, dir: Direction)
    requires n < |es|
    ensures Total(es[..n + 1], dir) == Total(es[..n], dir) + if es[n].direction == dir then es[n].amount.amount else 0
  {
    assert es[..n + 1][..n] == es[..n];
  }

  predicate PrefixFine(j: Journal, n: nat)
    requires n <= |j.entries|
  {
    && (forall i | 0 <= i < n :: ValidEntry(j, j.entries[i], j.entries[0].amount.currency))
    && Total(j.entries[..n], Debit) <= MAX_INT64 && Total(j.entries[..n], Credit) <= MAX_INT64
  }

  lemma PrefixStep(j: Journal, n: nat)
    requires n < |j.entries|
    ensures PrefixFine(j, n + 1) <==>
              && PrefixFine(j, n) && ValidEntry(j, j.entries[n], j.entries[0].amount.currency)
              && Total(j.entries[..n + 1], j.entries[n].direction) <= MAX_INT64
  {
    NextTotal(j.entries, n, Debit);
    NextTotal(j.entries, n, Credit);
  }

  lemma {:induction false} NoFaultInPrefix(j: Journal, n: nat)
    requires n <= |j.entries|
    ensures FirstFault(j, n) == None <==> PrefixFine(j, n)
  {
    if n == 0 {
    } else {
      NoFaultInPrefix(j, n - 1);
      NoFaultMeans(j, j.entries[n - 1], j.entries[0].amount.currency);
      PrefixStep(j, n - 1);
    }
  }

  /** The checks pass exactly the valid journals. */
  lemma VerdictPassesValid(j: Journal)
    ensures Verdict(j).Pass? <==> ValidJournal(j)
  {
    NoFaultInPrefix(j, |j.entries|);
    assert j.entries[..|j.entries|] == j.entries;
  }

  method Validate(j: Journal) returns (r: Outcome<LedgerError>)
    ensures r == Verdict(j)
    ensures r.Pass? <==> ValidJournal(j)
  {
    hide ValidJournal, EntryFault, Total;
    VerdictPassesValid(j);
    NothingTotals(j.entries);
    if j.eventId == NIL { return Fail(EventIdMissing); }
    if j.refType.OtherRef? { return Fail(ReferenceTypeInvalid); }
    if |j.entries| < 2 { return Fail(TooFewEntries); }
    var currency := j.entries[0].amount.currency;
    var debits: int64, credits: int64 := 0, 0;
    for i := 0 to |j.entries|
      invariant FirstFault(j, i) == None
      invariant debits == Total(j.entries[..i], Debit) && credits == Total(j.entries[..i], Credit)
      invariant 0 <= debits && 0 <= credits
    {
      var e := j.entries[i];
      NextTotal(j.entries, i, Debit);
      NextTotal(j.entries, i, Credit);
      var fault := EntryFault(j, e, currency);
      if fault.Some? {
        FaultPersists(j, i + 1, |j.entries|);
        return Fail(fault.value);
      }
      FaultlessEntry(j, e, currency);
      if e.direction == Debit {
        if debits > MAX_INT64 - e.amount.amount {
          FaultPersists(j, i + 1, |j.entries|);
          return Fail(EntryAmountInvalid);
        }
        debits := debits + e.amount.amount;
      } else {
        if credits > MAX_INT64 - e.amount.amount {
          FaultPersists(j, i + 1, |j.entries|);
          return Fail(EntryAmountInvalid);
        }
        credits := credits + e.amount.amount;
      }
    }
    assert j.entries[..|j.entries|] == j.entries;
    if debits != credits { return Fail(Unbalanced); }
    return Pass;
  }

  lemma NothingTotals(es: seq<Entry>)
    ensures Total(es[..0], Debit) == 0 == Total(es[..0], Credit)
  {
  }

  lemma FaultlessEntry(j: Journal, e: Entry, currency: Currency)
    requires EntryFault(j, e, currency).None?
    ensures e.direction.Valid() && e.amount.amount > 0
  {
  }

  lemma {:induction false} FaultPersists(j: Journal, m: nat, n: nat)
    requires m <= n <= |j.entries| && FirstFault(j, m).Some?
    ensures FirstFault(j, n) == FirstFault(j, m)
  {
    if m < n { FaultPersists(j, m, n - 1); }
  }

  // ---- account keys ----

  function Keys(es: seq<Entry>): set<AccountKey> {
    if es == [] then {} else Keys(es[..|es| - 1]) + {es[|es| - 1].account}
  }

  /** The accounts touched, without repeats, in order of first appearance. */
  function AccountKeysOf(es: seq<Entry>): seq<AccountKey> {
    if es == [] then []
    else
      var init, a := AccountKeysOf(es[..|es| - 1]), es[|es| - 1].account;
      if a in Keys(es[..|es| - 1]) then init else init + [a]
  }

  lemma {:induction false} AccountKeysAreKeys(es: seq<Entry>)
    ensures forall k :: k in AccountKeysOf(es) <==> k in Keys(es)
    ensures forall i, j | 0 <= i < j < |AccountKeysOf(es)| :: AccountKeysOf(es)[i] != AccountKeysOf(es)[j]
  {
    if es == [] {
    } else {
      AccountKeysAreKeys(es[..|es| - 1]);
    }
  }

  lemma {:induction false} KeysAreAccounts(es: seq<Entry>, k: AccountKey)
    ensures k in Keys(es) <==> exists e :: e in es && e.account == k
  {
    if es == [] {
    } else {
      KeysAreAccounts(es[..|es| - 1], k);
      assert es == es[..|es| - 1] + [es[|es| - 1]];
    }
  }

  method AccountKeys(j: Journal) returns (out: seq<AccountKey>)
    ensures out == AccountKeysOf(j.entries)
  {
    var seen: set<AccountKey> := {};
    out := [];
    for i := 0 to |j.entries|
      invariant seen == Keys(j.entries[..i]) && out == AccountKeysOf(j.entries[..i])
    {
      var a := j.entries[i].account;
      assert j.entries[..i + 1][..i] == j.entries[..i];
      if a in seen { continue; }
      seen := seen + {a};
      out := out + [a];
    }
    assert j.entries[..|j.entries|] == j.entries;
  }

  // ---- reversal ----

  /** What a reversal is compared on: account, direction and amount. */
  datatype Line = Line(account: AccountKey, direction: Direction, amount: int)

  function LineOf(e: Entry): Line {
    Line(e.account, e.direction, e.amount.amount)
  }

  function MirrorOf(e: Entry): Entry {
    e.(direction := e.direction.Opposite())
  }

  function Lines(es: seq<Entry>): (ls: seq<Line>)
    ensures |ls| == |es|
    ensures forall i | 0 <= i < |es| :: ls[i] == LineOf(es[i])
  {
    if es == [] then [] else Lines(es[..|es| - 1]) + [LineOf(es[|es| - 1])]
  }

  function Mirror(es: seq<Entry>): (ms: seq<Entry>)
    ensures |ms| == |es|
    ensures forall i | 0 <= i < |es| :: ms[i] == MirrorOf(es[i])
  {
    if es == [] then [] else Mirror(es[..|es| - 1]) + [MirrorOf(es[|es| - 1])]
  }

  /** rev's lines are the lines of orig with the directions swapped, in any order. */
  predicate Mirrors(orig: seq<Entry>, rev: seq<Entry>) {
    multiset(Lines(rev)) == multiset(Lines(Mirror(orig)))
  }

  /** How many entries book amount x on account k in a direction. */
  function Booked(es: seq<Entry>, k: AccountKey, dir: Direction, x: int): nat {
    if es == [] then 0
    else
      Booked(es[..|es| - 1], k, dir, x)
      + if es[|es| - 1].account == k && es[|es| - 1].direction == dir && es[|es| - 1].amount.amount == x then 1 else 0
  }

  /** Every debit of the one is a credit of the other and the other way round, account by account and amount by
      amount. */
  ghost predicate Opposed(orig: seq<Entry>, rev: seq<Entry>) {
    forall k, x: int :: OpposedAt(orig, rev, k, x)
  }

  predicate OpposedAt(orig: seq<Entry>, rev: seq<Entry>, k: AccountKey, x: int) {
    Booked(rev, k, Debit, x) == Booked(orig, k, Credit, x) && Booked(rev, k, Credit, x) == Booked(orig, k, Debit, x)
  }

  /** One journal mirrors another exactly when they are opposed. */
  lemma MirrorsExactly(orig: seq<Entry>, rev: seq<Entry>)
    requires (forall e | e in orig :: e.direction.Valid()) && forall e | e in rev :: e.direction.Valid()
    ensures Mirrors(orig, rev) <==> Opposed(orig, rev)
  {
    hide Lines, Mirror, OpposedAt;
    if Mirrors(orig, rev) {
      forall k, x: int ensures OpposedAt(orig, rev, k, x) { OpposedLines(orig, rev, k, x); }
    }
    if Opposed(orig, rev) {
      forall l: Line ensures multiset(Lines(rev))[l] == multiset(Lines(Mirror(orig)))[l] {
        if l.direction.Valid() {
          assert OpposedAt(orig, rev, l.account, l.amount);
          OpposedLines(orig, rev, l.account, l.amount);
        } else {
          OtherLines(rev, l);
          OtherLines(Mirror(orig), l);
        }
      }
    }
  }

  lemma OpposedLines(orig: seq<Entry>, rev: seq<Entry>, k: AccountKey, x: int)
    requires (forall e | e in orig :: e.direction.Valid()) && forall e | e in rev :: e.direction.Valid()
    ensures OpposedAt(orig, rev, k, x) <==>
              forall dir: Direction | dir.Valid() ::
                multiset(Lines(rev))[Line(k, dir, x)] == multiset(Lines(Mirror(orig)))[Line(k, dir, x)]
  {
    hide Lines, Mirror, Booked;
    LinesBooked(rev, k, x);
    LinesBooked(orig, k, x);
    assert Debit.Valid() && Credit.Valid();
    assert forall dir: Direction | dir.Valid() :: dir == Debit || dir == Credit;
  }

  lemma OtherLines(es: seq<Entry>, l: Line)
    requires !l.direction.Valid() && forall i | 0 <= i < |es| :: es[i].direction.Valid()
    ensures multiset(Lines(es))[l] == 0
  {
    assert forall m | m in Lines(es) :: m.direction.Valid();
  }

  lemma {:induction false} LinesBooked(es: seq<Entry>, k: AccountKey, x: int)
    requires forall e | e in es :: e.direction.Valid()
    ensures multiset(Lines(es))[Line(k, Debit, x)] == Booked(es, k, Debit, x)
    ensures multiset(Lines(es))[Line(k, Credit, x)] == Booked(es, k, Credit, x)
    ensures multiset(Lines(Mirror(es)))[Line(k, Debit, x)] == Booked(es, k, Credit, x)
    ensures multiset(Lines(Mirror(es)))[Line(k, Credit, x)] == Booked(es, k, Debit, x)
  {
    hide Lines, Mirror, Booked, MirrorOf, LineOf;
    if es == [] {
      NoLinesAtAll(k, x);
    } else {
      var n := |es| - 1;
      LastLine(es);
      LinesBooked(es[..n], k, x);
      SameLength(es);
      assert Lines(es) == Lines(es[..n]) + [LineOf(es[n])];
      assert Lines(Mirror(es)) == Lines(Mirror(es[..n])) + [LineOf(MirrorOf(es[n]))];
      BookedNext(es, k, x);
    }
  }

  /** One more entry, seen as a line, and as the line that mirrors it. */
  lemma BookedNext(es: seq<Entry>, k: AccountKey, x: int)
    requires es != [] && es[|es| - 1].direction.Valid()
    ensures var init, e := es[..|es| - 1], es[|es| - 1];
            && Booked(es, k, Debit, x) == Booked(init, k, Debit, x) + (if LineOf(e) == Line(k, Debit, x) then 1 else 0)
            && Booked(es, k, Credit, x)
               == Booked(init, k, Credit, x) + (if LineOf(e) == Line(k, Credit, x) then 1 else 0)
            && (LineOf(MirrorOf(e)) == Line(k, Debit, x) <==> LineOf(e) == Line(k, Credit, x))
            && (LineOf(MirrorOf(e)) == Line(k, Credit, x) <==> LineOf(e) == Line(k, Debit, x))
  {
  }

  lemma NoLinesAtAll(k: AccountKey, x: int)
    ensures Lines([]) == [] && Lines(Mirror([])) == []
    ensures Booked([], k, Debit, x) == Booked([], k, Credit, x) == 0
  {
  }

  lemma SameLength(es: seq<Entry>)
    ensures |Lines(es)| == |Lines(Mirror(es))| == |es|
  {
  }

  function ReversalVerdict(orig: Option<Journal>, rev: Journal): Outcome<LedgerError> {
    if orig.None? then Fail(JournalNotFound)
    else if orig.value.reversedBy.Some? then Fail(AlreadyReversed)
    else if !Mirrors(orig.value.entries, rev.entries) || rev.reversalOf != Some(orig.value.id)
        then Fail(ReversalMismatch)
    else Pass
  }

  function CountOf(m: map<Line, nat>, l: Line): nat {
    if l in m then m[l] else 0
  }

  method ValidateReversal(orig: Option<Journal>, rev: Journal) returns (r: Outcome<LedgerError>)
    ensures r == ReversalVerdict(orig, rev)
  {
    if orig.None? { return Fail(JournalNotFound); }
    if orig.value.reversedBy.Some? { return Fail(AlreadyReversed); }
    var es := orig.value.entries;
    if |es| != |rev.entries| {
      SameSize(es, rev.entries);
      return Fail(ReversalMismatch);
    }
    var expected := ExpectedLines(es);
    var ok := TakeLines(expected, es, rev.entries);
    if !ok || rev.reversalOf != Some(orig.value.id) { return Fail(ReversalMismatch); }
    return Pass;
  }

  lemma SameSize(es: seq<Entry>, rs: seq<Entry>)
    ensures Mirrors(es, rs) ==> |es| == |rs|
  {
    assert |multiset(Lines(rs))| == |rs| && |multiset(Lines(Mirror(es)))| == |es|;
  }

  lemma NextLines(es: seq<Entry>, i: nat)
    requires i < |es|
    ensures Lines(es[..i + 1]) == Lines(es[..i]) + [LineOf(es[i])]
    ensures Mirror(es[..i + 1]) == Mirror(es[..i]) + [MirrorOf(es[i])]
    ensures Lines(Mirror(es[..i + 1])) == Lines(Mirror(es[..i])) + [LineOf(MirrorOf(es[i]))]
  {
    assert es[..i + 1][..i] == es[..i];
    var ms := Mirror(es[..i + 1]);
    assert ms[..i] == Mirror(es[..i]);
  }

  /** The last line and the lines before it, for an entry list and for its mirror image. */
  lemma LastLine(es: seq<Entry>)
    requires es != []
    ensures var n := |es| - 1;
            && Lines(es)[..n] == Lines(es[..n]) && Lines(es)[n] == LineOf(es[n])
            && Lines(Mirror(es))[..n] == Lines(Mirror(es[..n])) && Lines(Mirror(es))[n] == LineOf(MirrorOf(es[n]))
  {
    NextLines(es, |es| - 1);
    assert es[..|es|] == es;
  }

  /** How many times each mirrored line is expected. */
  method ExpectedLines(es: seq<Entry>) returns (expected: map<Line, nat>)
    ensures forall l :: CountOf(expected, l) == multiset(Lines(Mirror(es)))[l]
  {
    hide Lines, Mirror, LineOf, MirrorOf;
    expected := map[];
    assert Lines(Mirror(es[..0])) == [];
    for i := 0 to |es|
      invariant forall l :: CountOf(expected, l) == multiset(Lines(Mirror(es[..i])))[l]
    {
      NextLines(es, i);
      var l := LineOf(MirrorOf(es[i]));
      expected := expected[l := CountOf(expected, l) + 1];
    }
    assert es[..|es|] == es;
  }

  /** Every line of rs must use up one expected line. */
  method TakeLines(all: map<Line, nat>, es: seq<Entry>, rs: seq<Entry>) returns (ok: bool)
    requires |es| == |rs| && forall l :: CountOf(all, l) == multiset(Lines(Mirror(es)))[l]
    ensures ok == Mirrors(es, rs)
  {
    hide Lines, Mirror, LineOf;
    var expected: map<Line, nat> := all;
    ghost var got, want := Lines(rs), multiset(Lines(Mirror(es)));
    for i := 0 to |rs|
      invariant forall l :: CountOf(expected, l) + multiset(got[..i])[l] == want[l]
    {
      OneMoreLine(got, i);
      var l := LineOf(rs[i]);
      if CountOf(expected, l) == 0 {
        assert multiset(got)[l] > want[l];
        return false;
      }
      expected := expected[l := CountOf(expected, l) - 1];
    }
    assert got[..|rs|] == got;
    AllTaken(multiset(got), want);
    return true;
  }

  lemma OneMoreLine(ls: seq<Line>, i: nat)
    requires i < |ls|
    ensures multiset(ls[..i + 1]) == multiset(ls[..i]) + multiset{ls[i]}
    ensures multiset(ls)[ls[i]] > multiset(ls[..i])[ls[i]]
  {
    assert ls[..i + 1] == ls[..i] + [ls[i]];
    assert ls == ls[..i + 1] + ls[i + 1..];
  }

  lemma AllTaken(got: multiset<Line>, want: multiset<Line>)
    requires |got| == |want| && forall l :: got[l] <= want[l]
    ensures got == want
  {
    assert got <= want;
    assert |want - got| == 0;
    assert want == got + (want - got);
  }

  /** The reversing journal of orig, kept under a new event id. */
  function ReversingJournal(orig: Journal, eventId: nat): Journal {
    Journal(NIL, eventId, orig.merchant, orig.live, ReversalSource, RefReversal, OfJournal(orig.id), JRev,
            Some(orig.id), None, Mirror(orig.entries))
  }

  function ReverseResult(orig: Option<Journal>, eventId: nat): Result<Journal, LedgerError> {
    if orig.None? then Err(JournalNotFound)
    else if orig.value.reversedBy.Some? then Err(AlreadyReversed)
    else if orig.value.id == NIL then Err(JournalNotFound)
    else match Verdict(ReversingJournal(orig.value, eventId))
      case Pass => Ok(ReversingJournal(orig.value, eventId))
      case Fail(error) => Err(error)
  }

  method Reverse(orig: Option<Journal>, eventId: nat) returns (r: Result<Journal, LedgerError>)
    ensures r == ReverseResult(orig, eventId)
  {
    if orig.None? { return Err(JournalNotFound); }
    if orig.value.reversedBy.Some? { return Err(AlreadyReversed); }
    if orig.value.id == NIL { return Err(JournalNotFound); }
    var entries: seq<Entry> := [];
    for i := 0 to |orig.value.entries|
      invariant entries == Mirror(orig.value.entries[..i])
    {
      NextLines(orig.value.entries, i);
      var e := orig.value.entries[i];
      entries := entries + [Entry(e.account, e.direction.Opposite(), e.amount)];
    }
    assert orig.value.entries[..|orig.value.entries|] == orig.value.entries;
    var rev := Journal(NIL, eventId, orig.value.merchant, orig.value.live, ReversalSource, RefReversal,
                       OfJournal(orig.value.id), JRev, Some(orig.value.id), None, entries);
    var v := Validate(rev);
    match v {
      case Pass => return Ok(rev);
      case Fail(error) => return Err(error);
    }
  }

  // ---- what reversal gives ----

  lemma {:induction false} MirroredTotals(es: seq<Entry>)
    requires forall e | e in es :: e.direction.Valid()
    ensures Total(Mirror(es), Debit) == Total(es, Credit)
    ensures Total(Mirror(es), Credit) == Total(es, Debit)
  {
    if es == [] {
    } else {
      var init, e := es[..|es| - 1], es[|es| - 1];
      MirroredTotals(init);
      assert e in es && Mirror(es)[..|init|] == Mirror(init);
    }
  }

  /** A valid journal can be reversed exactly when it is saved and not yet reversed and the new event
      id is given; the reversal is itself valid and passes the check made on reversals. */
  lemma ReverseSucceedsExactlyWhen(orig: Journal, eventId: nat)
    requires ValidJournal(orig)
    ensures ReverseResult(Some(orig), eventId).Ok? <==> orig.reversedBy == None && orig.id != NIL && eventId != NIL
    ensures ReverseResult(Some(orig), eventId).Ok? ==>
              var rev := ReverseResult(Some(orig), eventId).value;
              ValidJournal(rev) && ReversalVerdict(Some(orig), rev) == Pass
  {
    var rev := ReversingJournal(orig, eventId);
    if eventId != NIL { MirrorIsValid(orig, rev); }
    VerdictPassesValid(rev);
  }

  lemma MirrorIsValid(orig: Journal, rev: Journal)
    requires ValidJournal(orig) && rev.eventId != NIL && rev.refType == RefReversal
    requires rev.entries == Mirror(orig.entries) && rev.live == orig.live && rev.merchant == orig.merchant
    ensures ValidJournal(rev)
  {
    forall e | e in rev.entries ensures ValidEntry(rev, e, rev.entries[0].amount.currency) {
      var i :| 0 <= i < |rev.entries| && rev.entries[i] == e;
      assert ValidEntry(orig, orig.entries[i], orig.entries[0].amount.currency);
    }
    forall e | e in orig.entries ensures e.direction.Valid() {
      assert ValidEntry(orig, e, orig.entries[0].amount.currency);
    }
    MirroredTotals(orig.entries);
  }

  /** Mirroring twice gives back the entries, in order, exactly when every direction is debit or credit. */
  lemma MirrorTwiceExactly(es: seq<Entry>)
    ensures Mirror(Mirror(es)) == es <==> forall e | e in es :: e.direction.Valid()
  {
    if forall e | e in es :: e.direction.Valid() {
      forall i | 0 <= i < |es| ensures Mirror(Mirror(es))[i] == es[i] {
        assert es[i] in es;
      }
    } else {
      var i :| 0 <= i < |es| && !es[i].direction.Valid();
      assert Mirror(Mirror(es))[i] == MirrorOf(MirrorOf(es[i]));
    }
  }

  lemma ValidDirections(j: Journal)
    requires ValidJournal(j)
    ensures forall e | e in j.entries :: e.direction.Valid()
  {
    forall e | e in j.entries ensures e.direction.Valid() {
      assert ValidEntry(j, e, j.entries[0].amount.currency);
    }
  }

  /** A valid journal, reversed, saved under any id, and reversed again: the second reversal succeeds and
      has the entries of the journal, in order. */
  lemma ReversingTwiceGivesBack(orig: Journal, eventId: nat, savedId: nat, laterId: nat)
    requires ValidJournal(orig) && ReverseResult(Some(orig), eventId).Ok? && savedId != NIL && laterId != NIL
    ensures var saved := ReverseResult(Some(orig), eventId).value.(id := savedId);
            && ReverseResult(Some(saved), laterId).Ok?
            && ReverseResult(Some(saved), laterId).value.entries == orig.entries
  {
    hide ValidJournal, Verdict, Mirror;
    var rev := ReverseResult(Some(orig), eventId).value;
    ReverseSucceedsExactlyWhen(orig, eventId);
    SavedIsValid(rev, savedId);
    ReverseSucceedsExactlyWhen(rev.(id := savedId), laterId);
    ValidDirections(orig);
    MirrorTwiceExactly(orig.entries);
  }

  lemma SavedIsValid(j: Journal, id: nat)
    requires ValidJournal(j)
    ensures ValidJournal(j.(id := id))
  {
    hide Total;
    var n := j.(id := id);
    forall e | e in n.entries ensures ValidEntry(n, e, n.entries[0].amount.currency) {
      assert ValidEntry(j, e, j.entries[0].amount.currency);
    }
  }
}

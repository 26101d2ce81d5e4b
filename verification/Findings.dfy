/** What a reconciliation run reports, read off its input alone: for each line its pair or its discrepancy, for
    each record that no line settles whether it is reported or deferred. */
module Findings {
  import opened Wrappers
  import opened Amounts
  import opened Matcher

  // ---- which records and lines take part ----

  /** The statuses in which a record's money has moved, by kind. */
  predicate MoneyMoved(r: Record) {
    match r.kind
    case PaymentRecord =>
      r.status in {Captured, PartiallyRefunded, Refunded, Disputed, ChargebackWon, ChargebackLost}
    case RefundRecord => r.status == RefundSucceeded
    case DisputeRecord => r.status == DisputeLost
    case OtherRecord(_) => false
  }

  /** A record is settled by a line with its reference and the type that goes with its kind. */
  predicate Settles(l: Line, r: Record) {
    && l.reference == r.reference
    && ((l.typ == PaymentLine && r.kind == PaymentRecord) || (l.typ == RefundLine && r.kind == RefundRecord)
        || (l.typ == ChargebackLine && r.kind == DisputeRecord))
  }

  predicate TakesPart(l: Line) {
    l.typ in {PaymentLine, RefundLine, ChargebackLine}
  }

  predicate SameKey(l: Line, m: Line) {
    l.reference == m.reference && l.typ == m.typ
  }

  /** The record has a reference and, where both name a provider, the provider of the run. */
  predicate OfTheRun(r: Record, inp: Input) {
    r.reference != "" && (r.provider == "" || inp.provider == "" || r.provider == inp.provider)
  }

  /** Record j is the one the line is held against: no other that fits has a greater sequence, and none that
      comes later has the same. */
  predicate HeldAgainst(l: Line, j: nat, inp: Input) {
    && j < |inp.records| && OfTheRun(inp.records[j], inp) && Settles(l, inp.records[j])
    && forall i | 0 <= i < |inp.records| && OfTheRun(inp.records[i], inp) && Settles(l, inp.records[i]) ::
         if i <= j then inp.records[i].sourceSeq <= inp.records[j].sourceSeq
         else inp.records[i].sourceSeq < inp.records[j].sourceSeq
  }

  predicate Known(l: Line, inp: Input) {
    exists r :: r in inp.records && OfTheRun(r, inp) && Settles(l, r)
  }

  // ---- the index ----

  /** Place j holds the record the index has for its key, among the first n. */
  predicate LatestAt(recs: seq<Record>, n: nat, j: nat, provider: string) {
    && j < n <= |recs| && Eligible(recs[j], provider)
    && forall i | 0 <= i < n && Eligible(recs[i], provider) && RecordKey(recs[i]) == RecordKey(recs[j]) ::
         if i <= j then recs[i].sourceSeq <= recs[j].sourceSeq else recs[i].sourceSeq < recs[j].sourceSeq
  }

  ghost predicate IndexedAt(recs: seq<Record>, n: nat, k: MatchKey, provider: string)
    requires n <= |recs|
  {
    k in Index(recs[..n], provider) ==>
      exists j: nat ::
        LatestAt(recs, n, j, provider) && RecordKey(recs[j]) == k && Index(recs[..n], provider)[k] == recs[j]
  }

  lemma {:induction false} IndexPlaces(recs: seq<Record>, n: nat, k: MatchKey, provider: string)
    requires n <= |recs|
    ensures IndexedAt(recs, n, k, provider)
    ensures k in Index(recs[..n], provider) <==>
              exists j | 0 <= j < n :: Eligible(recs[j], provider) && RecordKey(recs[j]) == k
  {
    hide Eligible, RecordKey, LatestAt, IndexedAt;
    if n == 0 {
      assert IndexedAt(recs, n, k, provider) by { NothingIndexed(recs, k, provider); }
    } else {
      IndexPlaces(recs, n - 1, k, provider);
      assert recs[..n][..n - 1] == recs[..n - 1];
      OneMorePlace(recs, n, k, provider);
    }
  }

  lemma NothingIndexed(recs: seq<Record>, k: MatchKey, provider: string)
    ensures IndexedAt(recs, 0, k, provider)
  {
  }

  lemma OneMorePlace(recs: seq<Record>, n: nat, k: MatchKey, provider: string)
    requires 0 < n <= |recs| && IndexedAt(recs, n - 1, k, provider) && recs[..n][..n - 1] == recs[..n - 1]
    requires k in Index(recs[..n - 1], provider) <==>
               exists j | 0 <= j < n - 1 :: Eligible(recs[j], provider) && RecordKey(recs[j]) == k
    ensures IndexedAt(recs, n, k, provider)
  {
    hide Eligible, RecordKey, Index;
    var m, r := Index(recs[..n - 1], provider), recs[n - 1];
    var t := Index(recs[..n], provider);
    IndexedNext(recs, n, provider);
    if k in t {
      if Eligible(r, provider) && RecordKey(r) == k && (k !in m || r.sourceSeq >= m[k].sourceSeq) {
        if k in m {
          var j: nat :| LatestAt(recs, n - 1, j, provider) && RecordKey(recs[j]) == k && m[k] == recs[j];
          assert LatestAt(recs, n, n - 1, provider);
        } else {
          assert LatestAt(recs, n, n - 1, provider);
        }
      } else {
        var j: nat :| LatestAt(recs, n - 1, j, provider) && RecordKey(recs[j]) == k && m[k] == recs[j];
        assert LatestAt(recs, n, j, provider);
      }
    }
  }

  lemma IndexedNext(recs: seq<Record>, n: nat, provider: string)
    requires 0 < n <= |recs| && recs[..n][..n - 1] == recs[..n - 1]
    ensures var m, r := Index(recs[..n - 1], provider), recs[n - 1];
            Index(recs[..n], provider)
            == if Eligible(r, provider) && (RecordKey(r) !in m || r.sourceSeq >= m[RecordKey(r)].sourceSeq)
               then m[RecordKey(r) := r] else m
  {
    hide Eligible, RecordKey;
  }

  /** What the index holds for a line that takes part: the record the line is held against, if one is known. */
  lemma IndexExactly(l: Line, inp: Input)
    requires TakesPart(l)
    ensures LineKey(l) in Index(inp.records, inp.provider) <==> Known(l, inp)
    ensures Known(l, inp) ==>
              exists j: nat :: HeldAgainst(l, j, inp) && Index(inp.records, inp.provider)[LineKey(l)] == inp.records[j]
  {
    var recs, k := inp.records, LineKey(l);
    assert recs[..|recs|] == recs;
    IndexPlaces(recs, |recs|, k, inp.provider);
    KeysFit(l, inp);
    if k in Index(recs, inp.provider) {
      var j: nat :| LatestAt(recs, |recs|, j, inp.provider) && RecordKey(recs[j]) == k
                    && Index(recs, inp.provider)[k] == recs[j];
      assert recs[j] in recs;
      assert HeldAgainst(l, j, inp);
    }
  }

  lemma KeysFit(l: Line, inp: Input)
    requires TakesPart(l)
    ensures forall r: Record :: RecordKey(r) == LineKey(l) <==> Settles(l, r)
    ensures forall r: Record :: Eligible(r, inp.provider) <==> OfTheRun(r, inp)
  {
  }

  lemma HeldAgainstOne(l: Line, i: nat, j: nat, inp: Input)
    requires HeldAgainst(l, i, inp) && HeldAgainst(l, j, inp)
    ensures i == j
  {
  }

  // ---- lines ----

  /** No earlier line had the same reference and type. */
  predicate FirstOfItsKey(lines: seq<Line>, i: nat)
    requires i < |lines|
  {
    forall k | 0 <= k < i :: !SameKey(lines[k], lines[i])
  }

  /** A fee is only compared when the record has one in the line's currency. */
  predicate FeesAgree(l: Line, r: Record) {
    r.fee.Some? && r.fee.value.currency == l.fee.currency ==> r.fee.value.amount == l.fee.amount
  }

  /** What line l gives when it is held against record r. */
  function Comparison(l: Line, r: Record): Verdict {
    if !MoneyMoved(r) then Differ(OfLine(StatusMismatch, l, Some(r), NoReason))
    else if l.amount.currency != r.amount.currency then Differ(OfLine(AmountMismatch, l, Some(r), CurrencyDiffers))
    else if l.amount.amount != r.amount.amount then Differ(OfLine(AmountMismatch, l, Some(r), NoReason))
    else if !FeesAgree(l, r) then Differ(OfLine(FeeMismatch, l, Some(r), NoReason))
    else Match(Pair(l, r))
  }

  /** What line i gives: nothing if it is no payment, refund or chargeback; missing in the ledger if no record
      fits or an earlier line had its key; otherwise what the comparison with its record gives. */
  predicate Gives(inp: Input, i: nat, v: Verdict)
    requires i < |inp.lines|
  {
    var l := inp.lines[i];
    if !TakesPart(l) then v == Skip
    else if !Known(l, inp) then v == Differ(OfLine(MissingInLedger, l, None, NoReason))
    else if !FirstOfItsKey(inp.lines, i) then v == Differ(OfLine(MissingInLedger, l, None, DuplicateInSettlement))
    else forall j | 0 <= j < |inp.records| && HeldAgainst(l, j, inp) :: v == Comparison(l, inp.records[j])
  }

  lemma VerdictExactly(inp: Input, i: nat)
    requires i < |inp.lines|
    ensures Gives(inp, i, VerdictOn(inp.lines, i, Index(inp.records, inp.provider)))
  {
    hide Index, HeldAgainst, Known;
    var l := inp.lines[i];
    if TakesPart(l) {
      IndexExactly(l, inp);
      SeenBefore(inp.lines, i, LineKey(l));
      assert FirstOfItsKey(inp.lines, i) <==> LineKey(l) !in LineKeys(inp.lines, i);
      if Known(l, inp) {
        RecordIsOne(l, inp);
      }
    }
  }

  /** The record a known line is held against is the one in the index. */
  lemma RecordIsOne(l: Line, inp: Input)
    requires TakesPart(l) && Known(l, inp)
    ensures LineKey(l) in Index(inp.records, inp.provider)
    ensures forall j | 0 <= j < |inp.records| && HeldAgainst(l, j, inp) ::
              Index(inp.records, inp.provider)[LineKey(l)] == inp.records[j]
    ensures exists j: nat :: HeldAgainst(l, j, inp)
  {
    hide Index, Known;
    IndexExactly(l, inp);
    var k: nat :| HeldAgainst(l, k, inp) && Index(inp.records, inp.provider)[LineKey(l)] == inp.records[k];
    forall j | 0 <= j < |inp.records| && HeldAgainst(l, j, inp) ensures j == k {
      HeldAgainstOne(l, j, k, inp);
    }
  }

  lemma {:induction false} VerdictPlaces(vs: seq<Verdict>)
    ensures forall p :: p in Pairs(vs) <==> Match(p) in vs
    ensures forall d :: d in Differences(vs) <==> Differ(d) in vs
  {
    if vs == [] {
    } else {
      var init, v := vs[..|vs| - 1], vs[|vs| - 1];
      assert vs == init + [v];
      VerdictPlaces(init);
    }
  }

  lemma {:induction false} VerdictsAre(inp: Input, n: nat, v: Verdict)
    requires n <= |inp.lines|
    ensures var vs := Verdicts(inp.lines, n, Index(inp.records, inp.provider));
            v in vs <==> exists i | 0 <= i < n :: v == VerdictOn(inp.lines, i, Index(inp.records, inp.provider))
  {
    hide VerdictOn, Index;
    if n == 0 {
    } else {
      VerdictsAre(inp, n - 1, v);
    }
  }

  /** A line gives one verdict only. */
  lemma GivesOne(inp: Input, i: nat, v: Verdict, w: Verdict)
    requires i < |inp.lines| && Gives(inp, i, v) && Gives(inp, i, w)
    ensures v == w
  {
    hide Known, HeldAgainst, Comparison;
    var l := inp.lines[i];
    if TakesPart(l) && Known(l, inp) && FirstOfItsKey(inp.lines, i) {
      RecordIsOne(l, inp);
      var j: nat :| HeldAgainst(l, j, inp);
      assert j < |inp.records| by { HeldInRange(l, j, inp); }
    }
  }

  lemma HeldInRange(l: Line, j: nat, inp: Input)
    requires HeldAgainst(l, j, inp)
    ensures j < |inp.records|
  {
  }

  lemma VerdictGiven(inp: Input, v: Verdict)
    ensures v in Verdicts(inp.lines, |inp.lines|, Index(inp.records, inp.provider))
            <==> exists i | 0 <= i < |inp.lines| :: Gives(inp, i, v)
  {
    hide Gives, VerdictOn, Verdicts, Index;
    VerdictsAre(inp, |inp.lines|, v);
    var index := Index(inp.records, inp.provider);
    forall i | 0 <= i < |inp.lines| ensures Gives(inp, i, v) <==> v == VerdictOn(inp.lines, i, index) {
      VerdictExactly(inp, i);
      if Gives(inp, i, v) { GivesOne(inp, i, v, VerdictOn(inp.lines, i, index)); }
    }
  }

  function PassedOver(lines: seq<Line>, n: nat): set<nat>
    requires n <= |lines|
  {
    set i: nat | i < n && !TakesPart(lines[i])
  }

  lemma OneMorePassedOver(lines: seq<Line>, i: nat)
    requires i < |lines|
    ensures i !in PassedOver(lines, i)
    ensures PassedOver(lines, i + 1) == PassedOver(lines, i) + if TakesPart(lines[i]) then {} else {i}
  {
    hide TakesPart;
  }

  lemma {:induction false} SkipsCounted(lines: seq<Line>, n: nat, index: map<MatchKey, Record>)
    requires n <= |lines|
    ensures Skips(Verdicts(lines, n, index)) == |PassedOver(lines, n)|
  {
    hide VerdictOn, TakesPart, Verdicts, Skips, Pairs, Differences, Consumed, LineKeys, PassedOver;
    if n == 0 {
      NoSkips(lines, index);
    } else {
      SkipsCounted(lines, n - 1, index);
      NextVerdict(lines, n - 1, index);
      SkippedExactly(lines, n - 1, index);
      OneMorePassedOver(lines, n - 1);
    }
  }

  lemma NoSkips(lines: seq<Line>, index: map<MatchKey, Record>)
    ensures Skips(Verdicts(lines, 0, index)) == 0 && |PassedOver(lines, 0)| == 0
  {
    assert PassedOver(lines, 0) == {};
  }

  lemma SkippedExactly(lines: seq<Line>, i: nat, index: map<MatchKey, Record>)
    requires i < |lines|
    ensures VerdictOn(lines, i, index).Skip? <==> !TakesPart(lines[i])
  {
  }

  /** The pairs and the discrepancies about lines are exactly what the lines give; the lines that take no part are
      counted as skipped. */
  lemma LinesFoundExactly(inp: Input, p: Pair, d: Discrepancy)
    ensures Found(inp).skipped == |set i: nat | i < |inp.lines| && !TakesPart(inp.lines[i])|
    ensures p in Found(inp).matched <==> exists i | 0 <= i < |inp.lines| :: Gives(inp, i, Match(p))
    ensures d.OfLine? ==>
              (d in Found(inp).discrepancies <==> exists i | 0 <= i < |inp.lines| :: Gives(inp, i, Differ(d)))
  {
    hide Gives, Verdicts, Index, Missing, Deferrals, Consumed;
    var vs := Verdicts(inp.lines, |inp.lines|, Index(inp.records, inp.provider));
    VerdictPlaces(vs);
    SkipsCounted(inp.lines, |inp.lines|, Index(inp.records, inp.provider));
    VerdictGiven(inp, Match(p));
    VerdictGiven(inp, Differ(d));
    MissingAreRecords(inp, |inp.records|, Consumed(inp.lines, |inp.lines|, Index(inp.records, inp.provider)), d);
  }

  lemma {:induction false} MissingAreRecords(inp: Input, n: nat, consumed: set<MatchKey>, d: Discrepancy)
    requires n <= |inp.records|
    ensures d in Missing(inp, n, consumed) ==> d.OfRecord?
  {
    hide Unseen, InGrace;
    if n == 0 {
    } else {
      MissingAreRecords(inp, n - 1, consumed, d);
    }
  }

  // ---- records ----

  /** Some line settles the record, and the line is known. */
  predicate Settled(r: Record, inp: Input) {
    exists l :: l in inp.lines && Settles(l, r) && Known(l, inp)
  }

  /** Record i is the first one of its reference and kind whose money moved, and no line settles it. */
  predicate LeftOver(inp: Input, i: nat)
    requires i < |inp.records|
  {
    && MoneyMoved(inp.records[i]) && !Settled(inp.records[i], inp)
    && forall j | 0 <= j < i && MoneyMoved(inp.records[j]) ::
         inp.records[j].reference != inp.records[i].reference || inp.records[j].kind != inp.records[i].kind
  }

  /** Its time to appear in a settlement file is over. */
  predicate Overdue(r: Record, inp: Input) {
    inp.grace <= 0 || r.occurredAt + inp.grace <= if inp.given.Some? then inp.given.value else inp.clock
  }

  lemma {:induction false} LineKeysMean(lines: seq<Line>, n: nat, k: MatchKey)
    requires n <= |lines|
    ensures k in LineKeys(lines, n) <==> exists i | 0 <= i < n :: TakesPart(lines[i]) && LineKey(lines[i]) == k
  {
    if n == 0 {
    } else {
      LineKeysMean(lines, n - 1, k);
    }
  }

  lemma ConsumedExactly(inp: Input, r: Record)
    requires MoneyMoved(r)
    ensures RecordKey(r) in Consumed(inp.lines, |inp.lines|, Index(inp.records, inp.provider)) <==> Settled(r, inp)
  {
    hide Index, Known;
    LineKeysMean(inp.lines, |inp.lines|, RecordKey(r));
    forall l: Line | TakesPart(l) && LineKey(l) == RecordKey(r)
      ensures LineKey(l) in Index(inp.records, inp.provider) <==> Known(l, inp)
    {
      IndexExactly(l, inp);
    }
    assert forall l: Line :: Settles(l, r) <==> TakesPart(l) && LineKey(l) == RecordKey(r);
    assert forall i | 0 <= i < |inp.lines| :: inp.lines[i] in inp.lines;
  }

  lemma UnseenExactly(inp: Input, i: nat)
    requires i < |inp.records|
    ensures Unseen(inp.records, i, Consumed(inp.lines, |inp.lines|, Index(inp.records, inp.provider)))
            <==> LeftOver(inp, i)
    ensures InGrace(inp.records[i], inp) <==> !Overdue(inp.records[i], inp)
  {
    hide Index, Settled, Consumed, LineKeys, OpenKeys;
    var recs, r := inp.records, inp.records[i];
    if MoneyMoved(r) {
      ConsumedExactly(inp, r);
      OpenKeysMean(recs, i, Consumed(inp.lines, |inp.lines|, Index(recs, inp.provider)));
      assert forall q: Record | MoneyMoved(q) :: RecordKey(q) == RecordKey(r) <==>
               q.reference == r.reference && q.kind == r.kind;
      assert forall q: Record :: Settleable(q) <==> MoneyMoved(q);
    }
  }

  /** The records reported, and those deferred, among the first n. */
  function ReportedBelow(inp: Input, n: nat): set<nat>
    requires n <= |inp.records|
  {
    set i: nat | i < n && LeftOver(inp, i) && Overdue(inp.records[i], inp)
  }

  function DeferredBelow(inp: Input, n: nat): set<nat>
    requires n <= |inp.records|
  {
    set i: nat | i < n && LeftOver(inp, i) && !Overdue(inp.records[i], inp)
  }

  lemma OneMoreRecord(inp: Input, i: nat)
    requires i < |inp.records|
    ensures ReportedBelow(inp, i + 1) == ReportedBelow(inp, i)
              + if LeftOver(inp, i) && Overdue(inp.records[i], inp) then {i} else {}
    ensures DeferredBelow(inp, i + 1) == DeferredBelow(inp, i)
              + if LeftOver(inp, i) && !Overdue(inp.records[i], inp) then {i} else {}
  {
    hide LeftOver, Overdue;
  }

  lemma NoRecords(inp: Input, consumed: set<MatchKey>)
    ensures ReportedBelow(inp, 0) == {} == DeferredBelow(inp, 0)
    ensures Missing(inp, 0, consumed) == [] && Deferrals(inp, 0, consumed) == 0
  {
  }

  lemma OneMoreMissing(inp: Input, i: nat, consumed: set<MatchKey>)
    requires i < |inp.records|
    ensures Missing(inp, i + 1, consumed) == Missing(inp, i, consumed)
              + if Unseen(inp.records, i, consumed) && !InGrace(inp.records[i], inp)
                then [OfRecord(MissingInPsp, inp.records[i])] else []
    ensures Deferrals(inp, i + 1, consumed) == Deferrals(inp, i, consumed)
              + if Unseen(inp.records, i, consumed) && InGrace(inp.records[i], inp) then 1 else 0
  {
    hide Unseen, InGrace;
  }

  predicate ListsExactly(missing: seq<Discrepancy>, inp: Input, places: set<nat>) {
    && |missing| == |places|
    && (forall i | i in places :: i < |inp.records| && OfRecord(MissingInPsp, inp.records[i]) in missing)
    && (forall d | d in missing ::
          exists i :: i in places && i < |inp.records| && d == OfRecord(MissingInPsp, inp.records[i]))
  }

  lemma ListsOneMore(missing: seq<Discrepancy>, inp: Input, places: set<nat>, i: nat)
    requires ListsExactly(missing, inp, places) && i !in places && i < |inp.records|
    ensures ListsExactly(missing + [OfRecord(MissingInPsp, inp.records[i])], inp, places + {i})
  {
    var more, all := missing + [OfRecord(MissingInPsp, inp.records[i])], places + {i};
    forall d | d in more
      ensures exists k :: k in all && k < |inp.records| && d == OfRecord(MissingInPsp, inp.records[k])
    {
      if d in missing {
        var k :| k in places && k < |inp.records| && d == OfRecord(MissingInPsp, inp.records[k]);
        assert k in all;
      } else {
        assert i in all;
      }
    }
  }

  lemma {:induction false} RecordsBelow(inp: Input, n: nat)
    requires n <= |inp.records|
    ensures var consumed := Consumed(inp.lines, |inp.lines|, Index(inp.records, inp.provider));
            && ListsExactly(Missing(inp, n, consumed), inp, ReportedBelow(inp, n))
            && Deferrals(inp, n, consumed) == |DeferredBelow(inp, n)|
  {
    hide Index, Consumed, Unseen, InGrace, LeftOver, Overdue, Missing, Deferrals, ListsExactly;
    var consumed := Consumed(inp.lines, |inp.lines|, Index(inp.records, inp.provider));
    if n == 0 {
      NoRecords(inp, consumed);
      assert ListsExactly([], inp, {}) by { ListsNothing(inp); }
    } else {
      var i: nat := n - 1;
      RecordsBelow(inp, i);
      UnseenExactly(inp, i);
      OneMoreRecord(inp, i);
      OneMoreMissing(inp, i, consumed);
      assert i !in ReportedBelow(inp, i) && i !in DeferredBelow(inp, i);
      if LeftOver(inp, i) && Overdue(inp.records[i], inp) {
        ListsOneMore(Missing(inp, i, consumed), inp, ReportedBelow(inp, i), i);
      } else {
        assert Missing(inp, n, consumed) == Missing(inp, i, consumed);
        assert ReportedBelow(inp, n) == ReportedBelow(inp, i);
      }
    }
  }

  lemma ListsNothing(inp: Input)
    ensures ListsExactly([], inp, {})
  {
  }

  /** A record is reported missing exactly when it is left over and overdue, once each; the left-over records that
      are not overdue are counted as deferred; nothing else is said about records. */
  lemma RecordsFoundExactly(inp: Input, d: Discrepancy)
    ensures d.OfRecord? ==>
              (d in Found(inp).discrepancies <==>
                 exists i | 0 <= i < |inp.records| ::
                   LeftOver(inp, i) && Overdue(inp.records[i], inp) && d == OfRecord(MissingInPsp, inp.records[i]))
    ensures var left := set i: nat | i < |inp.records| && LeftOver(inp, i);
            && Found(inp).deferred == |set i | i in left && !Overdue(inp.records[i], inp)|
            && |Found(inp).matched| + Found(inp).skipped + |Found(inp).discrepancies|
               == |inp.lines| + |set i | i in left && Overdue(inp.records[i], inp)|
  {
    hide Index, Consumed, Missing, Deferrals, LeftOver, Overdue, Verdicts;
    var n := |inp.records|;
    var vs := Verdicts(inp.lines, |inp.lines|, Index(inp.records, inp.provider));
    RecordsBelow(inp, n);
    VerdictsCounted(vs);
    LineDifferences(inp, |inp.lines|, d);
    var left := set i: nat | i < |inp.records| && LeftOver(inp, i);
    assert ReportedBelow(inp, n) == set i | i in left && Overdue(inp.records[i], inp);
    assert DeferredBelow(inp, n) == set i | i in left && !Overdue(inp.records[i], inp);
  }

  lemma {:induction false} LineDifferences(inp: Input, n: nat, d: Discrepancy)
    requires n <= |inp.lines|
    ensures d in Differences(Verdicts(inp.lines, n, Index(inp.records, inp.provider))) ==> d.OfLine?
  {
    hide Index, Consumed;
    if n == 0 {
    } else {
      LineDifferences(inp, n - 1, d);
      NextVerdict(inp.lines, n - 1, Index(inp.records, inp.provider));
    }
  }
}

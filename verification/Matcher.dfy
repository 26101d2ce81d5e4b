/** Reconciliation: settlement lines against internal records, and the summary of a run. */
module Matcher {
  import opened Wrappers
  import opened Amounts

  datatype LineType = PaymentLine | RefundLine | ChargebackLine | FeeLine | AdjustmentLine | OtherLine(text: string)

  predicate Matchable(t: LineType) {
    t.PaymentLine? || t.RefundLine? || t.ChargebackLine?
  }

  datatype RecordKind = PaymentRecord | RefundRecord | DisputeRecord | OtherRecord(text: string)

  function LineTypeOf(k: RecordKind): LineType {
    match k
    case PaymentRecord => PaymentLine
    case RefundRecord => RefundLine
    case DisputeRecord => ChargebackLine
    case OtherRecord(_) => OtherLine("")
  }

  datatype RecordStatus =
    | Captured | PartiallyRefunded | Refunded | Disputed | ChargebackWon | ChargebackLost
    | RefundSucceeded | DisputeLost | OtherStatus(text: string)

  datatype MatchKey = MatchKey(reference: string, typ: LineType)

  datatype Line = Line(no: nat, reference: string, typ: LineType, amount: Money, fee: Money)

  datatype Record = Record(kind: RecordKind, publicId: string, provider: string, reference: string, amount: Money,
                           fee: Option<Money>, status: RecordStatus, occurredAt: int, sourceSeq: int)

  function LineKey(l: Line): MatchKey {
    MatchKey(l.reference, l.typ)
  }

  function RecordKey(r: Record): MatchKey {
    MatchKey(r.reference, LineTypeOf(r.kind))
  }

  /** Expected to appear in a settlement file. */
  predicate Settleable(r: Record) {
    match r.kind
    case PaymentRecord =>
      r.status.Captured? || r.status.PartiallyRefunded? || r.status.Refunded? || r.status.Disputed?
      || r.status.ChargebackWon? || r.status.ChargebackLost?
    case RefundRecord => r.status.RefundSucceeded?
    case DisputeRecord => r.status.DisputeLost?
    case OtherRecord(_) => false
  }

  datatype DiscrepancyKind = MissingInLedger | MissingInPsp | AmountMismatch | StatusMismatch | FeeMismatch

  datatype Reason = NoReason | DuplicateInSettlement | CurrencyDiffers

  datatype Discrepancy =
    | OfLine(kind: DiscrepancyKind, line: Line, against: Option<Record>, reason: Reason)
    | OfRecord(kind: DiscrepancyKind, record: Record)

  datatype Pair = Pair(line: Line, record: Record)

  /** A run's input; without a time of its own it takes the clock's. */
  datatype Input = Input(provider: string, lines: seq<Line>, records: seq<Record>, given: Option<int>, clock: int,
                         grace: int) {

    function Now(): int {
      if given.Some? then given.value else clock
    }
  }

  datatype Bucket = Settled | Fees | Refunds | Chargebacks

  /** The per-currency totals, one map for the four kinds. */
  type Totals = map<(Bucket, Currency), int64>

  datatype MatchResult = MatchResult(totalLines: nat, matched: seq<Pair>, discrepancies: seq<Discrepancy>,
                                     skipped: nat, deferred: nat, totals: Totals)

  // ---- what a run should find, line by line and record by record ----

  predicate Eligible(r: Record, provider: string) {
    r.reference != "" && !(r.provider != "" && provider != "" && r.provider != provider)
  }

  /** Each key with its eligible record of greatest sequence, the later one on a tie. */
  function Index(recs: seq<Record>, provider: string): map<MatchKey, Record> {
    if recs == [] then map[]
    else Indexed(Index(recs[..|recs| - 1], provider), recs[|recs| - 1], provider)
  }

  function Indexed(m: map<MatchKey, Record>, r: Record, provider: string): map<MatchKey, Record> {
    if !Eligible(r, provider) || (RecordKey(r) in m && r.sourceSeq < m[RecordKey(r)].sourceSeq) then m
    else m[RecordKey(r) := r]
  }

  lemma {:induction false} IndexIsLatest(recs: seq<Record>, provider: string)
    ensures forall k | k in Index(recs, provider) ::
              && Index(recs, provider)[k] in recs && Eligible(Index(recs, provider)[k], provider)
              && RecordKey(Index(recs, provider)[k]) == k
    ensures forall r | r in recs && Eligible(r, provider) ::
              RecordKey(r) in Index(recs, provider) && r.sourceSeq <= Index(recs, provider)[RecordKey(r)].sourceSeq
  {
    if recs == [] {
    } else {
      var init, last := recs[..|recs| - 1], recs[|recs| - 1];
      IndexIsLatest(init, provider);
      assert recs == init + [last];
    }
  }

  function Compare(l: Line, r: Record): Option<Discrepancy> {
    if !Settleable(r) then Some(OfLine(StatusMismatch, l, Some(r), NoReason))
    else if l.amount.currency != r.amount.currency then Some(OfLine(AmountMismatch, l, Some(r), CurrencyDiffers))
    else if l.amount.amount != r.amount.amount then Some(OfLine(AmountMismatch, l, Some(r), NoReason))
    else if r.fee.Some? && r.fee.value.currency == l.fee.currency && r.fee.value.amount != l.fee.amount then
      Some(OfLine(FeeMismatch, l, Some(r), NoReason))
    else None
  }

  datatype Verdict = Skip | Match(pair: Pair) | Differ(d: Discrepancy)

  function LineKeys(lines: seq<Line>, n: nat): set<MatchKey>
    requires n <= |lines|
  {
    if n == 0 then {}
    else LineKeys(lines, n - 1) + if Matchable(lines[n - 1].typ) then {LineKey(lines[n - 1])} else {}
  }

  /** The verdict on line i, from the keys before it and the index alone. */
  function VerdictOn(lines: seq<Line>, i: nat, index: map<MatchKey, Record>): Verdict
    requires i < |lines|
  {
    var l := lines[i];
    if !Matchable(l.typ) then Skip
    else if LineKey(l) !in index then Differ(OfLine(MissingInLedger, l, None, NoReason))
    else if LineKey(l) in LineKeys(lines, i) then Differ(OfLine(MissingInLedger, l, None, DuplicateInSettlement))
    else match Compare(l, index[LineKey(l)])
      case Some(d) => Differ(d)
      case None => Match(Pair(l, index[LineKey(l)]))
  }

  function Verdicts(lines: seq<Line>, n: nat, index: map<MatchKey, Record>): (vs: seq<Verdict>)
    requires n <= |lines|
    ensures |vs| == n
  {
    if n == 0 then [] else Verdicts(lines, n - 1, index) + [VerdictOn(lines, n - 1, index)]
  }

  function Pairs(vs: seq<Verdict>): seq<Pair> {
    if vs == [] then []
    else Pairs(vs[..|vs| - 1]) + match vs[|vs| - 1] case Match(p) => [p] case _ => []
  }

  function Differences(vs: seq<Verdict>): seq<Discrepancy> {
    if vs == [] then []
    else Differences(vs[..|vs| - 1]) + match vs[|vs| - 1] case Differ(d) => [d] case _ => []
  }

  function Skips(vs: seq<Verdict>): nat {
    if vs == [] then 0 else Skips(vs[..|vs| - 1]) + if vs[|vs| - 1].Skip? then 1 else 0
  }

  /** Keys that some line among the first n found in the index. */
  function Consumed(lines: seq<Line>, n: nat, index: map<MatchKey, Record>): set<MatchKey>
    requires n <= |lines|
  {
    LineKeys(lines, n) * index.Keys
  }

  /** Record i is the first settleable one of a key that no line consumed. */
  predicate Unseen(recs: seq<Record>, i: nat, consumed: set<MatchKey>)
    requires i < |recs|
  {
    Settleable(recs[i]) && RecordKey(recs[i]) !in consumed && RecordKey(recs[i]) !in OpenKeys(recs, i, consumed)
  }

  /** Keys of settleable records, among the first n, that no line consumed. */
  function OpenKeys(recs: seq<Record>, n: nat, consumed: set<MatchKey>): set<MatchKey>
    requires n <= |recs|
  {
    if n == 0 then {}
    else OpenKeys(recs, n - 1, consumed)
         + if Settleable(recs[n - 1]) && RecordKey(recs[n - 1]) !in consumed then {RecordKey(recs[n - 1])} else {}
  }

  lemma {:induction false} OpenKeysMean(recs: seq<Record>, n: nat, consumed: set<MatchKey>)
    requires n <= |recs|
    ensures forall k :: k in OpenKeys(recs, n, consumed) <==>
              k !in consumed && exists j | 0 <= j < n :: Settleable(recs[j]) && RecordKey(recs[j]) == k
  {
    if n == 0 {
    } else {
      OpenKeysMean(recs, n - 1, consumed);
    }
  }

  predicate InGrace(r: Record, inp: Input) {
    inp.grace > 0 && r.occurredAt + inp.grace > inp.Now()
  }

  function Missing(inp: Input, n: nat, consumed: set<MatchKey>): seq<Discrepancy>
    requires n <= |inp.records|
  {
    if n == 0 then []
    else Missing(inp, n - 1, consumed)
         + if Unseen(inp.records, n - 1, consumed) && !InGrace(inp.records[n - 1], inp)
           then [OfRecord(MissingInPsp, inp.records[n - 1])] else []
  }

  function Deferrals(inp: Input, n: nat, consumed: set<MatchKey>): nat
    requires n <= |inp.records|
  {
    if n == 0 then 0
    else Deferrals(inp, n - 1, consumed)
         + if Unseen(inp.records, n - 1, consumed) && InGrace(inp.records[n - 1], inp) then 1 else 0
  }

  /** What a line adds to a total: its amount by type, and its own fee to the fees. */
  function Share(l: Line, b: Bucket, c: Currency): int {
    AmountShare(l, b, c) + if b.Fees? && l.amount.currency == c then l.fee.amount else 0
  }

  function AmountShare(l: Line, b: Bucket, c: Currency): int {
    if l.amount.currency == c && InBucket(l.typ, b) then l.amount.amount else 0
  }

  predicate InBucket(t: LineType, b: Bucket) {
    match b
    case Settled => t.PaymentLine?
    case Refunds => t.RefundLine?
    case Chargebacks => t.ChargebackLine?
    case Fees => t.FeeLine?
  }

  function SumOf(lines: seq<Line>, n: nat, b: Bucket, c: Currency): int
    requires n <= |lines|
  {
    if n == 0 then 0 else SumOf(lines, n - 1, b, c) + Share(lines[n - 1], b, c)
  }

  function TotalIn(t: Totals, b: Bucket, c: Currency): int64 {
    if (b, c) in t then t[(b, c)] else 0
  }

  function Bump(t: Totals, b: Bucket, c: Currency, x: int): Totals {
    t[(b, c) := Wrap(TotalIn(t, b, c) + x)]
  }

  function BucketOf(t: LineType): Option<Bucket> {
    match t
    case PaymentLine => Some(Settled)
    case RefundLine => Some(Refunds)
    case ChargebackLine => Some(Chargebacks)
    case FeeLine => Some(Fees)
    case _ => None
  }

  /** One line added to the totals, each addition an int64 addition. */
  function Accumulated(t: Totals, l: Line): Totals {
    var c := l.amount.currency;
    var u := if BucketOf(l.typ).Some? then Bump(t, BucketOf(l.typ).value, c, l.amount.amount) else t;
    if l.fee.amount != 0 then Bump(u, Fees, c, l.fee.amount) else u
  }

  function TotalsOf(lines: seq<Line>, n: nat): Totals
    requires n <= |lines|
  {
    if n == 0 then map[] else Accumulated(TotalsOf(lines, n - 1), lines[n - 1])
  }

  lemma BumpedTotal(t: Totals, at: Bucket, cur: Currency, x: int, b: Bucket, c: Currency)
    ensures TotalIn(Bump(t, at, cur, x), b, c)
            == if (at, cur) == (b, c) then Wrap(TotalIn(t, b, c) + x) else TotalIn(t, b, c)
  {
  }

  lemma AccumulatedTotal(t: Totals, l: Line, b: Bucket, c: Currency)
    ensures TotalIn(Accumulated(t, l), b, c) == Wrap(TotalIn(t, b, c) + Share(l, b, c))
  {
    hide Wrap, BucketOf, Bump, TotalIn, InBucket;
    var cur, at := l.amount.currency, BucketOf(l.typ);
    var u := if at.Some? then Bump(t, at.value, cur, l.amount.amount) else t;
    AmountTotal(t, l, b, c);
    BumpedTotal(u, Fees, cur, l.fee.amount, b, c);
    WrapAdd(TotalIn(t, b, c) + AmountShare(l, b, c), l.fee.amount);
  }

  lemma AmountTotal(t: Totals, l: Line, b: Bucket, c: Currency)
    ensures var at := BucketOf(l.typ);
            var u := if at.Some? then Bump(t, at.value, l.amount.currency, l.amount.amount) else t;
            TotalIn(u, b, c) == Wrap(TotalIn(t, b, c) + AmountShare(l, b, c))
  {
    var at := BucketOf(l.typ);
    if at.Some? { BumpedTotal(t, at.value, l.amount.currency, l.amount.amount, b, c); }
  }

  /** The totals per currency are the sums over the lines, reduced to int64. */
  lemma {:induction false} TotalsAreSums(lines: seq<Line>, n: nat, b: Bucket, c: Currency)
    requires n <= |lines|
    ensures TotalIn(TotalsOf(lines, n), b, c) == Wrap(SumOf(lines, n, b, c))
  {
    hide Wrap, Accumulated, Share;
    if n == 0 {
    } else {
      TotalsAreSums(lines, n - 1, b, c);
      AccumulatedTotal(TotalsOf(lines, n - 1), lines[n - 1], b, c);
      WrapAdd(SumOf(lines, n - 1, b, c), Share(lines[n - 1], b, c));
    }
  }

  // ---- the three loops ----

  method Accumulate(t: Totals, l: Line) returns (u: Totals)
    ensures u == Accumulated(t, l)
  {
    var c := l.amount.currency;
    u := t;
    match l.typ {
      case PaymentLine => u := Bump(u, Settled, c, l.amount.amount);
      case RefundLine => u := Bump(u, Refunds, c, l.amount.amount);
      case ChargebackLine => u := Bump(u, Chargebacks, c, l.amount.amount);
      case FeeLine => u := Bump(u, Fees, c, l.amount.amount);
      case AdjustmentLine =>
      case OtherLine(_) =>
    }
    if l.fee.amount != 0 {
      u := Bump(u, Fees, c, l.fee.amount);
    }
  }

  /** What a run finds. */
  function Found(inp: Input): MatchResult {
    var index := Index(inp.records, inp.provider);
    var vs := Verdicts(inp.lines, |inp.lines|, index);
    var consumed := Consumed(inp.lines, |inp.lines|, index);
    MatchResult(|inp.lines|, Pairs(vs), Differences(vs) + Missing(inp, |inp.records|, consumed),
                Skips(vs), Deferrals(inp, |inp.records|, consumed), TotalsOf(inp.lines, |inp.lines|))
  }

  method RunMatch(inp: Input) returns (res: MatchResult)
    ensures res == Found(inp)
  {
    var records := IndexRecords(inp);
    var consumed;
    res, consumed := MatchLines(inp.lines, records);
    var missing, deferred := FindMissing(inp, consumed);
    res := res.(discrepancies := res.discrepancies + missing, deferred := deferred);
  }

  /** The first loop: the latest eligible record of each key. */
  method IndexRecords(inp: Input) returns (records: map<MatchKey, Record>)
    ensures records == Index(inp.records, inp.provider)
  {
    records := map[];
    for i := 0 to |inp.records|
      invariant records == Index(inp.records[..i], inp.provider)
    {
      var r := inp.records[i];
      assert inp.records[..i + 1][..i] == inp.records[..i];
      if r.reference == "" || (r.provider != "" && inp.provider != "" && r.provider != inp.provider) { continue; }
      if RecordKey(r) !in records || r.sourceSeq >= records[RecordKey(r)].sourceSeq {
        records := records[RecordKey(r) := r];
      }
    }
    assert inp.records[..|inp.records|] == inp.records;
  }

  /** What the second loop has gathered after n lines. */
  function Progress(lines: seq<Line>, n: nat, index: map<MatchKey, Record>): MatchResult
    requires n <= |lines|
  {
    var vs := Verdicts(lines, n, index);
    MatchResult(|lines|, Pairs(vs), Differences(vs), Skips(vs), 0, TotalsOf(lines, n))
  }

  lemma NoLines(lines: seq<Line>, index: map<MatchKey, Record>)
    ensures Progress(lines, 0, index) == MatchResult(|lines|, [], [], 0, 0, map[])
    ensures Consumed(lines, 0, index) == {}
  {
  }

  /** A matchable line's key is already consumed exactly when an earlier line had it and it is known. */
  lemma ConsumedMeans(lines: seq<Line>, i: nat, index: map<MatchKey, Record>)
    requires i < |lines|
    ensures LineKey(lines[i]) in Consumed(lines, i, index) <==>
              LineKey(lines[i]) in LineKeys(lines, i) && LineKey(lines[i]) in index
  {
  }

  /** One more line adds its verdict to what was gathered and, if it is known, its key to the
      consumed ones. */
  lemma NextVerdict(lines: seq<Line>, i: nat, index: map<MatchKey, Record>)
    requires i < |lines|
    ensures var vs, ws, v := Verdicts(lines, i, index), Verdicts(lines, i + 1, index), VerdictOn(lines, i, index);
            && Pairs(ws) == Pairs(vs) + (if v.Match? then [v.pair] else [])
            && Differences(ws) == Differences(vs) + (if v.Differ? then [v.d] else [])
            && Skips(ws) == Skips(vs) + (if v.Skip? then 1 else 0)
    ensures Consumed(lines, i + 1, index) == Consumed(lines, i, index)
              + if Matchable(lines[i].typ) && LineKey(lines[i]) in index then {LineKey(lines[i])} else {}
  {
    assert Verdicts(lines, i + 1, index)[..i] == Verdicts(lines, i, index);
  }

  /** The second loop: every line against the index, each key consumed once. */
  method MatchLines(lines: seq<Line>, records: map<MatchKey, Record>)
    returns (res: MatchResult, consumed: set<MatchKey>)
    ensures consumed == Consumed(lines, |lines|, records)
    ensures res == Progress(lines, |lines|, records)
  {
    hide Compare, LineKeys, Pairs, Differences, Skips, Verdicts, Accumulated, Consumed;
    res := MatchResult(|lines|, [], [], 0, 0, map[]);
    consumed := {};
    NoLines(lines, records);
    for i := 0 to |lines|
      invariant consumed == Consumed(lines, i, records)
      invariant res == Progress(lines, i, records)
    {
      var line := lines[i];
      var totals := Accumulate(res.totals, line);
      res := res.(totals := totals);
      NextVerdict(lines, i, records);
      ConsumedMeans(lines, i, records);
      var key := LineKey(line);
      if !Matchable(line.typ) {
        res := res.(skipped := res.skipped + 1);
      } else if key in consumed {
        res := res.(discrepancies := res.discrepancies + [OfLine(MissingInLedger, line, None, DuplicateInSettlement)]);
      } else if key !in records {
        res := res.(discrepancies := res.discrepancies + [OfLine(MissingInLedger, line, None, NoReason)]);
      } else {
        consumed := consumed + {key};
        var d := Compare(line, records[key]);
        if d.Some? {
          res := res.(discrepancies := res.discrepancies + [d.value]);
        } else {
          res := res.(matched := res.matched + [Pair(line, records[key])]);
        }
      }
    }
  }

  /** The last loop of a run: records that no line consumed. */
  method FindMissing(inp: Input, consumed: set<MatchKey>) returns (missing: seq<Discrepancy>, deferred: nat)
    ensures missing == Missing(inp, |inp.records|, consumed)
    ensures deferred == Deferrals(inp, |inp.records|, consumed)
  {
    missing, deferred := [], 0;
    var seen: set<MatchKey> := {};
    for i := 0 to |inp.records|
      invariant seen == OpenKeys(inp.records, i, consumed)
      invariant missing == Missing(inp, i, consumed) && deferred == Deferrals(inp, i, consumed)
    {
      var r := inp.records[i];
      if !Settleable(r) { continue; }
      var k := RecordKey(r);
      if k in consumed || k in seen { continue; }
      seen := seen + {k};
      if inp.grace > 0 && r.occurredAt + inp.grace > inp.Now() {
        deferred := deferred + 1;
        continue;
      }
      missing := missing + [OfRecord(MissingInPsp, r)];
    }
  }

  // ---- what the result means ----

  /** Everything is accounted for once: each line is a pair, a skip or one discrepancy, and each
      settleable key that no line consumed is deferred or is one discrepancy. */
  lemma EverythingCountedOnce(inp: Input)
    ensures var index := Index(inp.records, inp.provider);
            var vs := Verdicts(inp.lines, |inp.lines|, index);
            var consumed := Consumed(inp.lines, |inp.lines|, index);
            |Pairs(vs)| + Skips(vs) + Deferrals(inp, |inp.records|, consumed)
              + |Differences(vs) + Missing(inp, |inp.records|, consumed)|
            == |inp.lines| + |OpenKeys(inp.records, |inp.records|, consumed)|
  {
    var index := Index(inp.records, inp.provider);
    VerdictsCounted(Verdicts(inp.lines, |inp.lines|, index));
    RecordsCounted(inp, |inp.records|, Consumed(inp.lines, |inp.lines|, index));
  }

  lemma {:induction false} VerdictsCounted(vs: seq<Verdict>)
    ensures |Pairs(vs)| + |Differences(vs)| + Skips(vs) == |vs|
  {
    if vs == [] {
    } else {
      VerdictsCounted(vs[..|vs| - 1]);
    }
  }

  lemma OneMoreOpenKey(recs: seq<Record>, n: nat, consumed: set<MatchKey>)
    requires n < |recs|
    ensures |OpenKeys(recs, n + 1, consumed)|
            == |OpenKeys(recs, n, consumed)| + if Unseen(recs, n, consumed) then 1 else 0
  {
    hide Settleable, RecordKey;
    var keys, k := OpenKeys(recs, n, consumed), RecordKey(recs[n]);
    if k in keys { assert keys + {k} == keys; }
    assert keys + {} == keys;
  }

  lemma {:induction false} RecordsCounted(inp: Input, n: nat, consumed: set<MatchKey>)
    requires n <= |inp.records|
    ensures |Missing(inp, n, consumed)| + Deferrals(inp, n, consumed) == |OpenKeys(inp.records, n, consumed)|
  {
    hide OpenKeys, Unseen, InGrace;
    if n == 0 {
      assert |OpenKeys(inp.records, 0, consumed)| == 0 by { NoOpenKeys(inp.records, consumed); }
    } else {
      RecordsCounted(inp, n - 1, consumed);
      OneMoreOpenKey(inp.records, n - 1, consumed);
    }
  }

  lemma NoOpenKeys(recs: seq<Record>, consumed: set<MatchKey>)
    ensures OpenKeys(recs, 0, consumed) == {}
  {
  }

  function LinesOfPairs(ps: seq<Pair>): multiset<Line> {
    if ps == [] then multiset{} else LinesOfPairs(ps[..|ps| - 1]) + multiset{ps[|ps| - 1].line}
  }

  function LinesOfDifferences(ds: seq<Discrepancy>): multiset<Line> {
    if ds == [] then multiset{} else LinesOfDifferences(ds[..|ds| - 1]) + LineOf(ds[|ds| - 1])
  }

  function LineOf(d: Discrepancy): multiset<Line> {
    if d.OfLine? then multiset{d.line} else multiset{}
  }

  function MatchableLines(lines: seq<Line>, n: nat): multiset<Line>
    requires n <= |lines|
  {
    if n == 0 then multiset{}
    else MatchableLines(lines, n - 1) + if Matchable(lines[n - 1].typ) then multiset{lines[n - 1]} else multiset{}
  }

  /** The matchable lines are exactly the lines of the pairs and the lines of the discrepancies. */
  lemma LinesPartitioned(lines: seq<Line>, n: nat, index: map<MatchKey, Record>)
    requires n <= |lines|
    ensures var vs := Verdicts(lines, n, index);
            LinesOfPairs(Pairs(vs)) + LinesOfDifferences(Differences(vs)) == MatchableLines(lines, n)
  {
    var vs := Verdicts(lines, n, index);
    VerdictLines(vs);
    VerdictsKeepLines(lines, n, index);
    LinesOfVerdicts(lines, n, vs);
  }

  function LineOfVerdict(v: Verdict): multiset<Line> {
    match v
    case Skip => multiset{}
    case Match(p) => multiset{p.line}
    case Differ(d) => LineOf(d)
  }

  function AllLines(vs: seq<Verdict>): multiset<Line> {
    if vs == [] then multiset{} else AllLines(vs[..|vs| - 1]) + LineOfVerdict(vs[|vs| - 1])
  }

  predicate KeepsLine(v: Verdict, l: Line) {
    LineOfVerdict(v) == if Matchable(l.typ) then multiset{l} else multiset{}
  }

  lemma VerdictKeepsLine(lines: seq<Line>, i: nat, index: map<MatchKey, Record>)
    requires i < |lines|
    ensures KeepsLine(VerdictOn(lines, i, index), lines[i])
  {
  }

  lemma {:induction false} VerdictAt(lines: seq<Line>, n: nat, i: nat, index: map<MatchKey, Record>)
    requires i < n <= |lines|
    ensures Verdicts(lines, n, index)[i] == VerdictOn(lines, i, index)
  {
    if i < n - 1 { VerdictAt(lines, n - 1, i, index); }
  }

  lemma VerdictsKeepLines(lines: seq<Line>, n: nat, index: map<MatchKey, Record>)
    requires n <= |lines|
    ensures forall i | 0 <= i < n :: KeepsLine(Verdicts(lines, n, index)[i], lines[i])
  {
    forall i | 0 <= i < n ensures KeepsLine(Verdicts(lines, n, index)[i], lines[i]) {
      VerdictAt(lines, n, i, index);
      VerdictKeepsLine(lines, i, index);
    }
  }

  lemma {:induction false} LinesOfVerdicts(lines: seq<Line>, n: nat, vs: seq<Verdict>)
    requires n == |vs| <= |lines| && forall i | 0 <= i < n :: KeepsLine(vs[i], lines[i])
    ensures AllLines(vs) == MatchableLines(lines, n)
  {
    if n == 0 {
    } else {
      LinesOfVerdicts(lines, n - 1, vs[..n - 1]);
      assert KeepsLine(vs[n - 1], lines[n - 1]);
    }
  }

  lemma OneMoreVerdict(vs: seq<Verdict>)
    requires vs != []
    ensures var init, v := vs[..|vs| - 1], vs[|vs| - 1];
            && LinesOfPairs(Pairs(vs))
               == LinesOfPairs(Pairs(init)) + (if v.Match? then multiset{v.pair.line} else multiset{})
            && LinesOfDifferences(Differences(vs))
               == LinesOfDifferences(Differences(init)) + (if v.Differ? then LineOf(v.d) else multiset{})
  {
    var init, v := vs[..|vs| - 1], vs[|vs| - 1];
    match v {
      case Skip => assert Pairs(vs) == Pairs(init) && Differences(vs) == Differences(init);
      case Match(_) => assert Pairs(vs)[..|Pairs(init)|] == Pairs(init) && Differences(vs) == Differences(init);
      case Differ(_) => assert Differences(vs)[..|Differences(init)|] == Differences(init) && Pairs(vs) == Pairs(init);
    }
  }

  lemma {:induction false} VerdictLines(vs: seq<Verdict>)
    ensures LinesOfPairs(Pairs(vs)) + LinesOfDifferences(Differences(vs)) == AllLines(vs)
  {
    if vs == [] {
      assert Pairs(vs) == [] && Differences(vs) == [];
    } else {
      VerdictLines(vs[..|vs| - 1]);
      OneMoreVerdict(vs);
    }
  }

  predicate Agree(p: Pair) {
    && Settleable(p.record) && p.line.amount == p.record.amount
    && (p.record.fee.Some? && p.record.fee.value.currency == p.line.fee.currency ==> p.record.fee.value == p.line.fee)
  }

  /** p joins a line to the latest eligible record of its key. */
  predicate Latest(p: Pair, inp: Input) {
    && p.record in inp.records && Eligible(p.record, inp.provider)
    && Matchable(p.line.typ) && LineKey(p.line) == RecordKey(p.record)
    && forall r | r in inp.records && Eligible(r, inp.provider) && RecordKey(r) == RecordKey(p.record) ::
         r.sourceSeq <= p.record.sourceSeq
  }

  /** Each pair joins a line to the latest eligible record of its key, the two agree on currency,
      amount and any known fee, and no two pairs share a key. */
  lemma PairsAreRight(inp: Input)
    ensures var ps := Pairs(Verdicts(inp.lines, |inp.lines|, Index(inp.records, inp.provider)));
            DistinctKeys(ps) && forall p | p in ps :: Agree(p) && Latest(p, inp)
  {
    IndexIsLatest(inp.records, inp.provider);
    PairsFromIndex(inp.lines, |inp.lines|, Index(inp.records, inp.provider));
  }

  predicate FromIndex(p: Pair, keys: set<MatchKey>, index: map<MatchKey, Record>) {
    && Agree(p) && Matchable(p.line.typ) && LineKey(p.line) in keys
    && LineKey(p.line) in index && p.record == index[LineKey(p.line)]
  }

  predicate AllFromIndex(ps: seq<Pair>, keys: set<MatchKey>, index: map<MatchKey, Record>) {
    forall p | p in ps :: FromIndex(p, keys, index)
  }

  predicate DistinctKeys(ps: seq<Pair>) {
    forall i, j | 0 <= i < j < |ps| :: LineKey(ps[i].line) != LineKey(ps[j].line)
  }

  lemma {:induction false} PairsFromIndex(lines: seq<Line>, n: nat, index: map<MatchKey, Record>)
    requires n <= |lines|
    ensures var ps := Pairs(Verdicts(lines, n, index));
            DistinctKeys(ps) && AllFromIndex(ps, LineKeys(lines, n), index)
  {
    hide FromIndex, AllFromIndex, DistinctKeys, VerdictOn, Pairs, Verdicts, LineKeys;
    if n == 0 {
      NoPairsYet(lines, index);
    } else {
      KeysGrow(lines, n - 1);
      PairsFromIndex(lines, n - 1, index);
      NextVerdict(lines, n - 1, index);
      var ps, v := Pairs(Verdicts(lines, n - 1, index)), VerdictOn(lines, n - 1, index);
      if v.Match? {
        MatchedFromIndex(lines, n - 1, index);
        OneMorePair(ps, v.pair, LineKeys(lines, n - 1), LineKeys(lines, n), index);
      } else {
        assert Pairs(Verdicts(lines, n, index)) == ps;
        MoreKeys(ps, LineKeys(lines, n - 1), LineKeys(lines, n), index);
      }
    }
  }

  lemma MoreKeys(ps: seq<Pair>, before: set<MatchKey>, after: set<MatchKey>, index: map<MatchKey, Record>)
    requires before <= after && AllFromIndex(ps, before, index)
    ensures AllFromIndex(ps, after, index)
  {
  }

  lemma NoPairsYet(lines: seq<Line>, index: map<MatchKey, Record>)
    ensures Pairs(Verdicts(lines, 0, index)) == []
    ensures DistinctKeys([]) && AllFromIndex([], LineKeys(lines, 0), index)
  {
  }

  lemma KeysGrow(lines: seq<Line>, n: nat)
    requires n < |lines|
    ensures LineKeys(lines, n) <= LineKeys(lines, n + 1)
  {
  }

  lemma OneMorePair(ps: seq<Pair>, p: Pair, before: set<MatchKey>, after: set<MatchKey>, index: map<MatchKey, Record>)
    requires DistinctKeys(ps) && AllFromIndex(ps, before, index)
    requires before <= after && LineKey(p.line) !in before && FromIndex(p, after, index)
    ensures DistinctKeys(ps + [p]) && AllFromIndex(ps + [p], after, index)
  {
    forall i | 0 <= i < |ps| ensures LineKey(ps[i].line) in before { assert FromIndex(ps[i], before, index); }
  }

  lemma MatchedFromIndex(lines: seq<Line>, i: nat, index: map<MatchKey, Record>)
    requires i < |lines| && VerdictOn(lines, i, index).Match?
    ensures var p := VerdictOn(lines, i, index).pair;
            && LineKey(p.line) !in LineKeys(lines, i)
            && FromIndex(p, LineKeys(lines, i + 1), index)
  {
  }

  /** A line is paired exactly when it is matchable, known, not repeated, and agrees with the latest
      record of its key. */
  lemma PairedExactlyWhen(lines: seq<Line>, i: nat, index: map<MatchKey, Record>)
    requires i < |lines|
    ensures VerdictOn(lines, i, index).Match? <==>
              && Matchable(lines[i].typ) && LineKey(lines[i]) in index
              && (forall j | 0 <= j < i :: LineKey(lines[j]) != LineKey(lines[i]))
              && Agree(Pair(lines[i], index[LineKey(lines[i])]))
  {
    if Matchable(lines[i].typ) {
      SeenBefore(lines, i, LineKey(lines[i]));
    }
  }

  lemma {:induction false} SeenBefore(lines: seq<Line>, n: nat, k: MatchKey)
    requires n <= |lines| && Matchable(k.typ)
    ensures k in LineKeys(lines, n) <==> exists j | 0 <= j < n :: LineKey(lines[j]) == k
  {
    if n == 0 {
    } else {
      SeenBefore(lines, n - 1, k);
      assert LineKey(lines[n - 1]) == k ==> Matchable(lines[n - 1].typ);
    }
  }

  // ---- the run that keeps the counts ----

  datatype RunStatus = RunPending | RunRunning | RunCompleted | RunFailed

  function CountKind(ds: seq<Discrepancy>, k: DiscrepancyKind): nat {
    if ds == [] then 0 else CountKind(ds[..|ds| - 1], k) + if ds[|ds| - 1].kind == k then 1 else 0
  }

  function CountIn(m: map<DiscrepancyKind, nat>, k: DiscrepancyKind): nat {
    if k in m then m[k] else 0
  }

  predicate CountsUpTo(m: map<DiscrepancyKind, nat>, ds: seq<Discrepancy>, n: nat)
    requires n <= |ds|
  {
    forall k :: CountIn(m, k) == CountKind(ds[..n], k)
  }

  lemma NoneOfAnyKind(ds: seq<Discrepancy>)
    ensures CountsUpTo(map[], ds, 0)
  {
  }

  lemma OneMoreOfAKind(m: map<DiscrepancyKind, nat>, ds: seq<Discrepancy>, n: nat)
    requires n < |ds| && CountsUpTo(m, ds, n)
    ensures CountsUpTo(m[ds[n].kind := CountIn(m, ds[n].kind) + 1], ds, n + 1)
  {
    var t := m[ds[n].kind := CountIn(m, ds[n].kind) + 1];
    assert ds[..n + 1][..n] == ds[..n];
    forall k ensures CountIn(t, k) == CountKind(ds[..n + 1], k) {
      assert CountIn(m, k) == CountKind(ds[..n], k);
    }
  }

  lemma EveryKindCounted(m: map<DiscrepancyKind, nat>, ds: seq<Discrepancy>)
    requires CountsUpTo(m, ds, |ds|)
    ensures forall k :: CountIn(m, k) == CountKind(ds, k)
  {
    assert ds[..|ds|] == ds;
  }

  /** Whole milliseconds of a span in nanoseconds, cut toward zero. */
  function Millis(span: int): int {
    if span >= 0 then span / 1_000_000 else -((-span) / 1_000_000)
  }

  class Run {
    var status: RunStatus
    var startedAt: Option<int>
    var finishedAt: Option<int>
    var totalLines: nat
    var matchedCount: nat
    var unmatchedCount: nat
    var skipped: nat
    var deferred: nat
    var byKind: map<DiscrepancyKind, nat>
    var totals: Totals
    var durationMs: int
    var version: nat

    constructor ()
      ensures status == RunPending && startedAt == None && version == 0
    {
      status, startedAt, finishedAt, version, durationMs := RunPending, None, None, 0, 0;
      totalLines, matchedCount, unmatchedCount, skipped, deferred := 0, 0, 0, 0, 0;
      byKind, totals := map[], map[];
    }

    method Start(now: int) returns (ok: bool)
      modifies this`status, this`startedAt, this`version
      ensures ok == (old(status) == RunPending)
      ensures ok ==> status == RunRunning && startedAt == Some(now) && version == old(version) + 1
      ensures !ok ==> unchanged(this)
    {
      if status != RunPending { return false; }
      status, startedAt, version := RunRunning, Some(now), version + 1;
      return true;
    }

    /** Completing a run stores the counts of the result, kind by kind. */
    method Complete(res: MatchResult, now: int) returns (ok: bool)
      modifies this
      ensures ok == (old(status) == RunRunning || old(status) == RunPending)
      ensures !ok ==> unchanged(this)
      ensures ok ==>
                && status == RunCompleted && version == old(version) + 1 && finishedAt == Some(now)
                && startedAt == (if old(startedAt) == None then Some(now) else old(startedAt))
                && durationMs == Millis(now - startedAt.value) && totalLines == res.totalLines
                && matchedCount == |res.matched| && unmatchedCount == |res.discrepancies|
                && skipped == res.skipped && deferred == res.deferred && totals == res.totals
                && forall k :: CountIn(byKind, k) == CountKind(res.discrepancies, k)
    {
      hide CountKind, CountIn, Millis, CountsUpTo;
      if status != RunRunning && status != RunPending { return false; }
      if startedAt == None { startedAt := Some(now); }
      status := RunCompleted;
      totalLines := res.totalLines;
      matchedCount, unmatchedCount := |res.matched|, |res.discrepancies|;
      skipped, deferred := res.skipped, res.deferred;
      var counts: map<DiscrepancyKind, nat> := map[];
      NoneOfAnyKind(res.discrepancies);
      for i := 0 to |res.discrepancies|
        invariant CountsUpTo(counts, res.discrepancies, i)
        modifies {}
      {
        var k := res.discrepancies[i].kind;
        OneMoreOfAKind(counts, res.discrepancies, i);
        counts := counts[k := CountIn(counts, k) + 1];
      }
      EveryKindCounted(counts, res.discrepancies);
      byKind, totals := counts, res.totals;
      durationMs := Millis(now - startedAt.value);
      finishedAt, version := Some(now), version + 1;
      return true;
    }

    method Fail(now: int) returns (ok: bool)
      modifies this`status, this`finishedAt, this`version
      ensures ok == (old(status) != RunCompleted)
      ensures ok ==> status == RunFailed && finishedAt == Some(now) && version == old(version) + 1
      ensures !ok ==> unchanged(this)
    {
      if status == RunCompleted { return false; }
      status, finishedAt, version := RunFailed, Some(now), version + 1;
      return true;
    }
  }

  function PlacesOf(ds: seq<Discrepancy>, k: DiscrepancyKind): set<nat> {
    set i: nat | i < |ds| && ds[i].kind == k
  }

  lemma OneMorePlaceOf(ds: seq<Discrepancy>, k: DiscrepancyKind)
    requires ds != []
    ensures var n: nat := |ds| - 1;
            n !in PlacesOf(ds[..n], k) && PlacesOf(ds, k) == PlacesOf(ds[..n], k) + if ds[n].kind == k then {n} else {}
  {
  }

  /** A count is the number of places with a discrepancy of its kind. */
  lemma {:induction false} CountExactly(ds: seq<Discrepancy>, k: DiscrepancyKind)
    ensures CountKind(ds, k) == |PlacesOf(ds, k)|
  {
    if ds == [] {
      assert PlacesOf(ds, k) == {};
    } else {
      hide PlacesOf;
      CountExactly(ds[..|ds| - 1], k);
      OneMorePlaceOf(ds, k);
    }
  }

  /** Milliseconds are what is left of the nanoseconds when less than one more is cut off, toward zero. */
  lemma MillisExactly(span: int)
    ensures span >= 0 ==> 0 <= span - 1_000_000 * Millis(span) < 1_000_000
    ensures span < 0 ==> -1_000_000 < span - 1_000_000 * Millis(span) <= 0
  {
  }

  /** The counts by kind add up to the number of discrepancies. */
  lemma {:induction false} KindsAddUp(ds: seq<Discrepancy>)
    ensures CountKind(ds, MissingInLedger) + CountKind(ds, MissingInPsp) + CountKind(ds, AmountMismatch)
            + CountKind(ds, StatusMismatch) + CountKind(ds, FeeMismatch) == |ds|
  {
    if ds == [] {
    } else {
      KindsAddUp(ds[..|ds| - 1]);
    }
  }
}

/** Settlement amounts: a decimal string in major units, read as an integer of minor units. */
module DecimalParser {
  import opened Wrappers
  import opened Amounts

  datatype ParseError = EmptyAmount | UnsupportedCurrency | InvalidAmount | TooManyDecimals | OutOfRange

  predicate IsDigit(c: char) {
    '0' <= c <= '9'
  }

  predicate AllDigits(s: string) {
    forall i | 0 <= i < |s| :: IsDigit(s[i])
  }

  predicate IsSpace(c: char) {
    || c == ' ' || '\t' <= c <= '\r' || c == '\U{85}' || c == '\U{A0}' || c == '\U{1680}'
       || '\U{2000}' <= c <= '\U{200A}'
    || c == '\U{2028}' || c == '\U{2029}' || c == '\U{202F}' || c == '\U{205F}' || c == '\U{3000}'
  }

  function TrimLeft(s: string): string {
    if s != "" && IsSpace(s[0]) then TrimLeft(s[1..]) else s
  }

  function TrimRight(s: string): string {
    if s != "" && IsSpace(s[|s| - 1]) then TrimRight(s[..|s| - 1]) else s
  }

  function DropSign(s: string): string {
    if s != "" && (s[0] == '-' || s[0] == '+') then s[1..] else s
  }

  function DropCommas(s: string): string {
    if s == "" then "" else if s[0] == ',' then DropCommas(s[1..]) else [s[0]] + DropCommas(s[1..])
  }

  /** The text before the first dot; all of it when there is none. */
  function BeforeDot(s: string): (r: string)
    ensures |r| <= |s|
  {
    if s == "" || s[0] == '.' then "" else [s[0]] + BeforeDot(s[1..])
  }

  function AfterDot(s: string): string {
    var n := |BeforeDot(s)|;
    if n == |s| then "" else s[n + 1..]
  }

  /** v * 10^n. */
  function Scale(v: nat, n: nat): (r: nat)
    ensures r >= v
  {
    if n == 0 then v else 10 * Scale(v, n - 1)
  }

  /** The integer a string of digits denotes. */
  function Val(s: string): nat
    requires AllDigits(s)
  {
    if s == "" then 0 else 10 * Val(s[..|s| - 1]) + (s[|s| - 1] - '0') as int
  }

  function Zeros(n: nat): (r: string)
    ensures |r| == n && AllDigits(r)
  {
    seq(n, i => '0')
  }

  /** The unsigned, comma-free text of an amount. */
  function Body(s: string): string {
    DropCommas(DropSign(TrimRight(TrimLeft(s))))
  }

  function IntPart(s: string): string {
    BeforeDot(Body(s))
  }

  function FracPart(s: string): string {
    AfterDot(Body(s))
  }

  function Parsed(s: string, currency: Currency): Result<int64, ParseError> {
    ParsedAt(s, Exponent(currency))
  }

  function ParsedAt(s: string, exp: int): Result<int64, ParseError> {
    if TrimRight(TrimLeft(s)) == "" then Err(EmptyAmount)
    else if exp < 0 then Err(UnsupportedCurrency)
    else OfParts(IntPart(s), FracPart(s), exp)
  }

  function OfParts(i: string, f: string, exp: nat): Result<int64, ParseError> {
    if i == "" && f == "" then Err(InvalidAmount)
    else if |f| > exp then Err(TooManyDecimals)
    else if !AllDigits(i + f) then Err(InvalidAmount)
    else
      var v := Scale(Val(i + f), exp - |f|);
      if v <= MAX_INT64 then Ok(v) else Err(OutOfRange)
  }

  lemma AllDigitsConcat(a: string, b: string)
    ensures AllDigits(a + b) <==> AllDigits(a) && AllDigits(b)
  {
    assert forall k | 0 <= k < |a| :: (a + b)[k] == a[k];
    assert forall k | 0 <= k < |b| :: (a + b)[|a| + k] == b[k];
  }

  /** Appending n zeros multiplies by 10^n. */
  lemma {:induction false} ValPadded(a: string, n: nat)
    requires AllDigits(a)
    ensures AllDigits(a + Zeros(n)) && Val(a + Zeros(n)) == Scale(Val(a), n)
  {
    if n == 0 {
      assert a + Zeros(n) == a;
    } else {
      ValPadded(a, n - 1);
      var s := a + Zeros(n);
      assert s[..|s| - 1] == a + Zeros(n - 1);
    }
  }

  lemma {:induction false} LeadingZero(f: string)
    requires AllDigits(f)
    ensures AllDigits("0" + f) && Val("0" + f) == Val(f)
  {
    var s := "0" + f;
    if f == "" {
      assert s[..|s| - 1] == "";
    } else {
      LeadingZero(f[..|f| - 1]);
      assert s[..|s| - 1] == "0" + f[..|f| - 1];
    }
  }

  method ParseDecimalToMinor(s: string, currency: Currency) returns (r: Result<int64, ParseError>)
    ensures r == Parsed(s, currency)
  {
    if TrimRight(TrimLeft(s)) == "" { return Err(EmptyAmount); }
    var exp := Exponent(currency);
    if exp < 0 { return Err(UnsupportedCurrency); }
    r := ReadParts(IntPart(s), FracPart(s), exp);
  }

  /** The second half of the parser: the padding and scanning loops, with their early exits. */
  method ReadParts(i: string, f: string, exp: nat) returns (r: Result<int64, ParseError>)
    ensures r == OfParts(i, f, exp)
  {
    var intPart, fracPart := i, f;
    if intPart == "" && fracPart == "" { return Err(InvalidAmount); }
    if intPart == "" { intPart := "0"; }
    if |fracPart| > exp { return Err(TooManyDecimals); }
    while |fracPart| < exp
      invariant |f| <= |fracPart| <= exp
      invariant fracPart == Padded(f, |fracPart| - |f|)
    {
      fracPart := fracPart + "0";
    }
    var digits := intPart + fracPart;
    DigitsToRead(i, f, exp - |f|);
    for k := 0 to |digits|
      invariant AllDigits(digits[..k])
    {
      if digits[k] < '0' || digits[k] > '9' { return Err(InvalidAmount); }
    }
    assert digits[..|digits|] == digits;
    var v := Val(digits);
    r := if v <= MAX_INT64 then Ok(v) else Err(OutOfRange);
  }

  function Padded(f: string, n: nat): (r: string)
    ensures |r| == |f| + n
  {
    if n == 0 then f else Padded(f, n - 1) + "0"
  }

  lemma {:induction false} PadZeros(f: string, n: nat)
    ensures Padded(f, n) == f + Zeros(n)
  {
    if n == 0 {
    } else {
      PadZeros(f, n - 1);
      assert Zeros(n) == Zeros(n - 1) + "0";
    }
  }

  /** The padded digits are digits exactly when both parts are, and denote the scaled value. */
  lemma DigitsToRead(i: string, f: string, n: nat)
    ensures var digits := (if i == "" then "0" else i) + Padded(f, n);
            && (AllDigits(digits) <==> AllDigits(i + f))
            && (AllDigits(digits) ==> Val(digits) == Scale(Val(i + f), n))
  {
    var whole := if i == "" then "0" else i;
    PadZeros(f, n);
    assert whole + Padded(f, n) == (whole + f) + Zeros(n);
    AllDigitsConcat(whole + f, Zeros(n));
    AllDigitsConcat(whole, f);
    AllDigitsConcat(i, f);
    if AllDigits(i + f) {
      if i == "" { LeadingZero(f); assert i + f == f; }
      ValPadded(whole + f, n);
    }
  }

  /** An accepted amount is exactly the decimal scaled by the exponent of the currency: with F
      fraction digits, result * 10^F == digits * 10^exponent. Nothing is truncated, and an amount is
      accepted exactly when its text is digits around at most one dot, with few enough decimals and a
      value that fits. */
  lemma ParsedExact(s: string, currency: Currency)
    ensures Parsed(s, currency).Ok? <==> Supported(currency) && Readable(IntPart(s), FracPart(s), Exponent(currency))
    ensures Parsed(s, currency).Ok? ==>
              IsDecimal(IntPart(s), FracPart(s), Exponent(currency), Parsed(s, currency).value)
  {
    if TrimRight(TrimLeft(s)) == "" {
      assert Body(s) == "";
    }
    if Supported(currency) {
      OfPartsExact(IntPart(s), FracPart(s), Exponent(currency));
    }
  }

  /** Why a text is refused: it is blank, the currency is unknown, there are no digits at all, more decimals than the
      currency has, something else than digits, or a value that does not fit; the first of these that applies. */
  lemma RefusedExactly(s: string, currency: Currency)
    requires Parsed(s, currency).Err?
    ensures var i, f := IntPart(s), FracPart(s);
            Parsed(s, currency).error
            == if Blank(s) then EmptyAmount
               else if !Supported(currency) then UnsupportedCurrency
               else if i + f == "" then InvalidAmount
               else if |f| > Exponent(currency) then TooManyDecimals
               else if exists c :: c in i + f && !('0' <= c <= '9') then InvalidAmount
               else OutOfRange
  {
    hide IsSpace, BeforeDot, AfterDot, Body, Val, Scale;
    BlankExactly(s);
    ExponentsExactly(currency);
    var i, f := IntPart(s), FracPart(s);
    assert AllDigits(i + f) <==> forall c | c in i + f :: IsDigit(c);
  }

  lemma BlankExactly(s: string)
    ensures TrimRight(TrimLeft(s)) == "" <==> Blank(s)
  {
    hide IsSpace;
    var lead, trail := TrimmedAs(s);
    var core := TrimRight(TrimLeft(s));
    if core == "" {
      assert s == lead + trail;
    } else {
      assert core[0] in s;
    }
  }

  predicate Readable(i: string, f: string, exp: nat) {
    i + f != "" && AllDigits(i + f) && |f| <= exp && Scale(Val(i + f), exp - |f|) <= MAX_INT64
  }

  /** minor == (i.f) * 10^exp, with both sides multiplied by 10^|f|. */
  predicate IsDecimal(i: string, f: string, exp: nat, minor: int) {
    minor >= 0 && AllDigits(i + f) && Scale(minor, |f|) == Scale(Val(i + f), exp)
  }

  lemma OfPartsExact(i: string, f: string, exp: nat)
    ensures OfParts(i, f, exp).Ok? <==> Readable(i, f, exp)
    ensures OfParts(i, f, exp).Ok? ==> IsDecimal(i, f, exp, OfParts(i, f, exp).value)
  {
    if OfParts(i, f, exp).Ok? {
      ScaleTwice(Val(i + f), exp - |f|, |f|);
    }
  }

  lemma {:induction false} ScaleTwice(v: nat, m: nat, n: nat)
    ensures Scale(Scale(v, m), n) == Scale(v, m + n)
  {
    if n == 0 {
    } else {
      ScaleTwice(v, m, n - 1);
    }
  }

  // ---- what a text reads as ----

  /** The first text is the second with commas put in. */
  predicate WithCommas(grouped: string, plain: string) {
    if grouped == "" then plain == ""
    else if grouped[0] == ',' then WithCommas(grouped[1..], plain)
    else plain != "" && plain[0] == grouped[0] && WithCommas(grouped[1..], plain[1..])
  }

  predicate Blank(s: string) {
    forall c | c in s :: IsSpace(c)
  }

  lemma {:induction false} CommasDropped(s: string)
    ensures WithCommas(s, DropCommas(s)) && ',' !in DropCommas(s)
  {
    if s == "" {
    } else {
      CommasDropped(s[1..]);
      if s[0] != ',' { assert DropCommas(s)[1..] == DropCommas(s[1..]); }
    }
  }

  lemma {:induction false} CommasOnly(grouped: string, plain: string)
    requires WithCommas(grouped, plain) && ',' !in plain
    ensures DropCommas(grouped) == plain
  {
    if grouped == "" {
    } else if grouped[0] == ',' {
      CommasOnly(grouped[1..], plain);
    } else {
      assert plain == [plain[0]] + plain[1..];
      CommasOnly(grouped[1..], plain[1..]);
    }
  }

  lemma {:induction false} LeftTrimmed(s: string) returns (lead: string)
    ensures s == lead + TrimLeft(s) && Blank(lead)
    ensures TrimLeft(s) != "" ==> !IsSpace(TrimLeft(s)[0])
  {
    if s != "" && IsSpace(s[0]) {
      var rest := LeftTrimmed(s[1..]);
      lead := [s[0]] + rest;
      assert s == [s[0]] + s[1..];
    } else {
      lead := "";
    }
  }

  lemma {:induction false} RightTrimmed(s: string) returns (trail: string)
    ensures s == TrimRight(s) + trail && Blank(trail)
    ensures TrimRight(s) != "" ==> !IsSpace(TrimRight(s)[|TrimRight(s)| - 1])
  {
    if s != "" && IsSpace(s[|s| - 1]) {
      var rest := RightTrimmed(s[..|s| - 1]);
      trail := rest + [s[|s| - 1]];
      assert s == s[..|s| - 1] + [s[|s| - 1]];
    } else {
      trail := "";
    }
  }

  lemma {:induction false} DotSplits(s: string)
    ensures '.' !in BeforeDot(s)
    ensures s == BeforeDot(s) + (if '.' in s then "." + AfterDot(s) else "")
    ensures '.' !in s ==> AfterDot(s) == ""
  {
    if s == "" || s[0] == '.' {
    } else {
      DotSplits(s[1..]);
      assert s == [s[0]] + s[1..];
      assert BeforeDot(s) == [s[0]] + BeforeDot(s[1..]);
      assert AfterDot(s) == AfterDot(s[1..]);
    }
  }

  /** Any text is blanks, perhaps one sign, a grouped text, and blanks; what is read is that text without its
      commas, cut at its first dot. */
  lemma TextReadAs(s: string) returns (lead: string, sign: string, grouped: string, trail: string)
    ensures s == lead + sign + grouped + trail && Blank(lead) && Blank(trail) && sign in {"", "+", "-"}
    ensures sign + grouped != "" ==> !IsSpace((sign + grouped)[0]) && !IsSpace((sign + grouped)[|sign + grouped| - 1])
    ensures sign == "" && grouped != "" ==> grouped[0] !in {'+', '-'}
    ensures WithCommas(grouped, Body(s)) && ',' !in Body(s) && '.' !in IntPart(s)
    ensures Body(s) == IntPart(s) + (if '.' in Body(s) then "." + FracPart(s) else "")
    ensures '.' !in Body(s) ==> FracPart(s) == ""
  {
    hide IsSpace, TrimLeft, TrimRight, Blank, BeforeDot, AfterDot, WithCommas, DropCommas, DropSign;
    lead, trail := TrimmedAs(s);
    var core := TrimRight(TrimLeft(s));
    sign := SignOf(core);
    grouped := DropSign(core);
    CommasDropped(grouped);
    DotSplits(Body(s));
    Regrouped(lead, sign, grouped, trail);
  }

  lemma Regrouped(lead: string, sign: string, grouped: string, trail: string)
    ensures lead + (sign + grouped) + trail == lead + sign + grouped + trail
  {
  }

  lemma TrimmedAs(s: string) returns (lead: string, trail: string)
    ensures var core := TrimRight(TrimLeft(s));
            && s == lead + core + trail && Blank(lead) && Blank(trail)
            && (core != "" ==> !IsSpace(core[0]) && !IsSpace(core[|core| - 1]))
  {
    hide IsSpace, TrimLeft, TrimRight, Blank;
    lead := LeftTrimmed(s);
    trail := RightTrimmed(TrimLeft(s));
    var core := TrimRight(TrimLeft(s));
    if core != "" { assert TrimLeft(s)[0] == core[0]; }
    assert lead + (core + trail) == lead + core + trail;
  }

  lemma SignOf(core: string) returns (sign: string)
    ensures core == sign + DropSign(core) && sign in {"", "+", "-"}
    ensures sign == "" && core != "" ==> core[0] !in {'+', '-'}
  {
    sign := if core != "" && (core[0] == '-' || core[0] == '+') then [core[0]] else "";
  }

  lemma {:induction false} BlankTrimsLeft(lead: string, s: string)
    requires Blank(lead) && s != "" && !IsSpace(s[0])
    ensures TrimLeft(lead + s) == s
  {
    if lead == "" {
      assert lead + s == s;
    } else {
      assert (lead + s)[1..] == lead[1..] + s && lead[0] in lead;
      assert forall c | c in lead[1..] :: c in lead;
      BlankTrimsLeft(lead[1..], s);
    }
  }

  lemma {:induction false} BlankTrimsRight(s: string, trail: string)
    requires Blank(trail) && s != "" && !IsSpace(s[|s| - 1])
    ensures TrimRight(s + trail) == s
  {
    if trail == "" {
      assert s + trail == s;
    } else {
      var n := |trail| - 1;
      assert (s + trail)[..|s + trail| - 1] == s + trail[..n] && trail[n] in trail;
      assert forall c | c in trail[..n] :: c in trail;
      BlankTrimsRight(s, trail[..n]);
    }
  }

  /** The parts of a text do not change when it is put between blanks, under a sign, and grouped by commas. */
  lemma GroupedBody(lead: string, sign: string, grouped: string, plain: string, trail: string)
    requires Blank(lead) && Blank(trail) && sign in {"", "+", "-"} && WithCommas(grouped, plain) && ',' !in plain
    requires grouped != "" && !IsSpace(grouped[0]) && !IsSpace(grouped[|grouped| - 1])
    requires sign == "" ==> grouped[0] != '+' && grouped[0] != '-'
    ensures Body(lead + sign + grouped + trail) == plain && TrimRight(TrimLeft(lead + sign + grouped + trail)) != ""
  {
    var core := sign + grouped;
    assert lead + sign + grouped + trail == lead + (core + trail);
    assert (core + trail)[0] == core[0] && core[|core| - 1] == grouped[|grouped| - 1];
    assert !IsSpace('+') && !IsSpace('-');
    BlankTrimsLeft(lead, core + trail);
    BlankTrimsRight(core, trail);
    assert DropSign(core) == grouped;
    CommasOnly(grouped, plain);
  }

  // ---- a reference printer ----

  function Digit(d: nat): (c: char)
    requires d < 10
    ensures IsDigit(c) && (c - '0') as int == d
  {
    '0' + d as char
  }

  function Digits(v: nat): (r: string)
    ensures r != "" && AllDigits(r)
  {
    if v < 10 then [Digit(v)] else Digits(v / 10) + [Digit(v % 10)]
  }

  /** v without its last n digits, and those digits. */
  function Drop(v: nat, n: nat): nat {
    if n == 0 then v else Drop(v / 10, n - 1)
  }

  function Last(v: nat, n: nat): (r: string)
    ensures |r| == n && AllDigits(r)
    decreases n
  {
    if n == 0 then "" else Last(v / 10, n - 1) + [Digit(v % 10)]
  }

  function Print(v: nat, exp: nat): string {
    Digits(Drop(v, exp)) + if exp == 0 then "" else "." + Last(v, exp)
  }

  lemma {:induction false} ValOfDigits(v: nat)
    ensures Val(Digits(v)) == v
  {
    var s := Digits(v);
    if v < 10 {
      assert s[..0] == "";
    } else {
      ValOfDigits(v / 10);
      assert s[..|s| - 1] == Digits(v / 10);
    }
  }

  lemma {:induction false} ValOfPrinted(v: nat, n: nat)
    ensures Val(Digits(Drop(v, n)) + Last(v, n)) == v
    decreases n
  {
    var s := Digits(Drop(v, n)) + Last(v, n);
    if n == 0 {
      ValOfDigits(v);
      assert s == Digits(v);
    } else {
      ValOfPrinted(v / 10, n - 1);
      assert s[..|s| - 1] == Digits(Drop(v / 10, n - 1)) + Last(v / 10, n - 1);
    }
  }

  /** Reading back a printed amount, of either sign, gives the amount: for every currency and every
      non-negative int64. */
  lemma PrintThenParse(v: int64, currency: Currency, negative: bool)
    requires v >= 0 && Supported(currency)
    ensures Parsed((if negative then "-" else "") + Print(v, Exponent(currency)), currency) == Ok(v)
  {
    PartsOfPrinted(v, Exponent(currency), negative);
    ParsedFromParts((if negative then "-" else "") + Print(v, Exponent(currency)), v, Exponent(currency));
  }

  /** Reading back works just as well with commas anywhere in the printed text, with either sign or none, and with
      blanks around it. */
  lemma GroupedThenParse(v: int64, currency: Currency, lead: string, sign: string, grouped: string, trail: string)
    requires v >= 0 && Supported(currency) && Blank(lead) && Blank(trail) && sign in {"", "+", "-"}
    requires WithCommas(grouped, Print(v, Exponent(currency)))
    ensures Parsed(lead + sign + grouped + trail, currency) == Ok(v)
  {
    hide Blank, WithCommas, Print, Digits, Drop, Last, Body, BeforeDot, AfterDot;
    hide ParsedAt, TrimLeft, TrimRight, IsSpace;
    var exp := Exponent(currency);
    var plain, s := Print(v, exp), lead + sign + grouped + trail;
    PlainOfPrinted(v, exp);
    GroupedEnds(grouped, plain);
    assert grouped[0] in grouped && grouped[|grouped| - 1] in grouped;
    NoneIsSpace(grouped[0]);
    NoneIsSpace(grouped[|grouped| - 1]);
    GroupedBody(lead, sign, grouped, plain, trail);
    PrintedParts(v, exp);
    ParsedFromParts(s, v, exp);
  }

  lemma NoneIsSpace(c: char)
    requires IsDigit(c) || c == '.' || c == ','
    ensures !IsSpace(c)
  {
  }

  lemma PrintedParts(v: nat, exp: nat)
    ensures BeforeDot(Print(v, exp)) == Digits(Drop(v, exp)) && AfterDot(Print(v, exp)) == Last(v, exp)
  {
    var whole, frac := Digits(Drop(v, exp)), Last(v, exp);
    assert Print(v, exp) == if exp == 0 then whole else whole + "." + frac;
    Split(whole, frac);
  }

  lemma PlainOfPrinted(v: nat, exp: nat)
    ensures Print(v, exp) != "" && ',' !in Print(v, exp) && forall c | c in Print(v, exp) :: IsDigit(c) || c == '.'
  {
  }

  lemma {:induction false} GroupedEnds(grouped: string, plain: string)
    requires WithCommas(grouped, plain) && forall c | c in plain :: IsDigit(c) || c == '.'
    ensures forall c | c in grouped :: IsDigit(c) || c == '.' || c == ','
    ensures plain != "" ==> grouped != ""
  {
    if grouped == "" {
    } else if grouped[0] == ',' {
      GroupedEnds(grouped[1..], plain);
      assert grouped == [grouped[0]] + grouped[1..];
    } else {
      assert plain[0] in plain && forall c | c in plain[1..] :: c in plain;
      GroupedEnds(grouped[1..], plain[1..]);
      assert grouped == [grouped[0]] + grouped[1..];
    }
  }

  lemma ParsedFromParts(s: string, v: int64, exp: nat)
    requires v >= 0
    requires TrimRight(TrimLeft(s)) != "" && IntPart(s) == Digits(Drop(v, exp)) && FracPart(s) == Last(v, exp)
    ensures ParsedAt(s, exp) == Ok(v)
  {
    var i, f := Digits(Drop(v, exp)), Last(v, exp);
    AllDigitsConcat(i, f);
    ValOfPrinted(v, exp);
    assert OfParts(i, f, exp) == Ok(v);
  }

  lemma PartsOfPrinted(v: nat, exp: nat, negative: bool)
    ensures var s := (if negative then "-" else "") + Print(v, exp);
            && TrimRight(TrimLeft(s)) != "" && IntPart(s) == Digits(Drop(v, exp)) && FracPart(s) == Last(v, exp)
  {
    var whole, frac := Digits(Drop(v, exp)), Last(v, exp);
    var p := if exp == 0 then whole else whole + "." + frac;
    assert p == Print(v, exp);
    BodyOfPrinted((if negative then "-" else "") + p, p, negative);
    Split(whole, frac);
  }

  lemma BodyOfPrinted(s: string, p: string, negative: bool)
    requires s == (if negative then "-" else "") + p
    requires p != "" && IsDigit(p[0]) && IsDigit(p[|p| - 1])
    requires forall i | 0 <= i < |p| :: p[i] != ','
    ensures Body(s) == p && TrimRight(TrimLeft(s)) == s
  {
    assert !IsSpace(s[0]) && s[|s| - 1] == p[|p| - 1] && !IsSpace(s[|s| - 1]);
    assert TrimLeft(s) == s && TrimRight(s) == s;
    assert DropSign(s) == p;
    NoCommas(p);
  }

  lemma {:induction false} NoCommas(s: string)
    requires forall i | 0 <= i < |s| :: s[i] != ','
    ensures DropCommas(s) == s
  {
    if s != "" {
      NoCommas(s[1..]);
    }
  }

  lemma {:induction false} Split(whole: string, frac: string)
    requires AllDigits(whole) && AllDigits(frac)
    ensures BeforeDot(whole + "." + frac) == whole == BeforeDot(whole)
    ensures AfterDot(whole + "." + frac) == frac && AfterDot(whole) == ""
  {
    BeforeDotOf(whole, "." + frac);
    BeforeDotOf(whole, "");
    assert whole + "" == whole && whole + ("." + frac) == whole + "." + frac;
  }

  lemma {:induction false} BeforeDotOf(whole: string, rest: string)
    requires AllDigits(whole) && (rest == "" || rest[0] == '.')
    ensures BeforeDot(whole + rest) == whole
  {
    if whole != "" {
      BeforeDotOf(whole[1..], rest);
      assert (whole + rest)[1..] == whole[1..] + rest;
    }
  }
}

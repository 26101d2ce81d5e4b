/** Fixed-width base-62 encoding of the random part of an API key. */
module Base62 {

  type byte = b: int | 0 <= b < 256

  /** The alphabet 0-9, A-Z, a-z by position. */
  function Letter(d: nat): (c: char)
    requires d < 62
    ensures IsLetter(c) && Digit(c) == d
  {
    if d < 10 then '0' + d as char else if d < 36 then 'A' + (d - 10) as char else 'a' + (d - 36) as char
  }

  predicate IsLetter(c: char) {
    '0' <= c <= '9' || 'A' <= c <= 'Z' || 'a' <= c <= 'z'
  }

  function Digit(c: char): (d: nat)
    requires IsLetter(c)
    ensures d < 62
  {
    if c <= '9' then (c - '0') as nat else if c <= 'Z' then 10 + (c - 'A') as nat else 36 + (c - 'a') as nat
  }

  predicate AllLetters(s: string) {
    forall i | 0 <= i < |s| :: IsLetter(s[i])
  }

  /** The big-endian integer of the bytes. */
  function BigEndian(raw: seq<byte>): nat {
    if raw == [] then 0 else 256 * BigEndian(raw[..|raw| - 1]) + raw[|raw| - 1]
  }

  function Decode(s: string): nat
    requires AllLetters(s)
  {
    if s == "" then 0 else 62 * Decode(s[..|s| - 1]) + Digit(s[|s| - 1])
  }

  function Pow(b: nat, n: nat): nat {
    if n == 0 then 1 else b * Pow(b, n - 1)
  }

  /** Digits in the order the division loop finds them, with a rest still to be divided. */
  function Join(digits: string, rest: nat): nat
    requires AllLetters(digits)
  {
    if digits == "" then rest else Digit(digits[0]) + 62 * Join(digits[1..], rest)
  }

  lemma {:induction false} JoinStep(digits: string, rest: nat)
    requires AllLetters(digits)
    ensures AllLetters(digits + [Letter(rest % 62)])
    ensures Join(digits + [Letter(rest % 62)], rest / 62) == Join(digits, rest)
  {
    var s := digits + [Letter(rest % 62)];
    if digits == "" {
      assert s[1..] == "";
    } else {
      JoinStep(digits[1..], rest);
      assert s[1..] == digits[1..] + [Letter(rest % 62)];
    }
  }

  function Reverse(s: string): (r: string)
    ensures |r| == |s|
  {
    if s == "" then "" else Reverse(s[1..]) + [s[0]]
  }

  lemma {:induction false} DecodeReversed(pad: nat, digits: string)
    requires AllLetters(digits)
    ensures AllLetters(Zeros(pad) + Reverse(digits))
    ensures Decode(Zeros(pad) + Reverse(digits)) == Join(digits, 0)
  {
    var s := Zeros(pad) + Reverse(digits);
    if digits == "" {
      ZerosDecode(pad);
      assert s == Zeros(pad);
    } else {
      DecodeReversed(pad, digits[1..]);
      assert s == (Zeros(pad) + Reverse(digits[1..])) + [digits[0]];
      assert s[..|s| - 1] == Zeros(pad) + Reverse(digits[1..]);
    }
  }

  function Zeros(n: nat): (s: string)
    ensures |s| == n
  {
    if n == 0 then "" else Zeros(n - 1) + "0"
  }

  lemma {:induction false} ZerosDecode(n: nat)
    ensures AllLetters(Zeros(n)) && Decode(Zeros(n)) == 0
  {
    if n == 0 {
    } else {
      ZerosDecode(n - 1);
      assert Zeros(n)[..n - 1] == Zeros(n - 1);
    }
  }

  /** Divide out the digits, pad on the left, then write them most significant first. The result
      always decodes to the input; it has exactly n letters when the input is below 62^n. */
  method EncodeBase62(raw: seq<byte>, n: nat) returns (s: string)
    ensures AllLetters(s) && Decode(s) == BigEndian(raw)
    ensures |s| >= n
    ensures BigEndian(raw) < Pow(62, n) ==> |s| == n
  {
    var num: nat := BigEndian(raw);
    var digits := "";
    while num > 0
      invariant AllLetters(digits) && Join(digits, num) == BigEndian(raw)
      invariant BigEndian(raw) < Pow(62, n) ==> |digits| <= n && num < Pow(62, n - |digits|)
      decreases num
    {
      JoinStep(digits, num);
      digits, num := digits + [Letter(num % 62)], num / 62;
    }
    var sb := "";
    var i := |digits|;
    while i < n
      invariant |digits| <= i && (i <= n || i == |digits|)
      invariant sb == Zeros(i - |digits|)
    {
      sb := sb + "0";
      i := i + 1;
    }
    ghost var pad := sb;
    assert pad == Zeros(|pad|);
    i := |digits|;
    while i > 0
      invariant 0 <= i <= |digits|
      invariant sb == pad + Reverse(digits[i..])
    {
      i := i - 1;
      assert digits[i..][1..] == digits[i + 1..];
      sb := sb + [digits[i]];
    }
    assert digits[0..] == digits;
    DecodeReversed(|pad|, digits);
    return sb;
  }

  lemma {:induction false} BigEndianBound(raw: seq<byte>)
    ensures BigEndian(raw) < Pow(256, |raw|)
  {
    if raw == [] {
    } else {
      BigEndianBound(raw[..|raw| - 1]);
    }
  }

  lemma Regroup(x: nat, y: nat, z: nat)
    ensures x * y * z == x * (y * z)
  {
  }

  lemma {:induction false} PowAdd(b: nat, m: nat, n: nat)
    ensures Pow(b, m + n) == Pow(b, m) * Pow(b, n)
  {
    if m == 0 {
    } else {
      PowAdd(b, m - 1, n);
      Regroup(b, Pow(b, m - 1), Pow(b, n));
    }
  }

  /** 32 random bytes always fit 43 letters, because 62^43 > 2^256. */
  lemma SecretFits(raw: seq<byte>)
    requires |raw| == 32
    ensures BigEndian(raw) < Pow(62, 43)
  {
    BigEndianBound(raw);
    PowersOf62();
    PowersOf256();
  }

  lemma PowersOf62()
    ensures Pow(62, 43) == 118261299920216034323567158324881157722618355000741423528102151243191317168128
  {
    assert Pow(62, 8) == 218340105584896 && Pow(62, 3) == 238328;
    assert Pow(62, 16) == 47672401706823533450263330816 by { PowAdd(62, 8, 8); }
    assert Pow(62, 32) == 2272657884496751345355241563627544170162852933518655225856 by { PowAdd(62, 16, 16); }
    assert Pow(62, 40) == 496212362459367066914366580195701544604991251555593230875525121862270976 by {
      PowAdd(62, 32, 8);
    }
    PowAdd(62, 40, 3);
  }

  lemma PowersOf256()
    ensures Pow(256, 32) == 115792089237316195423570985008687907853269984665640564039457584007913129639936
  {
    assert Pow(256, 8) == 18446744073709551616;
    assert Pow(256, 16) == 340282366920938463463374607431768211456 by { PowAdd(256, 8, 8); }
    PowAdd(256, 16, 16);
  }

  method SecretBody(raw: seq<byte>) returns (s: string)
    requires |raw| == 32
    ensures |s| == 43 && AllLetters(s) && Decode(s) == BigEndian(raw)
  {
    SecretFits(raw);
    s := EncodeBase62(raw, 43);
  }
}

/** Money values: int64 minor units of a currency, with the wrap-around and the checks of the
    original arithmetic spelled out over mathematical integers. */
module Amounts {
  import opened Wrappers

  const MAX_INT64: int := 0x7FFF_FFFF_FFFF_FFFF
  const MIN_INT64: int := -0x8000_0000_0000_0000
  const MODULUS: int := 0x1_0000_0000_0000_0000

  predicate IsInt64(x: int) {
    MIN_INT64 <= x <= MAX_INT64
  }

  type int64 = x: int | MIN_INT64 <= x <= MAX_INT64

  /** Two's complement reduction: what an int64 addition or multiplication stores. */
  function Wrap(x: int): (r: int64)
    ensures MIN_INT64 <= x <= MAX_INT64 ==> r == x
    decreases if IsInt64(x) then 0 else if x < 0 then -x else x
  {
    if x > MAX_INT64 then Wrap(x - MODULUS) else if x < MIN_INT64 then Wrap(x + MODULUS) else x
  }

  lemma {:induction false} WrapShift(x: int)
    ensures Wrap(x + MODULUS) == Wrap(x) == Wrap(x - MODULUS)
    decreases if IsInt64(x) then 0 else if x < 0 then -x else x
  {
    if x > MAX_INT64 { WrapShift(x - MODULUS); } else if x < MIN_INT64 { WrapShift(x + MODULUS); }
  }

  /** Wrapping early or late makes no difference to the stored sum. */
  lemma {:induction false} WrapAdd(x: int, y: int)
    ensures Wrap(Wrap(x) + y) == Wrap(x + y)
    decreases if IsInt64(x) then 0 else if x < 0 then -x else x
  {
    if x > MAX_INT64 {
      WrapAdd(x - MODULUS, y);
      WrapShift(x + y);
    } else if x < MIN_INT64 {
      WrapAdd(x + MODULUS, y);
      WrapShift(x + y);
    }
  }

  lemma {:induction false} WrapSub(x: int, y: int)
    ensures Wrap(y - Wrap(x)) == Wrap(y - x)
    decreases if IsInt64(x) then 0 else if x < 0 then -x else x
  {
    if x > MAX_INT64 {
      WrapSub(x - MODULUS, y);
      WrapShift(y - x);
    } else if x < MIN_INT64 {
      WrapSub(x + MODULUS, y);
      WrapShift(y - x);
    }
  }

  /** Supported currencies by exponent; every other string is kept as Other. */
  datatype Currency =
    | TWD | JPY | KRW | VND | CLP | ISK | UGX | XAF | XOF
    | USD | EUR | GBP | SGD | HKD | CNY | AUD | CAD | NZD | CHF | SEK | NOK | DKK | THB | MYR | PHP | IDR | INR
    | MXN | BRL | ZAR | PLN | CZK | HUF | TRY | ILS | AED | SAR
    | KWD | BHD | JOD | OMR | TND | IQD | LYD
    | Other(code: string)

  function Exponent(c: Currency): int {
    match c
    case TWD | JPY | KRW | VND | CLP | ISK | UGX | XAF | XOF => 0
    case KWD | BHD | JOD | OMR | TND | IQD | LYD => 3
    case Other(_) => -1
    case _ => 2
  }

  predicate Supported(c: Currency) {
    !c.Other?
  }

  /** No minor unit, thousandths, or hundredths for every other supported currency. */
  lemma ExponentsExactly(c: Currency)
    ensures Exponent(c) == 0 <==> c in {TWD, JPY, KRW, VND, CLP, ISK, UGX, XAF, XOF}
    ensures Exponent(c) == 3 <==> c in {KWD, BHD, JOD, OMR, TND, IQD, LYD}
    ensures Exponent(c) == -1 <==> !Supported(c)
    ensures Exponent(c) in {-1, 0, 2, 3}
  {
  }

  datatype MoneyError = CurrencyMismatch | Overflow | NegativeAmount | InvalidCurrency

  datatype Money = Money(amount: int64, currency: Currency) {

    function Validate(): Outcome<MoneyError> {
      if !Supported(currency) then Fail(InvalidCurrency)
      else if amount < 0 then Fail(NegativeAmount)
      else Pass
    }

    predicate IsPositive() {
      amount > 0
    }

    function Add(o: Money): (r: Result<Money, MoneyError>)
      ensures r.Ok? <==> currency == o.currency && IsInt64(amount + o.amount)
      ensures r.Ok? ==> r.value == Money(amount + o.amount, currency)
      ensures r.Err? ==> r.error == if currency != o.currency then CurrencyMismatch else Overflow
    {
      if currency != o.currency then Err(CurrencyMismatch)
      else
        var sum := Wrap(amount + o.amount);
        if (o.amount > 0 && sum < amount) || (o.amount < 0 && sum > amount) then Err(Overflow)
        else Ok(Money(sum, currency))
    }

    /** For the amounts a Money may hold (never negative) the difference cannot overflow; with a negative
        subtrahend it may, and then wraps around. */
    function Sub(o: Money): (r: Result<Money, MoneyError>)
      ensures currency == o.currency && 0 <= o.amount <= amount ==> r == Ok(Money(amount - o.amount, currency))
      ensures currency == o.currency && o.amount <= amount ==> r == Ok(Money(Wrap(amount - o.amount), currency))
      ensures currency != o.currency ==> r == Err(CurrencyMismatch)
      ensures currency == o.currency && o.amount > amount ==> r == Err(NegativeAmount)
    {
      if currency != o.currency then Err(CurrencyMismatch)
      else if o.amount > amount then Err(NegativeAmount)
      else Ok(Money(Wrap(amount - o.amount), currency))
    }

    function Cmp(o: Money): Result<int, MoneyError> {
      if currency != o.currency then Err(CurrencyMismatch)
      else if amount < o.amount then Ok(-1)
      else if amount > o.amount then Ok(1)
      else Ok(0)
    }

    /** Amounts in different currencies are never greater. */
    predicate GreaterThan(o: Money) {
      Cmp(o).Ok? && Cmp(o).value > 0
    }

    function MulBps(bps: int64): Result<Money, MoneyError> {
      if bps < 0 then Err(NegativeAmount)
      else if amount == 0 || bps == 0 then Ok(Zero(currency))
      else if amount > MAX_INT64 / bps then Err(Overflow)
      else
        var prod := Wrap(amount * bps);
        var q, r := QuoBps(prod), RemBps(prod);
        Ok(Money(if r * 2 >= 10000 then q + 1 else q, currency))
    }
  }

  function Zero(c: Currency): Money {
    Money(0, c)
  }

  /** Division of a basis-point product by 10000, truncating toward zero, and its remainder. */
  function QuoBps(a: int): int {
    if a >= 0 then a / 10000 else -((-a) / 10000)
  }

  function RemBps(a: int): int {
    if a >= 0 then a % 10000 else -((-a) % 10000)
  }

  /** q is n/d rounded to the nearest integer, ties upward. */
  predicate IsHalfUp(n: int, d: int, q: int) {
    2 * d * q <= 2 * n + d < 2 * d * q + 2 * d
  }

  lemma HalfUpMonotone(n: int, m: int, d: int, p: int, q: int)
    requires d > 0 && n <= m && IsHalfUp(n, d, p) && IsHalfUp(m, d, q)
    ensures p <= q
  {
    if p >= q + 1 {
      assert 2 * d * p >= 2 * d * (q + 1) by { MulMonotone(q + 1, p, 2 * d); }
    }
  }

  lemma MulMonotone(x: int, y: int, z: int)
    requires x <= y && 0 <= z
    ensures x * z <= y * z && z * x <= z * y
  {
  }

  /** Quotient and remainder, rounded up from half, are exactly the half-up rounding. */
  lemma RoundIsHalfUp(n: nat, d: int)
    requires d > 0
    ensures IsHalfUp(n, d, if (n % d) * 2 >= d then n / d + 1 else n / d)
  {
    var q := n / d;
    assert n == d * q + n % d;
    assert 2 * d * (q + 1) == 2 * d * q + 2 * d;
  }

  /** The pre-check "amount > MaxInt64 / bps" is exactly overflow of the product. */
  lemma ProductCheck(a: nat, b: int)
    requires b > 0
    ensures a > MAX_INT64 / b <==> a * b > MAX_INT64
  {
    var k := MAX_INT64 / b;
    assert MAX_INT64 == k * b + MAX_INT64 % b;
    if a <= k { MulMonotone(a, k, b); } else { MulMonotone(k + 1, a, b); assert (k + 1) * b == k * b + b; }
  }

  /** On non-negative amounts MulBps is exact half-up rounding of amount * bps / 10000, and it
      reports overflow exactly when the product does not fit an int64. */
  lemma MulBpsExact(m: Money, bps: int64)
    requires 0 <= m.amount && 0 <= bps
    ensures m.MulBps(bps) == Err(Overflow) <==> m.amount * bps > MAX_INT64
    ensures m.amount * bps <= MAX_INT64 ==>
              && m.MulBps(bps).Ok?
              && m.MulBps(bps).value.currency == m.currency
              && IsHalfUp(m.amount * bps, 10000, m.MulBps(bps).value.amount)
  {
    if m.amount != 0 && bps != 0 {
      ProductCheck(m.amount, bps);
      assert m.amount * bps >= 0 by { MulMonotone(0, m.amount, bps); }
      RoundIsHalfUp(m.amount * bps, 10000);
    } else {
      assert m.amount * bps == 0;
    }
  }

  lemma MulBpsMonotone(a: Money, b: Money, bps: int64)
    requires 0 <= a.amount <= b.amount && 0 <= bps
    requires a.MulBps(bps).Ok? && b.MulBps(bps).Ok?
    ensures 0 <= a.MulBps(bps).value.amount <= b.MulBps(bps).value.amount
  {
    MulBpsExact(a, bps);
    MulBpsExact(b, bps);
    MulMonotone(a.amount, b.amount, bps);
    MulMonotone(0, a.amount, bps);
    HalfUpMonotone(a.amount * bps, b.amount * bps, 10000, a.MulBps(bps).value.amount, b.MulBps(bps).value.amount);
  }
}

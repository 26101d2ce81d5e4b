/** Fee arithmetic of the ledger: the fee policy, and the pro-rata share of a fee. */
module Fee {
  import opened Wrappers
  import opened Amounts

  datatype FeeError = BadAmount(cause: MoneyError) | NegativePolicy | CurrenciesDiffer

  datatype FeeCalculation = FeeCalculation(base: Money, fixed: Money, percentagePart: Money, total: Money,
                                           clamped: bool)

  /** min and max bounds that are not positive are not applied. */
  datatype FeePolicy = FeePolicy(fixedMinor: int64, percentageBps: int64, minFeeMinor: int64, maxFeeMinor: int64) {

    function Calculate(amount: Money): Result<FeeCalculation, FeeError> {
      var valid := amount.Validate();
      if valid.Fail? then Err(BadAmount(valid.error))
      else if fixedMinor < 0 || percentageBps < 0 then Err(NegativePolicy)
      else
        var pct := amount.MulBps(percentageBps);
        if pct.Err? then Err(BadAmount(pct.error))
        else
          var fixed := Money(fixedMinor, amount.currency);
          var sum := fixed.Add(pct.value);
          if sum.Err? then Err(BadAmount(sum.error))
          else
            var raised := minFeeMinor > 0 && sum.value.amount < minFeeMinor;
            var t1 := if raised then minFeeMinor else sum.value.amount;
            var lowered := maxFeeMinor > 0 && t1 > maxFeeMinor;
            var t2 := if lowered then maxFeeMinor else t1;
            var capped := t2 > amount.amount;
            var t3 := if capped then amount.amount else t2;
            Ok(FeeCalculation(amount, fixed, pct.value, Money(t3, amount.currency), raised || lowered || capped))
    }
  }

  /** A fee is computed exactly when the amount and the policy are well formed and neither the
      product (see MulBpsExact) nor the sum overflows. */
  lemma CalculateSucceeds(p: FeePolicy, amount: Money)
    ensures p.Calculate(amount).Ok? <==>
              && amount.Validate().Pass? && p.fixedMinor >= 0 && p.percentageBps >= 0
              && amount.MulBps(p.percentageBps).Ok?
              && p.fixedMinor + amount.MulBps(p.percentageBps).value.amount <= MAX_INT64
  {
    if amount.Validate().Pass? && p.percentageBps >= 0 && amount.MulBps(p.percentageBps).Ok? {
      MulBpsMonotone(amount, amount, p.percentageBps);
    }
  }

  /** The fee never leaves [0, amount], keeps the currency of the amount, respects the bounds of
      the policy, and when none applied it is the fixed part plus the half-up percentage. */
  lemma CalculateBounds(p: FeePolicy, amount: Money)
    requires p.Calculate(amount).Ok?
    ensures var c := p.Calculate(amount).value;
            && 0 <= c.total.amount <= amount.amount && c.total.currency == amount.currency
            && (0 < p.maxFeeMinor ==> c.total.amount <= p.maxFeeMinor)
            && (0 < p.minFeeMinor <= amount.amount && (p.maxFeeMinor <= 0 || p.minFeeMinor <= p.maxFeeMinor) ==>
                  c.total.amount >= p.minFeeMinor)
            && (!c.clamped ==> IsHalfUp(amount.amount * p.percentageBps, 10000, c.total.amount - p.fixedMinor))
  {
    MulBpsMonotone(amount, amount, p.percentageBps);
    MulBpsExact(amount, p.percentageBps);
  }

  /** The fee case by case. Before any bound it is the fixed part plus the half-up percentage; a positive minimum
      raises it, then a positive maximum lowers it, then the amount itself caps it. It is marked as clamped exactly
      when that changed it or the minimum raised it first. */
  lemma CalculateExactly(p: FeePolicy, amount: Money)
    requires p.Calculate(amount).Ok?
    ensures var c := p.Calculate(amount).value;
            var raw := c.fixed.amount + c.percentagePart.amount;
            var atLeast := if 0 < p.minFeeMinor && raw < p.minFeeMinor then p.minFeeMinor as int else raw;
            var atMost := if 0 < p.maxFeeMinor && p.maxFeeMinor < atLeast then p.maxFeeMinor as int else atLeast;
            && c.base == amount && c.fixed == Money(p.fixedMinor, amount.currency)
            && c.percentagePart.currency == c.total.currency == amount.currency
            && IsHalfUp(amount.amount * p.percentageBps, 10000, c.percentagePart.amount)
            && c.total.amount == (if amount.amount < atMost then amount.amount as int else atMost)
            && (c.clamped <==> c.total.amount != raw || (0 < p.minFeeMinor && raw < p.minFeeMinor))
  {
    MulBpsMonotone(amount, amount, p.percentageBps);
    MulBpsExact(amount, p.percentageBps);
  }

  /** Why no fee is computed. */
  lemma CalculateRefusesFor(p: FeePolicy, amount: Money)
    requires p.Calculate(amount).Err?
    ensures p.Calculate(amount).error
            == if !Supported(amount.currency) then BadAmount(InvalidCurrency)
               else if amount.amount < 0 then BadAmount(NegativeAmount)
               else if p.fixedMinor < 0 || p.percentageBps < 0 then NegativePolicy
               else BadAmount(Overflow)
  {
  }

  /** A larger amount never pays a smaller fee, whatever the bounds of the policy are. */
  lemma CalculateMonotone(p: FeePolicy, a: Money, b: Money)
    requires a.amount <= b.amount && p.Calculate(a).Ok? && p.Calculate(b).Ok?
    ensures p.Calculate(a).value.total.amount <= p.Calculate(b).value.total.amount
  {
    MulBpsMonotone(a, b, p.percentageBps);
  }

  /** round_half_up(fee * part / total) on unbounded integers, narrowed to int64 at the end. */
  function ProRataFee(fee: Money, part: Money, total: Money): Result<Money, FeeError> {
    if fee.currency != part.currency || fee.currency != total.currency then Err(CurrenciesDiffer)
    else if total.amount <= 0 || part.amount <= 0 || fee.amount <= 0 then Ok(Zero(fee.currency))
    else
      var share := if part.amount > total.amount then total.amount else part.amount;
      var num := fee.amount * share;
      var q := num / total.amount;
      var rounded := if (num % total.amount) * 2 >= total.amount then q + 1 else q;
      if IsInt64(rounded) then Ok(Money(rounded, fee.currency)) else Err(BadAmount(Overflow))
  }

  /** Nothing of nothing: without a positive fee, total and part the share is zero; currencies must agree. */
  lemma ProRataOtherwise(fee: Money, part: Money, total: Money)
    ensures fee.currency != part.currency || fee.currency != total.currency ==>
              ProRataFee(fee, part, total) == Err(CurrenciesDiffer)
    ensures fee.currency == part.currency == total.currency
            && (fee.amount <= 0 || total.amount <= 0 || part.amount <= 0) ==>
              ProRataFee(fee, part, total) == Ok(Money(0, fee.currency))
  {
  }

  /** In one currency the share is exact half-up and at most the fee, so the overflow branch is dead. */
  lemma ProRataExact(fee: Money, part: Money, total: Money)
    requires fee.currency == part.currency == total.currency
    ensures ProRataFee(fee, part, total).Ok?
    ensures ProRataFee(fee, part, total).value.currency == fee.currency
    ensures fee.amount > 0 && total.amount > 0 && 0 <= part.amount <= total.amount ==>
              && IsHalfUp(fee.amount * part.amount, total.amount, ProRataFee(fee, part, total).value.amount)
              && 0 <= ProRataFee(fee, part, total).value.amount <= fee.amount
    ensures fee.amount > 0 && 0 < total.amount <= part.amount ==> ProRataFee(fee, part, total).value == fee
  {
    if fee.amount > 0 && total.amount > 0 && part.amount >= 0 {
      var share := if part.amount > total.amount then total.amount else part.amount;
      var num, t := fee.amount * share, total.amount;
      assert 0 <= num <= fee.amount * t by { MulMonotone(share, t, fee.amount); MulMonotone(0, share, fee.amount); }
      RoundIsHalfUp(num, t);
      var q := if (num % t) * 2 >= t then num / t + 1 else num / t;
      HalfUpOfProduct(fee.amount, t);
      RoundIsHalfUp(0, t);
      HalfUpMonotone(num, fee.amount * t, t, q, fee.amount);
      HalfUpMonotone(0, num, t, 0, q);
      if share == t { HalfUpMonotone(fee.amount * t, num, t, fee.amount, q); }
      if part.amount == 0 { assert num == 0; HalfUpMonotone(num, 0, t, q, 0); }
    }
  }

  lemma HalfUpOfProduct(x: int, d: int)
    requires d > 0
    ensures IsHalfUp(x * d, d, x)
  {
    assert 2 * d * x == 2 * (x * d);
  }

  lemma ProRataMonotone(fee: Money, a: Money, b: Money, total: Money)
    requires fee.currency == a.currency == b.currency == total.currency
    requires a.amount <= b.amount
    ensures ProRataFee(fee, a, total).Ok? && ProRataFee(fee, b, total).Ok?
    ensures ProRataFee(fee, a, total).value.amount <= ProRataFee(fee, b, total).value.amount
  {
    ProRataExact(fee, a, total);
    ProRataExact(fee, b, total);
    if fee.amount > 0 && total.amount > 0 && 0 <= a.amount && b.amount <= total.amount {
      MulMonotone(a.amount, b.amount, fee.amount);
      HalfUpMonotone(fee.amount * a.amount, fee.amount * b.amount, total.amount,
                     ProRataFee(fee, a, total).value.amount, ProRataFee(fee, b, total).value.amount);
    }
  }

  function SumAmounts(parts: seq<Money>): int {
    if parts == [] then 0 else parts[0].amount + SumAmounts(parts[1..])
  }

  function SumShares(fee: Money, parts: seq<Money>, total: Money): int
    requires forall i | 0 <= i < |parts| :: ProRataFee(fee, parts[i], total).Ok?
  {
    if parts == [] then 0 else ProRataFee(fee, parts[0], total).value.amount + SumShares(fee, parts[1..], total)
  }

  /** However a total is split into n parts, the shares add up to the fee to within n/2. */
  lemma SharesAddUp(fee: Money, parts: seq<Money>, total: Money)
    requires fee.amount >= 0 && total.amount > 0 && fee.currency == total.currency
    requires forall i | 0 <= i < |parts| :: 0 <= parts[i].amount <= total.amount && parts[i].currency == fee.currency
    requires SumAmounts(parts) == total.amount
    ensures forall i | 0 <= i < |parts| :: ProRataFee(fee, parts[i], total).Ok?
    ensures -|parts| <= 2 * (SumShares(fee, parts, total) - fee.amount) <= |parts|
  {
    SharesWithin(fee, parts, total);
    DivideOut(total.amount, SumShares(fee, parts, total), fee.amount, |parts|);
  }

  /** s is within n/2 of f * a / t. */
  predicate Within(t: int, s: int, f: int, a: int, n: int) {
    -(t * n) <= 2 * t * s - 2 * (f * a) <= t * n
  }

  lemma DivideOut(t: int, s: int, f: int, n: int)
    requires t > 0 && Within(t, s, f, t, n)
    ensures -n <= 2 * (s - f) <= n
  {
    var d := 2 * (s - f);
    assert t * d == 2 * t * s - 2 * (f * t);
    assert t * (n + 1) == t * n + t && t * (-n - 1) == -(t * n) - t;
    if d > n { MulMonotone(n + 1, d, t); }
    if d < -n { MulMonotone(d, -n - 1, t); }
  }

  lemma AddShare(t: int, f: int, p: int, q: int, s: int, a: int, n: int)
    requires Within(t, q, f, p, 1) && Within(t, s, f, a, n - 1)
    ensures Within(t, q + s, f, p + a, n)
  {
    assert 2 * t * (q + s) == 2 * t * q + 2 * t * s;
    assert f * (p + a) == f * p + f * a;
    assert t * n == t * (n - 1) + t;
  }

  lemma ShareWithin(fee: Money, part: Money, total: Money)
    requires fee.amount >= 0 && total.amount > 0 && fee.currency == part.currency == total.currency
    requires 0 <= part.amount <= total.amount
    ensures ProRataFee(fee, part, total).Ok?
    ensures Within(total.amount, ProRataFee(fee, part, total).value.amount, fee.amount, part.amount, 1)
  {
    ProRataExact(fee, part, total);
    if fee.amount == 0 || part.amount == 0 {
      assert fee.amount * part.amount == 0;
    }
  }

  lemma {:induction false} SharesWithin(fee: Money, parts: seq<Money>, total: Money)
    requires fee.amount >= 0 && total.amount > 0 && fee.currency == total.currency
    requires forall i | 0 <= i < |parts| :: 0 <= parts[i].amount <= total.amount && parts[i].currency == fee.currency
    ensures forall i | 0 <= i < |parts| :: ProRataFee(fee, parts[i], total).Ok?
    ensures Within(total.amount, SumShares(fee, parts, total), fee.amount, SumAmounts(parts), |parts|)
  {
    forall i | 0 <= i < |parts| ensures ProRataFee(fee, parts[i], total).Ok? { ShareWithin(fee, parts[i], total); }
    if parts == [] {
    } else {
      SharesWithin(fee, parts[1..], total);
      ShareWithin(fee, parts[0], total);
      AddShare(total.amount, fee.amount, parts[0].amount, ProRataFee(fee, parts[0], total).value.amount,
               SumShares(fee, parts[1..], total), SumAmounts(parts[1..]), |parts|);
    }
  }
}

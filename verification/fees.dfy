/** The commission of `internal/fees`: 50 FCFA per started dollar, capped at the amount. */
module Fees {

  const FEE_PER_USD := 50
  const DEFAULT_USD_RATE := 600

  const GO_MIN: int := -0x8000_0000_0000_0000
  const GO_MAX: int := 0x7FFF_FFFF_FFFF_FFFF
  const INT4_MAX: int := 0x7FFF_FFFF

  /** Go's 64-bit `int`. */
  type GoInt = x: int | GO_MIN <= x <= GO_MAX

  datatype Result = Result(amount: GoInt, fee: GoInt, net: GoInt, rate: GoInt)

  /** Two's complement wrap-around of Go's `int` arithmetic. */
  function Wrap64(x: int): (w: GoInt)
    ensures GO_MIN <= x <= GO_MAX ==> w == x
    ensures (x - w) % 0x1_0000_0000_0000_0000 == 0
  {
    (x - GO_MIN) % 0x1_0000_0000_0000_0000 + GO_MIN
  }

  /** Go's `/` for a positive divisor: it truncates toward zero. */
  function Quo(a: int, b: int): (q: int)
    requires 0 < b
    ensures 0 <= a ==> q * b <= a < (q + 1) * b
    ensures a < 0 ==> (q - 1) * b < a <= q * b
  {
    if 0 <= a then a / b else -((-a) / b)
  }

  /** The process-wide rate: `NewPaymentHandler` replaces a non-positive rate. */
  function EffectiveRate(usdRate: GoInt): (r: GoInt)
    ensures 0 < r
  {
    if usdRate <= 0 then DEFAULT_USD_RATE else usdRate
  }

  /** `fees.Compute`, with the wrap-around of 64-bit arithmetic written out. */
  function Compute(amountCFA: GoInt, usdRate: GoInt): Result
  {
    var rate := EffectiveRate(usdRate);
    if amountCFA <= 0 then
      Result(amountCFA, 0, amountCFA, rate)
    else
      var started := Quo(Wrap64(Wrap64(amountCFA + rate) - 1), rate);
      var dollars := if started < 1 then 1 else started;
      var charged := Wrap64(dollars * FEE_PER_USD);
      var fee := if charged > amountCFA then amountCFA else charged;
      Result(amountCFA, fee, Wrap64(amountCFA - fee), rate)
  }

  /** The number of dollars started by `amount`: the least d with amount <= d * rate. */
  function StartedDollars(amount: int, rate: int): (d: nat)
    requires 0 < amount && 0 < rate
    ensures 1 <= d && (d - 1) * rate < amount <= d * rate
  {
    (amount + rate - 1) / rate
  }

  /** What the tariff promises, over unbounded integers. */
  function Commission(amount: int, rate: int): (fee: int)
    requires 0 < amount && 0 < rate
    ensures 0 < fee <= amount
  {
    var full := FEE_PER_USD * StartedDollars(amount, rate);
    if full > amount then amount else full
  }

  lemma {:induction false} MulMono(x: int, y: int, r: int)
    requires 0 <= r
    ensures x <= y ==> x * r <= y * r
  {
    if x <= y {
      assert 0 <= (y - x) * r == y * r - x * r;
    }
  }

  /** `StartedDollars` is pinned down by its two inequalities. */
  lemma {:induction false} StartedUnique(amount: int, rate: int, d: int)
    requires 0 < amount && 0 < rate
    requires (d - 1) * rate < amount <= d * rate
    ensures d == StartedDollars(amount, rate)
  {
    var e := StartedDollars(amount, rate);
    MulMono(d, e - 1, rate);
    MulMono(e, d - 1, rate);
  }

  /** The truncating quotient of `Compute` is the number of started dollars. */
  lemma {:induction false} QuoIsStarted(amount: int, rate: int)
    requires 0 < amount && 0 < rate
    ensures Quo(amount + rate - 1, rate) == StartedDollars(amount, rate) <= amount
  {
    var q := Quo(amount + rate - 1, rate);
    assert (q - 1) * rate == q * rate - rate;
    assert (q + 1) * rate == q * rate + rate;
    StartedUnique(amount, rate, q);
    MulMono(1, rate, q - 1);
  }

  /** Adding in one go or in two steps wraps to the same word. */
  lemma {:induction false} WrapSum(amount: GoInt, rate: GoInt)
    requires 0 < amount && 0 < rate
    ensures Wrap64(Wrap64(amount + rate) - 1) ==
            if amount + rate - 1 <= GO_MAX then amount + rate - 1 else amount + rate - 1 - 0x1_0000_0000_0000_0000
  {
  }

  /** The dollars the code counts: one when the sum has wrapped to a negative number. */
  lemma {:induction false} CountedDollars(amount: GoInt, rate: GoInt)
    requires 0 < amount && 0 < rate
    ensures var q := Quo(Wrap64(Wrap64(amount + rate) - 1), rate);
            if amount + rate - 1 <= GO_MAX then q == StartedDollars(amount, rate) else q < 1
  {
    WrapSum(amount, rate);
    if amount + rate - 1 <= GO_MAX {
      QuoIsStarted(amount, rate);
    } else {
      var x := Wrap64(Wrap64(amount + rate) - 1);
      MulMono(1, Quo(x, rate), rate);
    }
  }

  /** The amounts and rates on which 64-bit arithmetic charges the tariff: the first sum does not wrap and
      the product does not either, or wraps to no less than the amount; or the first sum wraps, and the
      amount is worth one dollar anyway. */
  predicate ChargesTariff(amount: GoInt, rate: GoInt)
    requires 0 < amount && 0 < rate
  {
    var full := FEE_PER_USD * StartedDollars(amount, rate);
    if amount + rate - 1 <= GO_MAX then full <= GO_MAX || amount <= Wrap64(full) else amount <= rate
  }

  lemma {:induction false} OneDollarExactly(amount: int, rate: int)
    requires 0 < amount && 0 < rate
    ensures StartedDollars(amount, rate) == 1 <==> amount <= rate
  {
    var d := StartedDollars(amount, rate);
    if d != 1 { MulMono(1, d - 1, rate); }
  }

  /** For every amount and rate of the code's own type: the fee is the tariff's exactly when `ChargesTariff`
      says so, and then fee and net split the amount; a non-positive amount is free. */
  lemma {:induction false} ComputeExactly(amount: GoInt, usdRate: GoInt)
    ensures var r := Compute(amount, usdRate);
            && r.amount == amount && r.rate == (if 0 < usdRate then usdRate else 600)
            && (amount <= 0 ==> r.fee == 0 && r.net == amount)
            && (0 < amount ==> (r.fee == Commission(amount, r.rate) <==> ChargesTariff(amount, r.rate)))
            && (0 < amount && ChargesTariff(amount, r.rate) ==> r.fee + r.net == amount && 0 < r.fee <= amount)
  {
    if 0 < amount {
      CountedDollars(amount, EffectiveRate(usdRate));
      OneDollarExactly(amount, EffectiveRate(usdRate));
    }
  }

  /** What a PostgreSQL INTEGER column can hold is charged by the tariff. */
  lemma {:induction false} ComputeIsCommission(amount: GoInt, usdRate: GoInt)
    requires amount <= INT4_MAX && usdRate <= INT4_MAX
    ensures var r := Compute(amount, usdRate);
            && r.amount == amount && r.rate == (if 0 < usdRate then usdRate else 600)
            && r.fee + r.net == amount
            && r.fee == (if amount <= 0 then 0 else Commission(amount, r.rate))
            && (0 < amount ==> 0 < r.fee <= amount && 0 <= r.net < amount)
  {
    ComputeExactly(amount, usdRate);
    if 0 < amount {
      QuoIsStarted(amount, EffectiveRate(usdRate));
    }
  }

  /** An amount the code charges one dollar for, where the tariff caps at the amount. */
  lemma {:induction false} ComputeOverflows()
    ensures !ChargesTariff(GO_MAX, 2)
    ensures Compute(GO_MAX, 2).fee == FEE_PER_USD
    ensures Commission(GO_MAX, 2) == GO_MAX
  {
    ComputeExactly(GO_MAX, 2);
  }

  /** The uncapped fee is the exact ratio rounded up to the next 50. */
  lemma {:induction false} FeeBounds(amount: int, rate: int)
    requires 0 < amount && 0 < rate
    ensures Commission(amount, rate) < amount ==>
              FEE_PER_USD * amount <= Commission(amount, rate) * rate < FEE_PER_USD * amount + FEE_PER_USD * rate
    ensures Commission(amount, rate) % FEE_PER_USD == 0 || Commission(amount, rate) == amount
  {
    var d := StartedDollars(amount, rate);
    assert (FEE_PER_USD * d) * rate == FEE_PER_USD * (d * rate);
    assert (d - 1) * rate == d * rate - rate;
  }

  lemma {:induction false} StartedMonotone(a: int, b: int, rate: int)
    requires 0 < a <= b && 0 < rate
    ensures StartedDollars(a, rate) <= StartedDollars(b, rate)
  {
    MulMono(StartedDollars(b, rate), StartedDollars(a, rate) - 1, rate);
  }

  lemma {:induction false} FeeMonotoneInAmount(a: int, b: int, rate: int)
    requires 0 < a <= b && 0 < rate
    ensures Commission(a, rate) <= Commission(b, rate)
  {
    StartedMonotone(a, b, rate);
  }

  lemma {:induction false} FeeAntitoneInRate(amount: int, low: int, high: int)
    requires 0 < amount && 0 < low <= high
    ensures Commission(amount, high) <= Commission(amount, low)
  {
    var d, e := StartedDollars(amount, low), StartedDollars(amount, high);
    MulMono(low, high, d);
    MulMono(d, e - 1, high);
  }

  /** An amount past its first dollar is worth more than the fee, from 100 FCFA per dollar on. */
  lemma {:induction false} FeeBelowAmount(amount: int, rate: int)
    requires 0 < amount && 2 * FEE_PER_USD <= rate
    ensures 2 <= StartedDollars(amount, rate) ==> FEE_PER_USD * StartedDollars(amount, rate) < amount
  {
    MulMono(100, rate, StartedDollars(amount, rate) - 1);
  }

  /** From 50 FCFA on, and at 100 FCFA per dollar or more, the cap never bites. */
  lemma {:induction false} Uncapped(amount: int, rate: int)
    requires FEE_PER_USD <= amount && 2 * FEE_PER_USD <= rate
    ensures Commission(amount, rate) == FEE_PER_USD * StartedDollars(amount, rate)
  {
    FeeBelowAmount(amount, rate);
  }

  lemma {:induction false} NetZeroExactly(amount: int, rate: int)
    requires 0 < amount && 2 * FEE_PER_USD <= rate
    ensures amount - Commission(amount, rate) == 0 <==> amount <= FEE_PER_USD
  {
    FeeBelowAmount(amount, rate);
    StartedUnique(if amount <= FEE_PER_USD then amount else rate, rate, 1);
  }

  /** 100 FCFA per dollar is the exact threshold: below it some amount over 50 is eaten whole. */
  lemma {:induction false} NetPositiveThreshold(rate: int)
    requires 0 < rate
    ensures (forall amount :: FEE_PER_USD < amount ==> Commission(amount, rate) < amount) <==> 2 * FEE_PER_USD <= rate
  {
    if 2 * FEE_PER_USD <= rate {
      forall amount | FEE_PER_USD < amount ensures Commission(amount, rate) < amount {
        NetZeroExactly(amount, rate);
      }
    } else {
      MulMono(StartedDollars(100, rate), 1, rate);
      assert Commission(100, rate) == 100;
    }
  }

  // --- Splitting a payment -------------------------------------------------

  function Sum(parts: seq<int>): int
  {
    if |parts| == 0 then 0 else parts[0] + Sum(parts[1..])
  }

  function SumCommission(parts: seq<int>, rate: int): int
    requires 0 < rate && forall i :: 0 <= i < |parts| ==> 0 < parts[i]
  {
    if |parts| == 0 then 0 else Commission(parts[0], rate) + SumCommission(parts[1..], rate)
  }

  lemma {:induction false} StartedOfSum(a: int, b: int, rate: int)
    requires 0 < a && 0 < b && 0 < rate
    ensures StartedDollars(a + b, rate) <= StartedDollars(a, rate) + StartedDollars(b, rate)
            <= StartedDollars(a + b, rate) + 1
  {
    var d, e, f := StartedDollars(a, rate), StartedDollars(b, rate), StartedDollars(a + b, rate);
    StartedSumArith(d, e, f, a, b, rate);
  }

  lemma {:induction false} StartedSumArith(d: int, e: int, f: int, a: int, b: int, rate: int)
    requires 0 < rate
    requires (d - 1) * rate < a <= d * rate
    requires (e - 1) * rate < b <= e * rate
    requires (f - 1) * rate < a + b <= f * rate
    ensures f <= d + e <= f + 1
  {
    assert (d + e) * rate == d * rate + e * rate;
    assert (d + e - 2) * rate == (d - 1) * rate + (e - 1) * rate;
    MulMono(d + e, f - 1, rate);
    MulMono(f, d + e - 2, rate);
  }

  /** Splitting never lowers the commission and costs at most one started dollar per cut. */
  lemma {:induction false} SplitNeverCheaper(parts: seq<int>, rate: int)
    requires 1 <= |parts| && 2 * FEE_PER_USD <= rate
    requires forall i :: 0 <= i < |parts| ==> FEE_PER_USD <= parts[i]
    ensures FEE_PER_USD <= Sum(parts)
    ensures Commission(Sum(parts), rate) <= SumCommission(parts, rate)
    ensures SumCommission(parts, rate) <= Commission(Sum(parts), rate) + FEE_PER_USD * (|parts| - 1)
  {
    if |parts| == 1 {
      assert Sum(parts[1..]) == 0 && SumCommission(parts[1..], rate) == 0;
    } else {
      SplitNeverCheaper(parts[1..], rate);
      var a, b := parts[0], Sum(parts[1..]);
      Uncapped(a, rate);
      Uncapped(b, rate);
      Uncapped(a + b, rate);
      StartedOfSum(a, b, rate);
    }
  }

  /** One cut in two, for parts of any size: it saves nothing exactly when the smaller part reaches the
      50 FCFA minimum, or neither part does, or the smaller part starts no dollar of its own. */
  lemma {:induction false} CutNeverCheaperExactly(a: int, b: int, rate: int)
    requires 0 < a <= b && 2 * FEE_PER_USD <= rate
    ensures Commission(a + b, rate) <= Commission(a, rate) + Commission(b, rate)
            <==> FEE_PER_USD <= a || b < FEE_PER_USD || StartedDollars(a + b, rate) == StartedDollars(b, rate)
  {
    StartedOfSum(a, b, rate);
    StartedMonotone(b, a + b, rate);
    SmallPart(a, rate);
    if FEE_PER_USD <= b {
      Uncapped(b, rate);
      Uncapped(a + b, rate);
    } else {
      SmallPart(b, rate);
    }
    if FEE_PER_USD <= a { Uncapped(a, rate); }
  }

  /** Below the minimum the commission is the whole amount. */
  lemma {:induction false} SmallPart(a: int, rate: int)
    requires 0 < a && 2 * FEE_PER_USD <= rate
    ensures a <= FEE_PER_USD ==> StartedDollars(a, rate) == 1 && Commission(a, rate) == a
  {
    OneDollarExactly(a, rate);
  }

  lemma {:induction false} SplitCheaperBelowMinimum()
    ensures SumCommission([600, 40], 600) == 90 < 100 == Commission(Sum([600, 40]), 600)
  {
    assert SumCommission([600, 40][1..], 600) == Commission(40, 600) + SumCommission([], 600);
    assert Sum([600, 40][1..]) == 40 + Sum([]);
  }
}

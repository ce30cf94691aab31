/** Exponential delays in nanoseconds, over the reals; the random sample of the
    jitter is a parameter in [0, 1). */
module Backoff {
  import opened RetryAfter

  const DEFAULT_BASE: int := 250_000_000
  const DEFAULT_FACTOR: real := 1.5

  datatype Exponential = Exponential(base: int, factor: real, jitter: real, limit: int)

  function Pow(f: real, n: nat): real {
    if n == 0 then 1.0 else Pow(f, n - 1) * f
  }

  function Base(e: Exponential): (b: int)
    ensures b > 0
  {
    if e.base > 0 then e.base else DEFAULT_BASE
  }

  function Factor(e: Exponential): (f: real)
    ensures f > 0.0
  {
    if e.factor > 0.0 then e.factor else DEFAULT_FACTOR
  }

  function Limit(e: Exponential): (l: int)
    ensures l > 0
  {
    if e.limit > 0 then e.limit else MAX_INT64
  }

  /** The delay before clamping and jitter. */
  function Nominal(e: Exponential, i: nat): real
    requires i >= 1
  {
    Base(e) as real * Pow(Factor(e), i - 1)
  }

  predicate Jittered(e: Exponential) {
    0.0 < e.jitter < 1.0
  }

  function Jitter(x: real, j: real, sample: real): real {
    x + x * j * 2.0 * (sample - 0.5)
  }

  function Delay(e: Exponential, i: nat, sample: real): int {
    if i == 0 then 0
    else
      var x := Nominal(e, i);
      if x >= Limit(e) as real then Limit(e)
      else
        var y := if Jittered(e) then Jitter(x, e.jitter, sample) else x;
        if y >= Limit(e) as real then Limit(e) else y.Floor
  }

  predicate Sample(u: real) {
    0.0 <= u < 1.0
  }

  lemma {:induction false} PowPositive(f: real, n: nat)
    requires f > 0.0
    ensures Pow(f, n) > 0.0
  {
    if n > 0 {
      PowPositive(f, n - 1);
    }
  }

  lemma NominalPositive(e: Exponential, i: nat)
    requires i >= 1
    ensures Nominal(e, i) > 0.0
  {
    PowPositive(Factor(e), i - 1);
  }

  lemma NominalGrows(e: Exponential, i: nat)
    requires i >= 1 && Factor(e) >= 1.0
    ensures Nominal(e, i) <= Nominal(e, i + 1)
  {
    PowPositive(Factor(e), i - 1);
    var p, f, b := Pow(Factor(e), i - 1), Factor(e), Base(e) as real;
    assert Pow(Factor(e), i) == p * f;
    assert p * f - p == p * (f - 1.0) >= 0.0;
    assert b * (p * f) - b * p == b * (p * f - p) >= 0.0;
  }

  function Low(x: real, j: real): real {
    x * (1.0 - j)
  }

  function High(x: real, j: real): real {
    x * (1.0 + j)
  }

  lemma JitterBounds(x: real, j: real, u: real)
    requires x > 0.0 && 0.0 < j < 1.0 && Sample(u)
    ensures 0.0 < Low(x, j) < x < High(x, j)
    ensures Low(x, j) <= Jitter(x, j, u) < High(x, j)
  {
    var a := x * j;
    var w := 2.0 * u - 1.0;
    assert a > 0.0 && Low(x, j) == x - a && High(x, j) == x + a;
    var c := 1.0 - j;
    assert x * c > 0.0 && x * c == x - a;
    assert Jitter(x, j, u) == x + a * w by {
      assert x * j * 2.0 * (u - 0.5) == a * (2.0 * (u - 0.5));
    }
    assert a * (w + 1.0) >= 0.0;
    assert a * (1.0 - w) > 0.0;
  }

  function Cut(e: Exponential, x: real): int {
    if x >= Limit(e) as real then Limit(e) else x.Floor
  }

  lemma CutMonotone(e: Exponential, x: real, y: real)
    requires 0.0 <= x <= y
    ensures 0 <= Cut(e, x) <= Cut(e, y) <= Limit(e)
  {
  }

  lemma JitteredDelay(e: Exponential, i: nat, u: real, low: real, high: real)
    requires i >= 1 && Jittered(e)
    requires 0.0 <= low <= Nominal(e, i) <= high
    requires low <= Jitter(Nominal(e, i), e.jitter, u) <= high
    ensures Cut(e, low) <= Delay(e, i, u) <= Cut(e, high)
  {
    var x, y := Nominal(e, i), Jitter(Nominal(e, i), e.jitter, u);
    CutMonotone(e, low, y);
    CutMonotone(e, y, high);
    assert Delay(e, i, u) == if x >= Limit(e) as real then Limit(e) else Cut(e, y);
  }

  /** Every delay lies in [0, limit], and within the jitter's share of the
      nominal delay, cut at the limit; without jitter it is that delay cut. */
  lemma DelayBounds(e: Exponential, i: nat, u: real)
    requires Sample(u)
    ensures 0 <= Delay(e, i, u) <= Limit(e)
    ensures i >= 1 && !Jittered(e) ==> Delay(e, i, u) == Cut(e, Nominal(e, i))
    ensures i >= 1 && Jittered(e) ==>
              Cut(e, Low(Nominal(e, i), e.jitter)) <= Delay(e, i, u) <= Cut(e, High(Nominal(e, i), e.jitter))
  {
    if i >= 1 {
      NominalPositive(e, i);
      var x := Nominal(e, i);
      if Jittered(e) {
        JitterBounds(x, e.jitter, u);
        var low, high := Low(x, e.jitter), High(x, e.jitter);
        JitteredDelay(e, i, u, low, high);
        CutMonotone(e, low, high);
      } else {
        CutMonotone(e, x, x);
      }
    }
  }

  lemma Mixed(x: real, j: real, u: real)
    ensures x * ((1.0 - j) * (1.0 - u) + (1.0 + j) * u) == Jitter(x, j, u)
    ensures j == 0.0 ==> Jitter(x, j, u) == x
  {
    var a, b := j * u, x * j;
    assert (1.0 - j) * (1.0 - u) == 1.0 - u - j + a;
    assert (1.0 + j) * u == u + a;
    assert x * (1.0 - j + 2.0 * a) == x - b + 2.0 * (x * a);
    assert x * a == b * u;
    assert b * 2.0 * (u - 0.5) == 2.0 * (b * u) - b;
  }

  /** The sample decides where in the share a delay lies: the lower end for 0, the
      nominal delay for one half, the upper end towards 1; and a jitter outside
      (0, 1) is none. What is not below the limit is the limit. */
  lemma JitterExact(e: Exponential, i: nat, u: real)
    requires i >= 1 && Sample(u)
    ensures var x, l := Nominal(e, i), Limit(e) as real;
            var j := if 0.0 < e.jitter < 1.0 then e.jitter else 0.0;
            var y := x * ((1.0 - j) * (1.0 - u) + (1.0 + j) * u);
            Delay(e, i, u) == if x >= l || y >= l then Limit(e) else y.Floor
  {
    hide Nominal, Jitter;
    var x := Nominal(e, i);
    if 0.0 < e.jitter < 1.0 {
      Mixed(x, e.jitter, u);
    } else {
      Mixed(x, 0.0, u);
    }
  }

  /** With a factor of at least one, the unjittered delays never shrink. */
  lemma {:induction false} DelayMonotone(e: Exponential, i: nat, k: nat, u: real, v: real)
    requires i <= k && Factor(e) >= 1.0 && !Jittered(e) && Sample(u) && Sample(v)
    ensures Delay(e, i, u) <= Delay(e, k, v)
  {
    DelayBounds(e, i, u);
    DelayBounds(e, k, v);
    if 1 <= i < k {
      DelayMonotone(e, i, k - 1, u, v);
      DelayBounds(e, k - 1, v);
      NominalGrows(e, k - 1);
    }
  }

  /** Once the nominal delay has reached the limit, every later delay is the
      limit, whatever the samples. */
  lemma {:induction false} DelaySaturates(e: Exponential, i: nat, k: nat, u: real)
    requires 1 <= i <= k && Factor(e) >= 1.0
    requires Nominal(e, i) >= Limit(e) as real
    ensures Nominal(e, k) >= Limit(e) as real && Delay(e, k, u) == Limit(e)
  {
    if i < k {
      DelaySaturates(e, i, k - 1, u);
      NominalGrows(e, k - 1);
    }
  }

  /** The nominal delays: the base first, then a factor more each time; no delay
      ahead of the first attempt; and what stands in for settings left out or
      not positive, the longest duration there is for a limit. */
  lemma NominalMeaning(e: Exponential, i: nat, u: real)
    requires Sample(u)
    ensures Delay(e, 0, u) == 0
    ensures Nominal(e, 1) == (if e.base > 0 then e.base else 250_000_000) as real
    ensures i >= 1 ==> Nominal(e, i + 1) == Nominal(e, i) * (if e.factor > 0.0 then e.factor else 1.5)
    ensures Limit(e) == if e.limit > 0 then e.limit else 0x7fff_ffff_ffff_ffff
  {
    if i >= 1 {
      var b, p, f := Base(e) as real, Pow(Factor(e), i - 1), Factor(e);
      assert b * (p * f) == (b * p) * f;
    }
  }

  // ---------- the client's own settings ----------

  const MILLISECOND: int := 1_000_000

  function ClientBackoff(): Exponential {
    Exponential(150 * MILLISECOND, 3.0, 0.25, 5 * SECOND)
  }

  lemma ClientNominals()
    ensures Nominal(ClientBackoff(), 1) == 150_000_000.0
    ensures Nominal(ClientBackoff(), 2) == 450_000_000.0
    ensures Nominal(ClientBackoff(), 3) == 1_350_000_000.0
    ensures Nominal(ClientBackoff(), 4) == 4_050_000_000.0
  {
    assert Pow(3.0, 0) == 1.0;
    assert Pow(3.0, 1) == 3.0;
    assert Pow(3.0, 2) == 9.0;
    assert Pow(3.0, 3) == 27.0;
  }

  /** The four waits between five attempts last at least 4.5s and at most
      7.4375s in all, the last one being cut at 5s. */
  lemma ClientTotalWait(u0: real, u1: real, u2: real, u3: real, u4: real)
    requires Sample(u1) && Sample(u2) && Sample(u3) && Sample(u4)
    ensures var e := ClientBackoff();
            4500 * MILLISECOND
            <= Delay(e, 0, u0) + Delay(e, 1, u1) + Delay(e, 2, u2) + Delay(e, 3, u3) + Delay(e, 4, u4)
            <= 7_437_500_000
  {
    ClientNominals();
    var e := ClientBackoff();
    DelayBounds(e, 1, u1);
    DelayBounds(e, 2, u2);
    DelayBounds(e, 3, u3);
    DelayBounds(e, 4, u4);
  }
}

/** The capped exponential delay, over the reals. */
module Backoff {
  import opened Wrappers

  /** A factor as a caller may give it: a number, or an infinity or NaN. */
  datatype Factor = Finite(value: real) | NotFinite

  const I32_MAX: nat := 0x7fff_ffff

  function Min(a: real, b: real): real {
    if a <= b then a else b
  }

  function NormalizedFactor(f: Factor): (r: real)
    ensures r >= 1.0
  {
    if f.Finite? && f.value > 1.0 then f.value else 1.0
  }

  function FixedBackoff(base: real, factor: real, n: nat, cap: real): Option<real> {
    if factor == 1.0 || n == 0 then Some(Min(base, cap)) else None
  }

  function Power(f: real, n: nat): real {
    if n == 0 then 1.0 else f * Power(f, n - 1)
  }

  function Delay(base: real, power: real): real {
    base * power
  }

  function Clamped(n: nat): nat {
    if n <= I32_MAX then n else I32_MAX
  }

  /** Durations are seconds. */
  function CappedExponential(base: real, f: Factor, n: nat, cap: real): real
    requires base >= 0.0 && cap >= 0.0
  {
    if base == 0.0 then 0.0
    else
      var factor := NormalizedFactor(f);
      var still := FixedBackoff(base, factor, n, cap);
      if still.Some? then still.value
      else
        Min(Delay(base, Power(factor, Clamped(n))), cap)
  }

  lemma Scale(f: real, a: real, b: real)
    requires f > 0.0 && a <= b
    ensures f * a <= f * b && (a < b ==> f * a < f * b)
  {
  }

  /** One more factor never shrinks a power, and grows it if the factor is more than one. */
  lemma {:induction false} PowerStep(f: real, n: nat)
    requires f >= 1.0
    ensures 1.0 <= Power(f, n) <= Power(f, n + 1)
    ensures f > 1.0 ==> Power(f, n) < Power(f, n + 1)
    ensures f == 1.0 ==> Power(f, n) == 1.0
  {
    if n > 0 {
      PowerStep(f, n - 1);
      Scale(f, Power(f, n - 1), Power(f, n));
    }
  }

  lemma {:induction false} PowerGrows(f: real, m: nat, n: nat)
    requires f >= 1.0 && m <= n
    ensures 1.0 <= Power(f, m) <= Power(f, n)
    ensures f > 1.0 && m < n ==> Power(f, m) < Power(f, n)
    decreases n
  {
    PowerStep(f, m);
    if m < n {
      PowerGrows(f, m, n - 1);
      PowerStep(f, n - 1);
    }
  }

  /** The delay the documentation promises. */
  function Promised(base: real, f: Factor, n: nat, cap: real): real {
    Min(Delay(base, Power(NormalizedFactor(f), n)), cap)
  }

  lemma DelayGrows(base: real, p: real, q: real)
    requires base >= 0.0 && 1.0 <= p <= q
    ensures base <= Delay(base, p) <= Delay(base, q)
    ensures base > 0.0 && p < q ==> Delay(base, p) < Delay(base, q)
    ensures base == 0.0 ==> Delay(base, p) == 0.0
  {
  }

  /** The shortcuts for a zero base and for fixed back-off agree with the clamped formula. */
  lemma Closed(base: real, f: Factor, n: nat, cap: real)
    requires base >= 0.0 && cap >= 0.0
    ensures CappedExponential(base, f, n, cap) == Promised(base, f, Clamped(n), cap)
  {
    var g := NormalizedFactor(f);
    PowerStep(g, Clamped(n));
    DelayGrows(base, Power(g, Clamped(n)), Power(g, Clamped(n)));
  }

  /** Only an exponent past the clamp, while the delay is still below the cap, breaks the formula. */
  lemma CappedExponentialIff(base: real, f: Factor, n: nat, cap: real)
    requires base >= 0.0 && cap >= 0.0
    ensures CappedExponential(base, f, n, cap) == Promised(base, f, n, cap) <==>
              || n <= I32_MAX || base == 0.0 || NormalizedFactor(f) == 1.0
              || Delay(base, Power(NormalizedFactor(f), I32_MAX)) >= cap
  {
    Closed(base, f, n, cap);
    if n > I32_MAX {
      var g := NormalizedFactor(f);
      PowerGrows(g, I32_MAX, n);
      PowerStep(g, n);
      DelayGrows(base, Power(g, I32_MAX), Power(g, n));
    }
  }

  lemma PromisedGrows(base: real, f: Factor, a: nat, b: nat, cap: real)
    requires base >= 0.0 && cap >= 0.0 && a <= b
    ensures Min(base, cap) <= Promised(base, f, a, cap) <= Promised(base, f, b, cap) <= cap
  {
    var g := NormalizedFactor(f);
    var p, q := Power(g, a), Power(g, b);
    PowerGrows(g, a, b);
    DelayGrows(base, p, q);
    assert base <= Delay(base, p) <= Delay(base, q);
  }

  /** A later attempt never waits less, and none waits more than the cap. */
  lemma CappedExponentialGrows(base: real, f: Factor, m: nat, n: nat, cap: real)
    requires base >= 0.0 && cap >= 0.0 && m <= n
    ensures Min(base, cap) <= CappedExponential(base, f, m, cap) <= CappedExponential(base, f, n, cap) <= cap
  {
    Closed(base, f, m, cap);
    Closed(base, f, n, cap);
    PromisedGrows(base, f, Clamped(m), Clamped(n), cap);
  }

  /** Doubling from 100 ms, say: below the cap the delay is base times the factor to the n-th. */
  lemma GrowsByFactor(base: real, factor: real, n: nat, cap: real)
    requires base >= 0.0 && cap >= 0.0 && factor > 1.0 && n <= 2_147_483_647
    ensures CappedExponential(base, Finite(factor), n, cap)
            == if Delay(base, Power(factor, n)) <= cap then Delay(base, Power(factor, n)) else cap
    ensures n > 0 ==> Delay(base, Power(factor, n)) == factor * Delay(base, Power(factor, n - 1))
  {
    Closed(base, Finite(factor), n, cap);
    if n > 0 {
      assert base * (factor * Power(factor, n - 1)) == factor * (base * Power(factor, n - 1));
    }
  }

  /** Past the clamp the exponent stands still. */
  lemma ClampStandsStill(base: real, f: Factor, n: nat, cap: real)
    requires base >= 0.0 && cap >= 0.0 && n >= 2_147_483_647
    ensures CappedExponential(base, f, n, cap) == CappedExponential(base, f, 2_147_483_647, cap)
  {
    Closed(base, f, n, cap);
    Closed(base, f, 2_147_483_647, cap);
  }

  /** A factor that is no number, or not above one, leaves the base, capped. */
  lemma NeverShrinks(base: real, f: Factor, n: nat, cap: real)
    requires base >= 0.0 && cap >= 0.0 && (f.Finite? ==> f.value <= 1.0)
    ensures CappedExponential(base, f, n, cap) == if base <= cap then base else cap
  {
    Closed(base, f, n, cap);
    PowerStep(1.0, Clamped(n));
  }
}

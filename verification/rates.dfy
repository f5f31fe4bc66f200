/** Multiplicative decay of a learning rate: a rate multiplied by the same
    factor after every step, and the closed form of n such steps. */
module Rates {

  /** x raised to the n-th power. */
  function Pow(x: real, n: nat): real
  {
    if n == 0 then 1.0 else Pow(x, n - 1) * x
  }

  /** A rate after n multiplicative decays by k. */
  function Decayed(x: real, k: real, n: nat): real
  {
    if n == 0 then x else Decayed(x, k, n - 1) * k
  }

  /** Multiplying by a product step by step or at once gives the same. */
  lemma MulAssoc(x: real, p: real, k: real)
    ensures (x * p) * k == x * (p * k)
  {
  }

  /** n decays by k scale the starting rate by k to the n-th power. */
  lemma {:induction false} DecayedIsPower(x: real, k: real, n: nat)
    ensures Decayed(x, k, n) == x * Pow(k, n)
  {
    if n > 0 {
      DecayedIsPower(x, k, n - 1);
      MulAssoc(x, Pow(k, n - 1), k);
    }
  }

  /** Applies `step` once per element of `ds`, in order, starting from `s`. */
  function Iterate<S, D>(step: (S, D) -> S, s: S, ds: seq<D>): S
    decreases |ds|
  {
    if |ds| == 0 then s else step(Iterate(step, s, ds[..|ds| - 1]), ds[|ds| - 1])
  }

  /** If every step multiplies `rate` by `factor` and leaves `factor` alone,
      then after n steps the rate has been multiplied by the factor n times. */
  lemma {:induction false} IterateDecays<S, D>(
    step: (S, D) -> S, rate: S -> real, factor: S -> real, s: S, ds: seq<D>)
    requires forall t, d :: factor(step(t, d)) == factor(t)
    requires forall t, d :: rate(step(t, d)) == rate(t) * factor(t)
    ensures factor(Iterate(step, s, ds)) == factor(s)
    ensures rate(Iterate(step, s, ds)) == Decayed(rate(s), factor(s), |ds|)
    decreases |ds|
  {
    if |ds| > 0 {
      IterateDecays(step, rate, factor, s, ds[..|ds| - 1]);
    }
  }
}

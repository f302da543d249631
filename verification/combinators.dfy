/** The arithmetic the combinator nodes perform on the values they read:
    summation, multiplication and the mux selector rounding. Values are
    modelled as reals; floating-point rounding is not modelled. */
module Combinators {

  /** `sum::process`: accumulate from 0, left to right. */
  function SumOf(xs: seq<real>): (r: real)
    ensures (forall k :: 0 <= k < |xs| ==> xs[k] >= 0.0) ==> r >= 0.0
    ensures (forall k :: 0 <= k < |xs| ==> xs[k] <= 0.0) ==> r <= 0.0
  {
    if |xs| == 0 then 0.0 else SumOf(xs[..|xs| - 1]) + xs[|xs| - 1]
  }

  /** `mul::process`: accumulate from 1, left to right. */
  function ProductOf(xs: seq<real>): (r: real)
    ensures (forall k :: 0 <= k < |xs| ==> xs[k] >= 0.0) ==> r >= 0.0
  {
    if |xs| == 0 then 1.0 else ProductOf(xs[..|xs| - 1]) * xs[|xs| - 1]
  }

  /** A sum of zeros is 0; a product with a zero factor is 0, and the
      empty product is 1. */
  lemma {:induction false} NeutralInputs(xs: seq<real>)
    requires forall k :: 0 <= k < |xs| ==> xs[k] == 0.0
    ensures SumOf(xs) == 0.0
    ensures ProductOf(xs) == (if |xs| == 0 then 1.0 else 0.0)
    decreases |xs|
  {
    if |xs| > 0 {
      NeutralInputs(xs[..|xs| - 1]);
    }
  }

  /** The accumulating loop of sum can be split anywhere: folding xs + ys
      is folding ys on from the result of folding xs. */
  lemma {:induction false} SumSplits(xs: seq<real>, ys: seq<real>)
    ensures SumOf(xs + ys) == SumOf(xs) + SumOf(ys)
    decreases |ys|
  {
    if |ys| > 0 {
      var k := |ys| - 1;
      var zs := xs + ys;
      assert zs[..|zs| - 1] == xs + ys[..k] && zs[|zs| - 1] == ys[k];
      SumSplits(xs, ys[..k]);
    } else {
      assert xs + ys == xs;
    }
  }

  /** The same for the loop of mul. */
  lemma {:induction false} ProductSplits(xs: seq<real>, ys: seq<real>)
    ensures ProductOf(xs + ys) == ProductOf(xs) * ProductOf(ys)
    decreases |ys|
  {
    if |ys| > 0 {
      var k := |ys| - 1;
      var zs := xs + ys;
      var init := ys[..k];
      var r := ys[k];
      assert zs[..|zs| - 1] == xs + init && zs[|zs| - 1] == r;
      assert ys[..|ys| - 1] == init;
      ProductSplits(xs, init);
      var p := ProductOf(xs);
      var q := ProductOf(init);
      var w := ProductOf(xs + init);
      assert w == p * q;
      assert ProductOf(zs) == w * r;
      assert ProductOf(ys) == q * r;
      MulAssoc(p, q, r);
    } else {
      assert xs + ys == xs;
    }
  }
  lemma MulAssoc(p: real, q: real, r: real)
    ensures (p * q) * r == p * (q * r)
  {
  }

  /** The C++ conversion `int(x)`: truncation toward zero. */
  function Trunc(x: real): (t: int)
    ensures x >= 0.0 ==> t as real <= x < t as real + 1.0
    ensures x < 0.0 ==> t as real - 1.0 < x <= t as real
  {
    if x >= 0.0 then x.Floor else -((-x).Floor)
  }

  /** The input index `mux::process` reads for selector value `sel` on a
      mux with n inputs: min(n-1, max(1, int(sel+0.5))). */
  function MuxIndex(n: nat, sel: real): (k: nat)
    requires n >= 1
    ensures k < n
    ensures n >= 2 ==> 1 <= k
  {
    var t := Trunc(sel + 0.5);
    var clamped := if t < 1 then 1 else t;
    if n - 1 < clamped then n - 1 else clamped
  }

  /** Round to nearest (halves up), then saturate into [1, n-1]: below 1.5
      selects input 1, from n-1.5 on selects input n-1, and otherwise the
      integer j with j-0.5 <= sel < j+0.5. */
  lemma MuxSelectsNearest(n: nat, sel: real, j: int)
    requires n >= 2
    ensures sel < 1.5 ==> MuxIndex(n, sel) == 1
    ensures sel >= (n - 1) as real - 0.5 ==> MuxIndex(n, sel) == n - 1
    ensures 1 <= j <= n - 1 && j as real - 0.5 <= sel < j as real + 0.5 ==> MuxIndex(n, sel) == j
  {
    var t := Trunc(sel + 0.5);
    if sel + 0.5 >= 0.0 {
      assert t as real <= sel + 0.5 < t as real + 1.0;
    } else {
      assert t <= 0;
    }
  }

  /** The selector table of the mux test: a mux of 3 inputs maps selector
      values 0, 1, 2, 100 and -100 to inputs 1, 1, 2, 2 and 1. */
  lemma MuxTable()
    ensures MuxIndex(3, 0.0) == 1
    ensures MuxIndex(3, 1.0) == 1
    ensures MuxIndex(3, 2.0) == 2
    ensures MuxIndex(3, 100.0) == 2
    ensures MuxIndex(3, -100.0) == 1
  {
    MuxSelectsNearest(3, 0.0, 1);
    MuxSelectsNearest(3, 1.0, 1);
    MuxSelectsNearest(3, 2.0, 2);
    MuxSelectsNearest(3, 100.0, 2);
    MuxSelectsNearest(3, -100.0, 1);
  }
}

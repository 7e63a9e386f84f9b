/**
 * The variant loop of the style application: per-variant seed
 * derivation, one pipeline call per variant, failures skipped, and the
 * first surviving image returned.
 */
module Variants {
  import opened Optional

  /** The modulus of the variance-seed offset, 2^31 - 1. */
  const SeedModulus: int := 2147483647

  /**
   * The seed handed to the generator of variant `i`, or `None` when no
   * generator is made. `%` binds tighter than `+`, so only the offset is
   * reduced; with a positive modulus Python's floored `%` and Dafny's
   * Euclidean `%` agree.
   */
  function VariantSeed(seed: Option<int>, varianceSeed: Option<int>, i: nat): (r: Option<int>)
    ensures r.None? <==> seed.None?
    ensures seed.Some? && (i == 0 || varianceSeed.None?) ==> r == seed
    ensures seed.Some? && varianceSeed.Some? && i > 0 ==> seed.value <= r.value < seed.value + SeedModulus
  {
    match seed
    case None => None
    case Some(s) =>
      if varianceSeed.Some? && i > 0 then Some(s + (varianceSeed.value * i) % SeedModulus)
      else Some(s)
  }

  /** The offset is not reduced together with the base seed, so a variant seed can pass 2^31 - 1. */
  lemma VariantSeedCanPassInt32()
    ensures VariantSeed(Some(2147483000), Some(1000), 1) == Some(2147484000)
    ensures 2147484000 > 2147483647
  {
  }

  /**
   * A variance seed that is a multiple of the modulus gives every variant
   * the base seed, so all variants are drawn from the same generator state.
   */
  lemma {:induction false} VarianceMultipleOfModulusCollapses(seed: int, varianceSeed: int, i: nat)
    requires varianceSeed % SeedModulus == 0
    ensures VariantSeed(Some(seed), Some(varianceSeed), i) == Some(seed)
  {
    var q := varianceSeed / SeedModulus;
    assert varianceSeed == SeedModulus * q;
    assert varianceSeed * i == SeedModulus * (q * i);
  }

  /** While the offsets stay below the modulus, later variants get strictly larger seeds. */
  lemma {:induction false} VariantSeedsIncreaseBeforeWrap(seed: int, varianceSeed: int, i: nat, j: nat)
    requires 0 < varianceSeed && 0 < i < j && varianceSeed * j < SeedModulus
    ensures VariantSeed(Some(seed), Some(varianceSeed), i).value < VariantSeed(Some(seed), Some(varianceSeed), j).value
  {
    assert varianceSeed * i < varianceSeed * j;
  }

  /** The outcome of one pipeline call: an image, or an exception that was caught. */
  datatype Outcome<I> = Generated(image: I) | Failed

  /** The generator seeds of the first `n` variants, in variant order. */
  function GeneratorSeeds(n: nat, seed: Option<int>, varianceSeed: Option<int>): (r: seq<Option<int>>)
    ensures |r| == n
    ensures forall i :: 0 <= i < n ==> r[i] == VariantSeed(seed, varianceSeed, i)
  {
    seq(n, i requires 0 <= i < n => VariantSeed(seed, varianceSeed, i))
  }

  /** With a single variant the variance seed is never consulted. */
  lemma SingleVariantIgnoresVarianceSeed(seed: Option<int>, v1: Option<int>, v2: Option<int>)
    ensures GeneratorSeeds(1, seed, v1) == GeneratorSeeds(1, seed, v2)
  {
  }

  /** The pipeline outcome of every variant, given a model of the pipeline call. */
  function Attempts<I>(n: nat, seed: Option<int>, varianceSeed: Option<int>, pipe: (nat, Option<int>) -> Outcome<I>): (r: seq<Outcome<I>>)
    ensures |r| == n
    ensures forall i :: 0 <= i < n ==> r[i] == pipe(i, VariantSeed(seed, varianceSeed, i))
  {
    seq(n, i requires 0 <= i < n => pipe(i, VariantSeed(seed, varianceSeed, i)))
  }

  /** The images of the successful outcomes, in outcome order. */
  function Successes<I>(os: seq<Outcome<I>>): (r: seq<I>)
    ensures |r| <= |os|
  {
    if |os| == 0 then []
    else Successes(os[..|os| - 1]) + (if os[|os| - 1].Generated? then [os[|os| - 1].image] else [])
  }

  /**
   * The positions of the successful outcomes. They are strictly
   * increasing, each one holds the image at the same position of
   * `Successes`, and no successful outcome is missing, so `Successes`
   * keeps every image in variant order and drops only the failures.
   */
  function SuccessPositions<I>(os: seq<Outcome<I>>): (p: seq<nat>)
    ensures |p| == |Successes(os)|
    ensures forall k :: 0 <= k < |p| ==> p[k] < |os| && os[p[k]] == Generated(Successes(os)[k])
    ensures forall k, l :: 0 <= k < l < |p| ==> p[k] < p[l]
    ensures forall j :: 0 <= j < |os| && os[j].Generated? ==> j in p
  {
    if |os| == 0 then []
    else
      var front := os[..|os| - 1];
      var p0 := SuccessPositions(front);
      assert forall k :: 0 <= k < |p0| ==> os[p0[k]] == front[p0[k]];
      if os[|os| - 1].Generated? then p0 + [|os| - 1] else p0
  }

  /** A failed variant costs exactly its own image: with any failure there are fewer images than variants. */
  lemma {:induction false} FailureDropsImage<I>(os: seq<Outcome<I>>, j: nat)
    requires j < |os| && os[j].Failed?
    ensures |Successes(os)| < |os|
  {
    if j < |os| - 1 {
      FailureDropsImage(os[..|os| - 1], j);
    }
  }

  /** When every variant succeeds, every variant contributes its image in order. */
  lemma {:induction false} AllSucceed<I>(os: seq<Outcome<I>>)
    requires forall i :: 0 <= i < |os| ==> os[i].Generated?
    ensures |Successes(os)| == |os|
    ensures forall i :: 0 <= i < |os| ==> Successes(os)[i] == os[i].image
  {
    if |os| > 0 {
      AllSucceed(os[..|os| - 1]);
    }
  }

  /** What the style application hands back: the first image, if there is one. */
  function FirstResult<I>(results: seq<I>): (r: Option<I>)
    ensures r.None? <==> |results| == 0
    ensures r.Some? ==> r.value == results[0]
  {
    if |results| > 0 then Some(results[0]) else None
  }

  /**
   * The loop itself: variant `i` calls the pipeline with its derived
   * generator seed; an image is appended, a failure is skipped and the
   * loop carries on.
   */
  method GenerateVariants<I>(n: nat, seed: Option<int>, varianceSeed: Option<int>, pipe: (nat, Option<int>) -> Outcome<I>)
    returns (results: seq<I>)
    ensures results == Successes(Attempts(n, seed, varianceSeed, pipe))
    ensures |results| <= n
  {
    ghost var attempts := Attempts(n, seed, varianceSeed, pipe);
    results := [];
    var i := 0;
    while i < n
      invariant 0 <= i <= n
      invariant results == Successes(attempts[..i])
    {
      var generator := VariantSeed(seed, varianceSeed, i);
      var outcome := pipe(i, generator);
      assert attempts[..i + 1][..i] == attempts[..i];
      if outcome.Generated? {
        results := results + [outcome.image];
      }
      i := i + 1;
    }
    assert attempts[..n] == attempts;
  }
}

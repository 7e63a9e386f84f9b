/**
 * The progress figures: the fractions the style application reports
 * and the three bars (model loading, generation, upscaling) the page
 * splits one fraction into. Exact reals stand in for floats.
 */
module Progress {

  predicate InUnit(x: real) {
    0.0 <= x <= 1.0
  }

  /** A fraction of at most one shrinks whatever non-negative quantity it scales. */
  lemma ScaleDown(a: real, b: real)
    requires 0.0 <= a <= 1.0 && 0.0 <= b
    ensures 0.0 <= a * b <= b
  {
  }

  /** `k / n` for `k <= n` lies in the unit interval. */
  lemma RatioInUnit(k: nat, n: nat)
    requires 0 < n && k <= n
    ensures InUnit((k as real) / (n as real))
  {
  }

  /** The start of variant `i`'s share of the generation span. */
  function VariantStart(i: nat, n: nat): (p: real)
    requires i <= n && 0 < n
    ensures 0.6 <= p <= 0.85
  {
    RatioInUnit(i, n);
    ScaleDown((i as real) / (n as real), 0.25);
    0.6 + ((i as real) / (n as real)) * 0.25
  }

  /** Consecutive variant starts are one share, `0.25 / n`, apart. */
  lemma VariantStartStep(i: nat, n: nat)
    requires i < n
    ensures VariantStart(i + 1, n) == VariantStart(i, n) + 0.25 / (n as real)
  {
    assert ((i + 1) as real) / (n as real) == (i as real) / (n as real) + 1.0 / (n as real);
  }

  /**
   * The fraction reported at denoising step `step` of variant `i` out of
   * `n`: the variants share the span from 0.6 to 0.85 equally, and a
   * variant's steps stay within its own share.
   */
  function GenerationProgress(i: nat, n: nat, step: nat, steps: nat): (p: real)
    requires i < n && 0 < steps && step <= steps
    ensures VariantStart(i, n) <= p <= VariantStart(i + 1, n)
    ensures 0.6 <= p <= 0.85
  {
    var share := 0.25 / (n as real);
    RatioInUnit(step, steps);
    ScaleDown((step as real) / (steps as real), share);
    VariantStartStep(i, n);
    0.6 + ((i as real) / (n as real)) * 0.25 + ((step as real) / (steps as real)) * share
  }

  /** Generation progress never moves backwards, within a variant or from one variant to the next. */
  lemma {:induction false} GenerationProgressMonotone(i: nat, j: nat, n: nat, s: nat, t: nat, steps: nat)
    requires i <= j < n && 0 < steps && s <= steps && t <= steps
    requires i == j ==> s <= t
    ensures GenerationProgress(i, n, s, steps) <= GenerationProgress(j, n, t, steps)
    decreases j - i
  {
    if i < j {
      assert GenerationProgress(i, n, s, steps) <= VariantStart(i + 1, n);
      StartsMonotone(i + 1, j, n);
    } else {
      var share := 0.25 / (n as real);
      var start := 0.6 + ((i as real) / (n as real)) * 0.25;
      var x := (s as real) / (steps as real);
      var y := (t as real) / (steps as real);
      DivMonotone(s as real, t as real, steps as real);
      assert 0.0 < share;
      assert x * share <= y * share by {
        assert y * share - x * share == (y - x) * share;
      }
      assert GenerationProgress(i, n, s, steps) == start + x * share;
      assert GenerationProgress(j, n, t, steps) == start + y * share;
    }
  }

  lemma StartsMonotone(i: nat, j: nat, n: nat)
    requires i <= j <= n && 0 < n
    ensures VariantStart(i, n) <= VariantStart(j, n)
  {
    DivMonotone(i as real, j as real, n as real);
  }

  lemma DivMonotone(a: real, b: real, c: real)
    requires a <= b && 0.0 < c
    ensures a / c <= b / c
  {
    assert b / c - a / c == (b - a) / c;
  }

  /**
   * The fraction reported during upscaling: after image `i` of `count`
   * resizes, or 0.95 when its resize fails.
   */
  function UpscaleProgress(i: nat, count: nat, resized: bool): (p: real)
    requires i < count
    ensures 0.9 <= p <= 0.95
  {
    RatioInUnit(i, count);
    ScaleDown((i as real) / (count as real), 0.05);
    if resized then 0.9 + ((i as real) / (count as real)) * 0.05 else 0.95
  }

  /**
   * A failed resize reports 0.95 and the next successful one reports
   * less, so the upscaling bar can move backwards.
   */
  lemma UpscaleProgressCanRecede()
    ensures UpscaleProgress(0, 3, false) > UpscaleProgress(1, 3, true)
  {
  }

  datatype Bars = Bars(model: real, generation: real, upscale: real)

  /**
   * The page's split of one fraction into three bars: below 0.2 only the
   * loading bar moves, below 0.85 loading is full and the generation bar
   * moves, and from 0.85 on the upscaling bar moves.
   */
  function SplitProgress(p: real): (b: Bars)
    ensures InUnit(p) ==> InUnit(b.model) && InUnit(b.generation) && InUnit(b.upscale)
    ensures b.model == 1.0 || (b.generation == 0.0 && b.upscale == 0.0)
    ensures b.upscale == 0.0 || (b.model == 1.0 && b.generation == 1.0)
  {
    if p < 0.2 then
      var m := p / 0.2;
      Bars(if m < 1.0 then m else 1.0, 0.0, 0.0)
    else if p < 0.85 then Bars(1.0, (p - 0.2) / 0.65, 0.0)
    else Bars(1.0, 1.0, (p - 0.85) / 0.15)
  }

  /** Weighting the bars by the spans they cover. */
  function Recombine(b: Bars): real {
    0.2 * b.model + 0.65 * b.generation + 0.15 * b.upscale
  }

  /** The split loses nothing: weighting the three bars by their spans gives back the fraction. */
  lemma SplitRecombine(p: real)
    ensures Recombine(SplitProgress(p)) == p
  {
  }

  /** A larger fraction never shows a smaller bar. */
  lemma SplitMonotone(p: real, q: real)
    requires p <= q
    ensures SplitProgress(p).model <= SplitProgress(q).model
    ensures SplitProgress(p).generation <= SplitProgress(q).generation
    ensures SplitProgress(p).upscale <= SplitProgress(q).upscale
  {
  }
}

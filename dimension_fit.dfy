/**
  The dimension arithmetic of `resizedImage`: clamp each side to its optional
  maximum, and if some maximum binds, recompute one side from the other so that
  the original aspect ratio is kept. Java does this in `double`; here it is done
  in exact `real` arithmetic, so results can differ from Java's by one where
  double rounding lands on the other side of an integer before truncation.
 */
module DimensionFit {
  import opened Optional
  import JavaLang

  /** A bitmap side length: `Bitmap.getWidth()`/`getHeight()` of a decoded bitmap, a positive Java int. */
  type Dim = x: int | 1 <= x <= JavaLang.MaxInt witness 1

  /** The size before `intValue()` truncation. */
  datatype ExactSize = ExactSize(width: real, height: real)

  /** The size handed to `createScaledBitmap`. */
  datatype FittedSize = FittedSize(width: int, height: int)

  /** `Math.min` on doubles (no NaN in `real`). */
  function Min(a: real, b: real): real
  {
    if a <= b then a else b
  }

  /** A maximum binds when it is supplied and strictly below the original side. */
  predicate Binds(original: Dim, max: Option<real>): (binds: bool)
    ensures binds <==> max.Some? && Min(original as real, max.value) < original as real
  {
    max.Some? && max.value < original as real
  }

  /** `hasMax ? Math.min(original, max) : original`. */
  function Clamp(original: Dim, max: Option<real>): (side: real)
    ensures side <= original as real
    ensures max.Some? ==> side <= max.value
    ensures side == if Binds(original, max) then max.value else original as real
  {
    if max.Some? then Min(original as real, max.value) else original as real
  }

  /** `(part / whole) * other`: the other side scaled in proportion. */
  function Proportional(part: real, whole: Dim, other: Dim): real
  {
    (part / whole as real) * other as real
  }

  /**
    The recomputed side keeps the proportion exactly, does not grow past its
    original when the kept side does not, and keeps the sign of the kept side.
   */
  lemma ProportionalFacts(part: real, whole: Dim, other: Dim)
    ensures Proportional(part, whole, other) * whole as real == part * other as real
    ensures part <= whole as real ==> Proportional(part, whole, other) <= other as real
    ensures 0.0 <= part ==> 0.0 <= Proportional(part, whole, other)
  {
    var q := part / whole as real;
    assert Proportional(part, whole, other) == q * other as real;
    assert q * whole as real == part;
    if part <= whole as real {
      assert q <= 1.0;
      MultiplyMonotone(q, 1.0, other as real);
    }
    if 0.0 <= part {
      assert 0.0 <= q;
      MultiplyMonotone(0.0, q, other as real);
    }
  }

  lemma MultiplyMonotone(a: real, b: real, c: real)
    requires a <= b && 0.0 <= c
    ensures a * c <= b * c
  {
  }

  /** An exact size with the aspect ratio of the original, as equal cross products. */
  predicate SameAspect(e: ExactSize, originalWidth: Dim, originalHeight: Dim)
  {
    e.width * originalHeight as real == e.height * originalWidth as real
  }

  /**
    The tie-break of `resizedImage` once some maximum binds: it compares the
    clamped sides, and only when they are equal the original sides, and
    recomputes one side from the other. Whatever branch is taken, one clamped
    side is kept, the other follows the original aspect ratio, and neither grows.
   */
  function Downscale(width: real, height: real, originalWidth: Dim, originalHeight: Dim,
                     hasMaxWidth: bool, hasMaxHeight: bool): (r: ExactSize)
    requires width <= originalWidth as real && height <= originalHeight as real
    ensures r.width <= originalWidth as real && r.height <= originalHeight as real
    ensures SameAspect(r, originalWidth, originalHeight)
    ensures r.width == width || r.height == height
  {
    if width < height then
      if !hasMaxWidth then WithWidthRecomputed(width, height, originalWidth, originalHeight)
      else WithHeightRecomputed(width, height, originalWidth, originalHeight)
    else if height < width then
      if !hasMaxHeight then WithHeightRecomputed(width, height, originalWidth, originalHeight)
      else WithWidthRecomputed(width, height, originalWidth, originalHeight)
    else if originalWidth < originalHeight then
      WithWidthRecomputed(width, height, originalWidth, originalHeight)
    else if originalHeight < originalWidth then
      WithHeightRecomputed(width, height, originalWidth, originalHeight)
    else
      ExactSize(width, height)
  }

  /** `width = downscaledWidth`: keep the height, recompute the width from it. */
  function WithWidthRecomputed(width: real, height: real, originalWidth: Dim, originalHeight: Dim): (r: ExactSize)
    requires height <= originalHeight as real
    ensures r.height == height && r.width <= originalWidth as real
    ensures SameAspect(r, originalWidth, originalHeight)
  {
    ProportionalFacts(height, originalHeight, originalWidth);
    ExactSize(Proportional(height, originalHeight, originalWidth), height)
  }

  /** `height = downscaledHeight`: keep the width, recompute the height from it. */
  function WithHeightRecomputed(width: real, height: real, originalWidth: Dim, originalHeight: Dim): (r: ExactSize)
    requires width <= originalWidth as real
    ensures r.width == width && r.height <= originalHeight as real
    ensures SameAspect(r, originalWidth, originalHeight)
  {
    ProportionalFacts(width, originalWidth, originalHeight);
    ExactSize(width, Proportional(width, originalWidth, originalHeight))
  }

  /**
    The fitted size before truncation: clamp each side, and run the tie-break
    only when some maximum binds.
   */
  function FitExact(originalWidth: Dim, originalHeight: Dim, maxWidth: Option<real>, maxHeight: Option<real>): (r: ExactSize)
    ensures r.width <= originalWidth as real && r.height <= originalHeight as real
    ensures SameAspect(r, originalWidth, originalHeight)
    ensures r.width == Clamp(originalWidth, maxWidth) || r.height == Clamp(originalHeight, maxHeight)
  {
    var width := Clamp(originalWidth, maxWidth);
    var height := Clamp(originalHeight, maxHeight);
    if Binds(originalWidth, maxWidth) || Binds(originalHeight, maxHeight) then
      Downscale(width, height, originalWidth, originalHeight, maxWidth.Some?, maxHeight.Some?)
    else
      ExactSize(width, height)
  }

  /** `width.intValue()`, `height.intValue()` of the fitted size: never larger than the original. */
  function Fit(originalWidth: Dim, originalHeight: Dim, maxWidth: Option<real>, maxHeight: Option<real>): (r: FittedSize)
    ensures r.width <= originalWidth && r.height <= originalHeight
  {
    var e := FitExact(originalWidth, originalHeight, maxWidth, maxHeight);
    FittedSize(JavaLang.IntValue(e.width), JavaLang.IntValue(e.height))
  }

  /** A maximum that is absent or at least zero. */
  predicate NonNegativeMax(max: Option<real>)
  {
    max.None? || max.value >= 0.0
  }

  /** When no maximum binds (for example a quality-only request) the size is left exactly as it was. */
  lemma FitIdentityWhenNothingBinds(originalWidth: Dim, originalHeight: Dim, maxWidth: Option<real>, maxHeight: Option<real>)
    requires !Binds(originalWidth, maxWidth) && !Binds(originalHeight, maxHeight)
    ensures FitExact(originalWidth, originalHeight, maxWidth, maxHeight) == ExactSize(originalWidth as real, originalHeight as real)
    ensures Fit(originalWidth, originalHeight, maxWidth, maxHeight) == FittedSize(originalWidth, originalHeight)
  {
  }

  /** With only a maximum width, and it binds, the width becomes that maximum and the height follows. */
  lemma FitToMaxWidthOnly(originalWidth: Dim, originalHeight: Dim, maxWidth: real)
    requires maxWidth < originalWidth as real
    ensures FitExact(originalWidth, originalHeight, Some(maxWidth), None)
      == ExactSize(maxWidth, maxWidth * originalHeight as real / originalWidth as real)
  {
    assert FitExact(originalWidth, originalHeight, Some(maxWidth), None)
      == WithHeightRecomputed(maxWidth, originalHeight as real, originalWidth, originalHeight);
  }

  /** With only a maximum height, and it binds, the height becomes that maximum and the width follows. */
  lemma FitToMaxHeightOnly(originalWidth: Dim, originalHeight: Dim, maxHeight: real)
    requires maxHeight < originalHeight as real
    ensures FitExact(originalWidth, originalHeight, None, Some(maxHeight))
      == ExactSize(maxHeight * originalWidth as real / originalHeight as real, maxHeight)
  {
    assert FitExact(originalWidth, originalHeight, None, Some(maxHeight))
      == WithWidthRecomputed(originalWidth as real, maxHeight, originalWidth, originalHeight);
  }

  /** Non-negative maxima give a non-negative exact size. */
  lemma FitExactNonNegative(originalWidth: Dim, originalHeight: Dim, maxWidth: Option<real>, maxHeight: Option<real>)
    requires NonNegativeMax(maxWidth) && NonNegativeMax(maxHeight)
    ensures 0.0 <= FitExact(originalWidth, originalHeight, maxWidth, maxHeight).width
    ensures 0.0 <= FitExact(originalWidth, originalHeight, maxWidth, maxHeight).height
  {
    var width := Clamp(originalWidth, maxWidth);
    var height := Clamp(originalHeight, maxHeight);
    ProportionalFacts(height, originalHeight, originalWidth);
    ProportionalFacts(width, originalWidth, originalHeight);
  }

  lemma TruncationGap(x: real, bound: Dim)
    requires 0.0 <= x <= bound as real
    ensures 0 <= JavaLang.IntValue(x) && x - 1.0 < JavaLang.IntValue(x) as real <= x
  {
  }

  /** A truncation error, a fraction in (-1, 0], scaled by a positive side. */
  lemma ScaledTruncationError(d: real, c: real)
    requires -1.0 < d <= 0.0 && 0.0 < c
    ensures -c < d * c <= 0.0
  {
  }

  lemma Distribute(x: real, y: real, c: real)
    ensures (x + y) * c == x * c + y * c
  {
  }

  lemma ProductAsReal(a: int, b: int)
    ensures (a * b) as real == a as real * b as real
  {
  }

  /** `xi * S` for a truncation `xi` of `x` is `x * S` plus an error in (-S, 0]. */
  lemma TruncatedProduct(x: real, xi: int, S: int) returns (e: real)
    requires 0 < S && x - 1.0 < xi as real <= x
    ensures xi as real * S as real == x * S as real + e
    ensures -(S as real) < e <= 0.0
  {
    var d := xi as real - x;
    e := d * S as real;
    ScaledTruncationError(d, S as real);
    Distribute(x, d, S as real);
  }

  /** Truncating both sides of an exact proportion leaves a cross-product error below one side. */
  lemma CrossProductGap(w: real, h: real, wi: int, hi: int, W: int, H: int)
    requires 0 < W && 0 < H
    requires w * H as real == h * W as real
    requires w - 1.0 < wi as real <= w && h - 1.0 < hi as real <= h
    ensures -H < wi * H - hi * W < W
  {
    var ew := TruncatedProduct(w, wi, H);
    var eh := TruncatedProduct(h, hi, W);
    ProductAsReal(wi, H);
    ProductAsReal(hi, W);
    var p, q := wi * H, hi * W;
    assert (p - q) as real == ew - eh;
  }

  /** Truncating a non-negative exact proportion to ints keeps the cross products within one side. */
  lemma TruncatedAspect(e: ExactSize, W: Dim, H: Dim)
    requires 0.0 <= e.width <= W as real && 0.0 <= e.height <= H as real
    requires SameAspect(e, W, H)
    ensures var wi, hi := JavaLang.IntValue(e.width), JavaLang.IntValue(e.height);
      0 <= wi && 0 <= hi && -(H as int) < wi * H - hi * W < W as int
  {
    TruncationGap(e.width, W);
    TruncationGap(e.height, H);
    CrossProductGap(e.width, e.height, JavaLang.IntValue(e.width), JavaLang.IntValue(e.height), W, H);
  }

  /**
    After truncation the aspect ratio is kept up to the truncation error: the
    cross products `w * H` and `h * W` differ by less than one original side.
   */
  lemma FitAspectWithinTruncation(originalWidth: Dim, originalHeight: Dim, maxWidth: Option<real>, maxHeight: Option<real>)
    requires NonNegativeMax(maxWidth) && NonNegativeMax(maxHeight)
    ensures var r := Fit(originalWidth, originalHeight, maxWidth, maxHeight);
      0 <= r.width && 0 <= r.height &&
      -(originalHeight as int) < r.width * originalHeight - r.height * originalWidth < originalWidth as int
  {
    var e := FitExactBounds(originalWidth, originalHeight, maxWidth, maxHeight);
    TruncatedAspect(e, originalWidth, originalHeight);
  }

  lemma FitExactBounds(originalWidth: Dim, originalHeight: Dim, maxWidth: Option<real>, maxHeight: Option<real>) returns (e: ExactSize)
    requires NonNegativeMax(maxWidth) && NonNegativeMax(maxHeight)
    ensures e == FitExact(originalWidth, originalHeight, maxWidth, maxHeight)
    ensures 0.0 <= e.width <= originalWidth as real && 0.0 <= e.height <= originalHeight as real
    ensures SameAspect(e, originalWidth, originalHeight)
  {
    e := FitExact(originalWidth, originalHeight, maxWidth, maxHeight);
    FitExactNonNegative(originalWidth, originalHeight, maxWidth, maxHeight);
  }

  /** The three worked examples: one binding maximum, the other absent or non-binding. */
  lemma FitExamples()
    ensures Fit(1000, 500, Some(500.0), None) == FittedSize(500, 250)
    ensures Fit(1000, 500, Some(2000.0), Some(100.0)) == FittedSize(200, 100)
    ensures Fit(400, 400, Some(1000.0), Some(100.0)) == FittedSize(100, 100)
  {
  }

  /**
    The result need not fit inside both maxima: with both binding, the tie-break
    keeps the smaller clamped side and recomputes the other from it.
   */
  lemma FitCanExceedMaxHeight()
    ensures Fit(100, 1000, Some(50.0), Some(60.0)) == FittedSize(50, 500)
  {
  }

  /**
    A binding maximum width can be undone: when a supplied maximum height does
    not bind and the clamped height is the smaller side, the width is recomputed
    from the unchanged height, which restores the original width.
   */
  lemma FitCanIgnoreBindingMaxWidth()
    ensures Binds(1000, Some(500.0))
    ensures Fit(1000, 100, Some(500.0), Some(2000.0)) == FittedSize(1000, 100)
  {
  }
}

/** The image-quality normalisation and the decision whether to re-encode at all. */
module Quality {
  import opened Optional

  /** The quality used when none, or an out-of-range one, is requested. */
  const DefaultQuality: int := 100

  /** `isImageQualityValid`: a quality is honoured only when present and strictly between 0 and 100. */
  predicate IsImageQualityValid(quality: Option<int>): (valid: bool)
    ensures valid <==> quality.Some? && 1 <= quality.value <= 99
  {
    quality.Some? && quality.value > 0 && quality.value < 100
  }

  /**
    The quality handed to the encoder on the scaling path: the requested one when
    valid, otherwise 100 (absent, 0, negative, 100 and above all become 100).
   */
  function EffectiveQuality(quality: Option<int>): (q: int)
    ensures 1 <= q <= DefaultQuality
    ensures q < DefaultQuality <==> IsImageQualityValid(quality)
    ensures quality.Some? && 1 <= quality.value <= DefaultQuality ==> q == quality.value
  {
    if IsImageQualityValid(quality) then quality.value else DefaultQuality
  }

  /** `shouldScale`: any maximum supplied, or a quality worth recompressing for. */
  predicate ShouldScale(maxWidth: Option<real>, maxHeight: Option<real>, quality: Option<int>): (scale: bool)
    ensures scale <==> maxWidth.Some? || maxHeight.Some? || EffectiveQuality(quality) < DefaultQuality
  {
    maxWidth.Some? || maxHeight.Some? || IsImageQualityValid(quality)
  }

  /**
    When the pipeline skips scaling, nothing could have changed the image: no
    maximum was supplied and the quality would have been the default anyway.
   */
  lemma NoScaleMeansNothingRequested(maxWidth: Option<real>, maxHeight: Option<real>, quality: Option<int>)
    ensures !ShouldScale(maxWidth, maxHeight, quality) <==>
      maxWidth.None? && maxHeight.None? && EffectiveQuality(quality) == DefaultQuality
  {
  }
}

/**
  `ImageResizer`: decode the picked image, and either only correct its
  orientation or fit it to the requested maxima, correct its orientation,
  re-encode it at the requested quality, write it as `scaled_<name>` and copy
  the Exif data over. Decoding, scaling, rotating and compressing pixels, Exif
  reading and copying, and file writing are Android library calls; the bitmap
  is abstracted to its size and alpha flag, the file to its decoded bitmap and
  Exif orientation tag, and a written file to its path, format, quality and size.
 */
module ImageResizer {
  import opened Optional
  import opened Quality
  import opened DimensionFit
  import opened Orientation
  import opened PathNames

  /** A decoded `android.graphics.Bitmap`, without its pixels. */
  datatype Bitmap = Bitmap(width: Dim, height: Dim, hasAlpha: bool)

  /** The picked image file: what `BitmapFactory.decodeFile` makes of it (`None` for null) and its Exif orientation. */
  datatype SourceFile = SourceFile(decoded: Option<Bitmap>, orientationTag: int)

  /** `Bitmap.CompressFormat`. */
  datatype Format = PNG | JPEG

  /** A file written to the external files directory: the bitmap compressed with `format` at `quality`. */
  datatype Written = Written(path: string, format: Format, quality: int, width: Dim, height: Dim)

  /** The unchecked exceptions the logic itself can raise. */
  datatype Failure =
    | NoImageName            // `pathParts[pathParts.length - 1]` on an empty split
    | NonPositiveScaledSize  // `createScaledBitmap` refuses a side below 1

  datatype Result<T> = Ok(value: T) | Err(failure: Failure)

  /** What `resizeImageIfNeeded` does: return null, hand back a path, write a file (copying Exif into it or not), or throw. */
  datatype Outcome =
    | NoResult
    | ReturnedPath(path: string)
    | Wrote(file: Written, exifCopiedFrom: Option<string>)
    | Failed(failure: Failure)

  /** `saveAsPNG = bitmap.hasAlpha()`: transparency forces the lossless format. */
  function FormatFor(hasAlpha: bool): (f: Format)
    ensures f == PNG <==> hasAlpha
  {
    if hasAlpha then PNG else JPEG
  }

  /** `Bitmap.createBitmap` with a rotation matrix: quarter turns swap the sides; the alpha flag is kept. */
  function Rotated(bitmap: Bitmap, r: Rotation): (rotated: Bitmap)
    ensures rotated.hasAlpha == bitmap.hasAlpha
    ensures rotated.width * rotated.height == bitmap.width * bitmap.height
  {
    if SwapsSides(r) then Bitmap(bitmap.height, bitmap.width, bitmap.hasAlpha) else bitmap
  }

  /** Rotating back by the inverse angle restores the bitmap's shape. */
  lemma RotatedInverse(bitmap: Bitmap, r: Rotation)
    ensures Rotated(Rotated(bitmap, r), Inverse(r)) == bitmap
  {
  }

  /** The bitmap as `fixOrientation` leaves it: rotated when the tag asks for a rotation, otherwise unchanged. */
  function Oriented(bitmap: Bitmap, orientationTag: int): (oriented: Bitmap)
    ensures oriented.hasAlpha == bitmap.hasAlpha
    ensures RotationFor(orientationTag).None? ==> oriented == bitmap
  {
    match RotationFor(orientationTag)
    case None => bitmap
    case Some(r) => Rotated(bitmap, r)
  }

  /** A bitmap no larger than another on each side stays so after both are oriented by the same tag. */
  lemma OrientedMonotone(small: Bitmap, large: Bitmap, orientationTag: int)
    requires small.width <= large.width && small.height <= large.height
    ensures Oriented(small, orientationTag).width <= Oriented(large, orientationTag).width
    ensures Oriented(small, orientationTag).height <= Oriented(large, orientationTag).height
  {
  }

  /** `fixOrientation(Bitmap, String)`: the rotated copy, or `None` (Java's null) when no rotation applies. */
  method FixBitmapOrientation(bitmap: Bitmap, orientationTag: int) returns (rotated: Option<Bitmap>)
    ensures rotated.None? <==> RotationFor(orientationTag).None?
    ensures rotated.Some? ==> rotated.value == Oriented(bitmap, orientationTag)
  {
    var rotate := RotationFor(orientationTag);
    if rotate.None? {
      return None;
    }
    rotated := Some(Rotated(bitmap, rotate.value));
  }

  /** `createImageOnExternalDirectory`: compress as PNG when the bitmap has alpha, else JPEG, and write it under `directory`. */
  method CreateImageOnExternalDirectory(directory: string, name: string, bitmap: Bitmap, quality: int) returns (file: Written)
    requires |name| >= 1 && name[0] == '/'
    ensures file.path == ChildPath(directory, name)
    ensures file.format == PNG <==> bitmap.hasAlpha
    ensures file.quality == quality
    ensures file.width == bitmap.width && file.height == bitmap.height
  {
    file := Written(ChildPath(directory, name), FormatFor(bitmap.hasAlpha), quality, bitmap.width, bitmap.height);
  }

  /**
    What `fixOrientation(String)` returns for a file whose bitmap and tag are
    given: the path itself when no rotation applies, otherwise the path of a
    `rotated_` copy compressed at quality 100, with no Exif copied into it.
   */
  function OrientationOnlyOutcome(directory: string, path: string, bitmap: Bitmap, orientationTag: int): (out: Outcome)
    ensures out.ReturnedPath? <==> RotationFor(orientationTag).None?
    ensures out.ReturnedPath? ==> out.path == path
    ensures out.Failed? <==> RotationFor(orientationTag).Some? && ImageName(path).None?
    ensures out.Wrote? ==>
      ImageName(path).Some? &&
      out.file.path == ChildPath(directory, "/" + RotatedPrefix + ImageName(path).value) &&
      out.file.format == FormatFor(bitmap.hasAlpha) &&
      out.file.quality == DefaultQuality &&
      out.file.width == Oriented(bitmap, orientationTag).width &&
      out.file.height == Oriented(bitmap, orientationTag).height &&
      out.exifCopiedFrom.None?
    ensures !out.NoResult?
  {
    match RotationFor(orientationTag)
    case None => ReturnedPath(path)
    case Some(r) =>
      match ImageName(path)
      case None => Failed(NoImageName)
      case Some(name) =>
        var rotated := Rotated(bitmap, r);
        Wrote(Written(ChildPath(directory, "/" + RotatedPrefix + name), FormatFor(rotated.hasAlpha),
                      DefaultQuality, rotated.width, rotated.height), None)
  }

  /**
    `fixOrientation(String)`. The file is decoded a second time here; since it
    is the file the caller already decoded, `bitmap` is that same decoding.
   */
  method FixFileOrientation(directory: string, path: string, bitmap: Bitmap, orientationTag: int) returns (out: Outcome)
    ensures out == OrientationOnlyOutcome(directory, path, bitmap, orientationTag)
  {
    var rotated := FixBitmapOrientation(bitmap, orientationTag);
    if rotated.None? {
      return ReturnedPath(path);
    }
    var imageName := ImageName(path);
    if imageName.None? {
      return Failed(NoImageName);
    }
    var file := CreateImageOnExternalDirectory(directory, "/" + RotatedPrefix + imageName.value, rotated.value, DefaultQuality);
    out := Wrote(file, None);
  }

  /**
    `resizedImage`: fit the size, scale, orient, and write `scaled_<name>` at
    the effective quality. The written size is the fitted size, oriented.
   */
  method ResizedImage(directory: string, bitmap: Bitmap, orientationTag: int,
                      maxWidth: Option<real>, maxHeight: Option<real>, quality: Option<int>,
                      outputImageName: string)
    returns (result: Result<Written>)
    ensures var size := Fit(bitmap.width, bitmap.height, maxWidth, maxHeight);
      result.Err? <==> size.width < 1 || size.height < 1
    ensures result.Err? ==> result.failure == NonPositiveScaledSize
    ensures result.Ok? ==>
      var size := Fit(bitmap.width, bitmap.height, maxWidth, maxHeight);
      var file := result.value;
      file.path == ChildPath(directory, "/" + ScaledPrefix + outputImageName) &&
      file.format == FormatFor(bitmap.hasAlpha) &&
      file.quality == EffectiveQuality(quality) &&
      file.width == Oriented(Bitmap(size.width, size.height, bitmap.hasAlpha), orientationTag).width &&
      file.height == Oriented(Bitmap(size.width, size.height, bitmap.hasAlpha), orientationTag).height
    ensures result.Ok? ==>
      result.value.width <= Oriented(bitmap, orientationTag).width &&
      result.value.height <= Oriented(bitmap, orientationTag).height
  {
    var imageQuality := EffectiveQuality(quality);
    var size := Fit(bitmap.width, bitmap.height, maxWidth, maxHeight);
    if size.width < 1 || size.height < 1 {
      return Err(NonPositiveScaledSize);
    }
    var scaled := Bitmap(size.width, size.height, bitmap.hasAlpha);
    var rotated := FixBitmapOrientation(scaled, orientationTag);
    if rotated.Some? {
      scaled := rotated.value;
    }
    OrientedMonotone(Bitmap(size.width, size.height, bitmap.hasAlpha), bitmap, orientationTag);
    var file := CreateImageOnExternalDirectory(directory, "/" + ScaledPrefix + outputImageName, scaled, imageQuality);
    result := Ok(file);
  }

  /**
    `resizeImageIfNeeded`: null when the file does not decode; the
    orientation-only result when there is nothing to scale; otherwise a new
    `scaled_` file into which the source's Exif data is copied.
   */
  method ResizeImageIfNeeded(directory: string, imagePath: string, source: SourceFile,
                             maxWidth: Option<real>, maxHeight: Option<real>, quality: Option<int>)
    returns (out: Outcome)
    ensures out.NoResult? <==> source.decoded.None?
    ensures source.decoded.Some? && !ShouldScale(maxWidth, maxHeight, quality) ==>
      out == OrientationOnlyOutcome(directory, imagePath, source.decoded.value, source.orientationTag)
    ensures source.decoded.Some? && ShouldScale(maxWidth, maxHeight, quality) ==>
      var bitmap := source.decoded.value;
      var size := Fit(bitmap.width, bitmap.height, maxWidth, maxHeight);
      match ImageName(imagePath)
      case None => out == Failed(NoImageName)
      case Some(name) =>
        if size.width < 1 || size.height < 1 then out == Failed(NonPositiveScaledSize)
        else
          out.Wrote? &&
          out.file.path == ChildPath(directory, "/" + ScaledPrefix + name) &&
          out.file.format == FormatFor(bitmap.hasAlpha) &&
          out.file.quality == EffectiveQuality(quality) &&
          out.file.width == Oriented(Bitmap(size.width, size.height, bitmap.hasAlpha), source.orientationTag).width &&
          out.file.height == Oriented(Bitmap(size.width, size.height, bitmap.hasAlpha), source.orientationTag).height &&
          out.exifCopiedFrom == Some(imagePath)
    ensures out.Wrote? ==> (out.exifCopiedFrom.Some? <==> ShouldScale(maxWidth, maxHeight, quality))
  {
    if source.decoded.None? {
      return NoResult;
    }
    var bitmap := source.decoded.value;
    if !ShouldScale(maxWidth, maxHeight, quality) {
      out := FixFileOrientation(directory, imagePath, bitmap, source.orientationTag);
      return;
    }
    var imageName := ImageName(imagePath);
    if imageName.None? {
      return Failed(NoImageName);
    }
    var file := ResizedImage(directory, bitmap, source.orientationTag, maxWidth, maxHeight, quality, imageName.value);
    if file.Err? {
      return Failed(file.failure);
    }
    // The Exif copy into the new file is recorded in the outcome, not performed.
    out := Wrote(file.value, Some(imagePath));
  }
}

/**
  The Exif Orientation tag (0x0112, section 4.6.4 of Exif 2.3, CIPA DC-008) and
  the rotation `ImageResizer.fixOrientation(Bitmap, String)` derives from it.
  Only the three pure rotations are corrected; every other value, the four
  mirrored orientations included, leaves the bitmap as it is.
 */
module Orientation {
  import opened Optional

  // The `ExifInterface.ORIENTATION_*` values.
  const OrientationUndefined: int := 0
  const OrientationNormal: int := 1
  const OrientationFlipHorizontal: int := 2
  const OrientationRotate180: int := 3
  const OrientationFlipVertical: int := 4
  const OrientationTranspose: int := 5
  const OrientationRotate90: int := 6
  const OrientationTransverse: int := 7
  const OrientationRotate270: int := 8

  /** A clockwise rotation applied with `Matrix.postRotate`. */
  datatype Rotation = Rotate90 | Rotate180 | Rotate270

  function Degrees(r: Rotation): int
  {
    match r
    case Rotate90 => 90
    case Rotate180 => 180
    case Rotate270 => 270
  }

  /**
    The switch in `fixOrientation(Bitmap, String)`: `None` is its `default`
    branch, which returns `null` so that the caller keeps the bitmap it has.
   */
  function RotationFor(orientationTag: int): (r: Option<Rotation>)
    ensures r.Some? <==> orientationTag in {OrientationRotate90, OrientationRotate180, OrientationRotate270}
  {
    if orientationTag == OrientationRotate270 then Some(Rotate270)
    else if orientationTag == OrientationRotate180 then Some(Rotate180)
    else if orientationTag == OrientationRotate90 then Some(Rotate90)
    else None
  }

  /**
    What each of the eight Exif orientation values asks a viewer to do, as a
    horizontal mirror (applied first) followed by a clockwise rotation; tag
    values outside 1..8 have no meaning.
   */
  datatype ExifTransform = ExifTransform(mirrored: bool, clockwiseDegrees: int)

  function ExifMeaning(orientationTag: int): Option<ExifTransform>
  {
    match orientationTag
    case 1 => Some(ExifTransform(false, 0))
    case 2 => Some(ExifTransform(true, 0))
    case 3 => Some(ExifTransform(false, 180))
    case 4 => Some(ExifTransform(true, 180))
    case 5 => Some(ExifTransform(true, 270))
    case 6 => Some(ExifTransform(false, 90))
    case 7 => Some(ExifTransform(true, 90))
    case 8 => Some(ExifTransform(false, 270))
    case _ => None
  }

  /**
    The switch corrects exactly the Exif orientations that are a pure, non-zero
    rotation, and by the angle the standard gives for them.
   */
  lemma RotationForMatchesExif(orientationTag: int)
    ensures RotationFor(orientationTag).Some? <==>
      (ExifMeaning(orientationTag).Some? && !ExifMeaning(orientationTag).value.mirrored
       && ExifMeaning(orientationTag).value.clockwiseDegrees != 0)
    ensures RotationFor(orientationTag).Some? ==>
      Degrees(RotationFor(orientationTag).value) == ExifMeaning(orientationTag).value.clockwiseDegrees
  {
  }

  /** Normal, undefined and mirrored orientations are all left alone. */
  lemma UncorrectedOrientations(orientationTag: int)
    requires orientationTag == OrientationUndefined || orientationTag == OrientationNormal
      || (ExifMeaning(orientationTag).Some? && ExifMeaning(orientationTag).value.mirrored)
    ensures RotationFor(orientationTag) == None
  {
  }

  /** The rotation that undoes `r`. */
  function Inverse(r: Rotation): (inv: Rotation)
    ensures (Degrees(r) + Degrees(inv)) % 360 == 0
  {
    match r
    case Rotate90 => Rotate270
    case Rotate180 => Rotate180
    case Rotate270 => Rotate90
  }

  /** Quarter turns exchange the bitmap's width and height. */
  predicate SwapsSides(r: Rotation)
  {
    Degrees(r) % 180 == 90
  }
}

# Image picker resize logic (Android `ImageResizer`)

A Dafny model of the decision logic in the Android side of the Flutter
`image_picker` plugin, `ImageResizer.java`. After a picture is picked, the
plugin decodes it and either

* only corrects its orientation (when neither a maximum width, a maximum
  height nor a usable quality was requested), writing a `rotated_<name>` copy
  at quality 100 if the Exif orientation asks for a rotation and otherwise
  handing back the original path; or
* fits it to the requested maxima, keeping the aspect ratio and never
  enlarging it, corrects its orientation, compresses it (PNG when the bitmap
  has alpha, JPEG otherwise) at the requested quality or 100, writes it as
  `scaled_<name>` and copies the source's Exif data into the new file.

Modules, one per concern of the class:

* `Optional` — Java's nullable `Double`/`Integer` parameters.
* `JavaLang` — the Java library semantics the logic relies on:
  `Double.intValue()` (truncation toward zero, saturating at the `int`
  bounds) and `String.split("/")` (pieces between slashes, trailing empty
  pieces dropped, the unsplit string when there is no slash).
* `PathNames` — the image name taken from the path, and the path of a
  `java.io.File` child of the output directory.
* `Quality` — `isImageQualityValid`, the default quality 100, `shouldScale`.
* `DimensionFit` — the size arithmetic of `resizedImage`, in exact `real`
  arithmetic, then truncated as Java does.
* `Orientation` — the Exif Orientation tag (0x0112, section 4.6.4 of Exif 2.3,
  CIPA DC-008) and the three rotations the code corrects.
* `ImageResizer` — `resizeImageIfNeeded`, `resizedImage`, both
  `fixOrientation` overloads and `createImageOnExternalDirectory` as methods
  over an abstract bitmap (size and alpha flag) and an abstract source file
  (its decoded bitmap, or none, and its orientation tag), returning an
  `Outcome`: no result (Java's null), a returned path, a written file (with the
  Exif copy recorded as the path it was copied from), or a thrown exception.

The code treats a quality as valid for 1 to 99 inclusive (`> 0 && < 100`).
It corrects only the three pure rotations (tags 3, 6, 8); the mirrored
orientations are left as they are. The fitted size can exceed a supplied
maximum (see `DimensionFit.FitCanExceedMaxHeight` and
`DimensionFit.FitCanIgnoreBindingMaxWidth`), and it can truncate to zero,
which makes `createScaledBitmap` throw.

## Model

| member | source | states |
|---|---|---|
| `JavaLang.IntValue` | packages/image_picker/android/src/main/java/io/flutter/plugins/imagepicker/ImageResizer.java:105 | `intValue()` lands in the `int` range, saturates at its bounds, and otherwise lies within one of the double, on the zero side of it |
| `JavaLang.JavaSplit` | packages/image_picker/android/src/main/java/io/flutter/plugins/imagepicker/ImageResizer.java:50 | no piece of `split("/")` contains a slash; a string without a slash splits to itself alone |
| `JavaLang.JoinPieces` | packages/image_picker/android/src/main/java/io/flutter/plugins/imagepicker/ImageResizer.java:50 | joining the pieces between slashes with slashes gives back the path (nothing is lost by the split) |
| `JavaLang.DropTrailingEmpty` | packages/image_picker/android/src/main/java/io/flutter/plugins/imagepicker/ImageResizer.java:166 | the split keeps a prefix of the pieces, ends in a non-empty piece, and drops only empty ones |
| `PathNames.ImageName` | packages/image_picker/android/src/main/java/io/flutter/plugins/imagepicker/ImageResizer.java:50-51 | the image name contains no slash, and a path without a slash is its own name |
| `PathNames.ImageNameIsLastSegment` | packages/image_picker/android/src/main/java/io/flutter/plugins/imagepicker/ImageResizer.java:166-167 | the name is the text after the last slash once trailing slashes are ignored; there is none (an index exception) exactly for a path of slashes only; the empty path names itself |
| `PathNames.JoinJavaSplit` | packages/image_picker/android/src/main/java/io/flutter/plugins/imagepicker/ImageResizer.java:50 | once trailing slashes are ignored, joining the pieces of `split("/")` with slashes gives back the path |
| `PathNames.ChildPath` | packages/image_picker/android/src/main/java/io/flutter/plugins/imagepicker/ImageResizer.java:116-118 | the output file's path ends with the child name `/scaled_…` or `/rotated_…` |
| `PathNames.ImageNameOfChildPath` | packages/image_picker/android/src/main/java/io/flutter/plugins/imagepicker/ImageResizer.java:110-111 | splitting a written file's path again yields exactly its `scaled_`/`rotated_` name |
| `Quality.IsImageQualityValid` | packages/image_picker/android/src/main/java/io/flutter/plugins/imagepicker/ImageResizer.java:136-138 | a quality is valid exactly when it is present and strictly between 0 and 100 |
| `Quality.ShouldScale` | packages/image_picker/android/src/main/java/io/flutter/plugins/imagepicker/ImageResizer.java:42-43 | scaling happens exactly when a maximum width or height is supplied or the quality is valid |
| `Quality.EffectiveQuality` | packages/image_picker/android/src/main/java/io/flutter/plugins/imagepicker/ImageResizer.java:66-68 | the encoder quality is between 1 and 100; it is below 100 exactly when the requested quality is valid (present and 1..99) and then equals it; absent, 0, negative or 100+ give 100 |
| `Quality.NoScaleMeansNothingRequested` | packages/image_picker/android/src/main/java/io/flutter/plugins/imagepicker/ImageResizer.java:42-43 | scaling is skipped exactly when no maximum is supplied and the effective quality would be the default 100 |
| `DimensionFit.Clamp` | packages/image_picker/android/src/main/java/io/flutter/plugins/imagepicker/ImageResizer.java:73-74 | a clamped side never exceeds the original nor a supplied maximum; it equals the original exactly when its maximum does not bind, and equals the maximum when it does |
| `DimensionFit.Binds` | packages/image_picker/android/src/main/java/io/flutter/plugins/imagepicker/ImageResizer.java:76-77 | a side must be downscaled exactly when its maximum is supplied and strictly below the original side |
| `DimensionFit.ProportionalFacts` | packages/image_picker/android/src/main/java/io/flutter/plugins/imagepicker/ImageResizer.java:81-82 | the recomputed side times the original of the kept side equals the kept side times its own original, and it is no larger than its original when the kept side is no larger than its own |
| `DimensionFit.WithWidthRecomputed` | packages/image_picker/android/src/main/java/io/flutter/plugins/imagepicker/ImageResizer.java:81 | `width = downscaledWidth`: the height is kept, the new width is no larger than the original width and the size has the original aspect ratio |
| `DimensionFit.WithHeightRecomputed` | packages/image_picker/android/src/main/java/io/flutter/plugins/imagepicker/ImageResizer.java:82 | `height = downscaledHeight`: the width is kept, the new height is no larger than the original height and the size has the original aspect ratio |
| `DimensionFit.Downscale` | packages/image_picker/android/src/main/java/io/flutter/plugins/imagepicker/ImageResizer.java:80-102 | in every branch of the tie-break one clamped side is kept, the other follows the original aspect ratio, and neither side grows past the original |
| `DimensionFit.FitExact` | packages/image_picker/android/src/main/java/io/flutter/plugins/imagepicker/ImageResizer.java:73-102 | before truncation the fitted size never upscales, preserves the aspect ratio (`w·H = h·W`) in every branch, and keeps at least one side at its clamped value |
| `DimensionFit.Fit` | packages/image_picker/android/src/main/java/io/flutter/plugins/imagepicker/ImageResizer.java:105 | after `intValue()` the size handed to `createScaledBitmap` is still no larger than the original on either side |
| `DimensionFit.FitIdentityWhenNothingBinds` | packages/image_picker/android/src/main/java/io/flutter/plugins/imagepicker/ImageResizer.java:76-80 | when no maximum binds (both absent, or each at least its side) the size is exactly the original, before and after truncation |
| `DimensionFit.FitToMaxWidthOnly` | packages/image_picker/android/src/main/java/io/flutter/plugins/imagepicker/ImageResizer.java:84-100 | with only a binding maximum width, the width becomes that maximum and the height `maxWidth·H/W`, whichever tie-break branch is taken |
| `DimensionFit.FitToMaxHeightOnly` | packages/image_picker/android/src/main/java/io/flutter/plugins/imagepicker/ImageResizer.java:84-100 | with only a binding maximum height, the height becomes that maximum and the width `maxHeight·W/H` |
| `DimensionFit.FitExactNonNegative` | packages/image_picker/android/src/main/java/io/flutter/plugins/imagepicker/ImageResizer.java:73-102 | non-negative maxima give a non-negative exact size |
| `DimensionFit.FitAspectWithinTruncation` | packages/image_picker/android/src/main/java/io/flutter/plugins/imagepicker/ImageResizer.java:80-105 | after truncation the cross products `w·H` and `h·W` differ by less than one original side (`-H < w·H - h·W < W`) |
| `DimensionFit.FitExamples` | packages/image_picker/android/src/main/java/io/flutter/plugins/imagepicker/ImageResizer.java:80-102 | (1000,500) with max width 500 gives (500,250); with maxima (2000,100) gives (200,100); (400,400) with maxima (1000,100) gives (100,100) |
| `DimensionFit.FitCanExceedMaxHeight` | packages/image_picker/android/src/main/java/io/flutter/plugins/imagepicker/ImageResizer.java:84-89 | (100,1000) with maxima (50,60) gives (50,500): with both maxima binding the result need not fit inside them |
| `DimensionFit.FitCanIgnoreBindingMaxWidth` | packages/image_picker/android/src/main/java/io/flutter/plugins/imagepicker/ImageResizer.java:90-95 | (1000,100) with maxima (500,2000) gives (1000,100): a binding maximum width is undone when a non-binding maximum height is supplied |
| `Orientation.RotationFor` | packages/image_picker/android/src/main/java/io/flutter/plugins/imagepicker/ImageResizer.java:197-209 | a rotation is chosen exactly for tags 3, 6 and 8 (180°, 90°, 270°); every other tag is the no-op `default` |
| `Orientation.RotationForMatchesExif` | packages/image_picker/android/src/main/java/io/flutter/plugins/imagepicker/ImageResizer.java:197-206 | the corrected tags are exactly the Exif orientations that are a pure non-zero rotation, and the angle agrees with the standard's |
| `Orientation.UncorrectedOrientations` | packages/image_picker/android/src/main/java/io/flutter/plugins/imagepicker/ImageResizer.java:207-208 | tag 0, normal (1) and the mirrored orientations 2, 4, 5, 7 get no transform |
| `ImageResizer.FormatFor` | packages/image_picker/android/src/main/java/io/flutter/plugins/imagepicker/ImageResizer.java:144 | PNG exactly when the bitmap has alpha, JPEG otherwise |
| `ImageResizer.Rotated` | packages/image_picker/android/src/main/java/io/flutter/plugins/imagepicker/ImageResizer.java:210-213 | rotating keeps the alpha flag and the pixel count |
| `ImageResizer.RotatedInverse` | packages/image_picker/android/src/main/java/io/flutter/plugins/imagepicker/ImageResizer.java:210-213 | rotating back by the inverse angle restores the bitmap's shape |
| `ImageResizer.Oriented` | packages/image_picker/android/src/main/java/io/flutter/plugins/imagepicker/ImageResizer.java:106-108 | orienting keeps the alpha flag, and leaves the bitmap itself when the tag asks for no rotation (the `null` fallback) |
| `ImageResizer.FixBitmapOrientation` | packages/image_picker/android/src/main/java/io/flutter/plugins/imagepicker/ImageResizer.java:190-214 | returns null exactly for the tags without a rotation, otherwise the rotated bitmap |
| `ImageResizer.CreateImageOnExternalDirectory` | packages/image_picker/android/src/main/java/io/flutter/plugins/imagepicker/ImageResizer.java:140-159 | the file is written at the child path, as PNG exactly when the bitmap has alpha, with the given quality and the bitmap's size |
| `ImageResizer.OrientationOnlyOutcome` | packages/image_picker/android/src/main/java/io/flutter/plugins/imagepicker/ImageResizer.java:161-188 | the path comes back unchanged exactly when no rotation applies; otherwise a `rotated_<name>` file at quality 100, in the alpha-chosen format, with the rotated size and no Exif copy (or the index exception for a slash-only path) |
| `ImageResizer.FixFileOrientation` | packages/image_picker/android/src/main/java/io/flutter/plugins/imagepicker/ImageResizer.java:161-188 | its outcome is exactly the orientation-only outcome above |
| `ImageResizer.ResizedImage` | packages/image_picker/android/src/main/java/io/flutter/plugins/imagepicker/ImageResizer.java:60-114 | fails exactly when a fitted side truncates below 1; otherwise writes `scaled_<name>` in the alpha-chosen format at the effective quality with the oriented fitted size, never larger than the oriented original |
| `ImageResizer.ResizeImageIfNeeded` | packages/image_picker/android/src/main/java/io/flutter/plugins/imagepicker/ImageResizer.java:33-58 | no result exactly when decoding fails, whatever the maxima and quality; without `shouldScale` the result is exactly the orientation-only outcome (no `scaled_` file); with it, a `scaled_` file with the fitted, oriented size and effective quality, into which the source's Exif is copied; only the scaling path copies Exif |

## Left out

- Pixel data: `createScaledBitmap`, `Matrix.postRotate`/`createBitmap` and `compress` are Android library calls; a bitmap is modelled by its width, height and alpha flag only, and a rotated bitmap has exactly swapped sides for quarter turns.
- DimensionFit.FitExact: computes in exact `real` arithmetic, so it matches Java's `double` arithmetic only up to rounding; where a double lands just below an integer that the exact value reaches (or the reverse), the truncated side can differ by one. NaN and infinite maxima are not modelled.
- JavaLang.IntValue: NaN (which Java converts to 0) has no `real` counterpart.
- Exif reading: `ExifInterface` is a foreign call; the orientation tag (defaulting to normal) is an input of the model, and the `IOException` its constructor can throw is not modelled.
- Exif copying: `ExifDataCopier.copyExif` is an external collaborator; the model records only that it is called, with the source path, for the written file.
- File and stream I/O: writing always succeeds in the model; an `IOException` while writing, rethrown as `RuntimeException`, is not modelled.
- Logging: the `Log.d` notices that PNG ignores the quality are diagnostics only; the quality value passed to `compress` is still recorded.
- ImageResizer.FixFileOrientation: the file is decoded a second time in the source; the model uses the first decoding, so a second decode returning null (a `NullPointerException` when a rotation applies) is not modelled.
- PathNames.ChildPath: models `java.io.File` resolution for a directory already in `File`'s normal form (no trailing or doubled slashes); normalisation of the directory itself is not modelled.
- Orientation: the mirrored orientations (2, 4, 5, 7) are not corrected, as in the source; pixel-level inverse properties of rotation are not modelled beyond the bitmap's shape.
- The iOS implementation and its GIF multi-frame path are not part of this model.

# CriminalIntent capture and analysis core, in Dafny

This project models the decision and enumeration logic of the CriminalIntent app's
photo pipeline: how a captured photo is named, which of a case record's four photo
slots receives it, which on-device analysis the record's mode flags select, what each
analysis draws or writes, and how the `Crime` table's schema grows from version 1 to
version 6. The Android and ML Kit calls are not modelled. Detector results come in as
inputs (`ImageAnalyzer.Task`), and drawing is a list of primitives recorded on a
`Canvas`.

Modules, one per source file:

- `Crimes` (`crime.dfy`) is the `Crime` data class. It defines the defaults, the four
  photo slots and field-wise access (`Get`, `SameExcept`), which is what "copy with
  one argument changed" means.
- `ImageAnalyzer` (`image_analyzer.dfy`) covers the EXIF orientation mapping and the
  success paths of face boxes, contour tracing, face mesh and selfie segmentation.
  Each analysis has a specification function (`FacesOutcome`, `ContourOutcome`,
  `MeshOutcome`, `SegmentOutcome`) and a method with the source's loops that is proved
  equal to it. Segmentation fills an `array<int>` row-major while a cursor walks the
  mask buffer.
- `CrimeDetail` (`crime_detail.dfy`) holds the detail screen's logic: the photo name,
  the face summary text, the one-field edits, the slot and analysis choice, and
  `updatePhoto`. The `CaptureSession` class models the `takePhoto` callback over the
  fragment's mutable state.
- `CrimeDatabase` (`crime_database.dfy`) holds the migrations as data. The `Schema`
  class is the table, and each migration appends columns to it in place.
- `Strings` (`strings.dfy`) and `Wrappers` (`wrappers.dfy`) are helpers. `Strings`
  models one-character `replace` and decimal rendering. `Wrappers` defines `Option`
  for Kotlin's nullable values.

The model follows the code, including these behaviours a reader might not expect:

- The capture callback writes the photo name into the record's slot and requests the
  index increment whatever the analysis outcome. This includes a detector failure and
  a segmentation rejected as "not a selfie". In those cases the file keeps the photo
  as the camera saved it, without annotation.
- The face count never reaches the record. The `copy(numFacesDetected = ...)` built in
  the face callback is discarded, and only the on-screen label changes.
- Nothing in the record type keeps the mode flags mutually exclusive. When several
  flags are set, the first in the order face, mesh, contour, selfie wins.

## Model

| member | source | states |
|---|---|---|
| Crimes.NewCrime | app/src/main/java/com/bignerdranch/android/criminalintent/Crime.kt:9-23 | a new record keeps the given id, title, date and flags, and gets an empty suspect, an empty face summary and no photo in any slot |
| Crimes.WithPhoto | app/src/main/java/com/bignerdranch/android/criminalintent/Crime.kt:19-22 | copying with one photo field set changes that slot to the given name and no other field |
| Crimes.PhotoSlots | app/src/main/java/com/bignerdranch/android/criminalintent/Crime.kt:19-22 | a record has exactly four optional photo references, one per slot, at distinct positions |
| Crimes.FieldsDetermineRecord | app/src/main/java/com/bignerdranch/android/criminalintent/Crime.kt:9-23 | two records that agree on every field are equal (data class equality) |
| Crimes.IdIsKept | app/src/main/java/com/bignerdranch/android/criminalintent/Crime.kt:10 | a one-field copy of any field other than `id` keeps the primary key |
| Crimes.ModeFlagsIndependent | app/src/main/java/com/bignerdranch/android/criminalintent/Crime.kt:14-17 | every combination of the four mode flags is a valid record, including several set at once |
| Crimes.AllFieldsComplete | app/src/main/java/com/bignerdranch/android/criminalintent/Crime.kt:10-23 | the list of record fields contains every field |
| Strings.ReplaceChar | app/src/main/java/com/bignerdranch/android/criminalintent/CrimeDetailFragment.kt:270 | one-character replace keeps the length and maps each character on its own |
| Strings.ReplaceCharRemoves | app/src/main/java/com/bignerdranch/android/criminalintent/CrimeDetailFragment.kt:270 | after the replace the old character is gone, and other characters are present exactly when they were before |
| Strings.NatToString | app/src/main/java/com/bignerdranch/android/criminalintent/CrimeDetailFragment.kt:76 | a count renders as a non-empty string of digits with no leading zero |
| Strings.ParseNatToString | app/src/main/java/com/bignerdranch/android/criminalintent/CrimeDetailFragment.kt:76 | reading the rendered digits back gives the count |
| Strings.NatToStringInjective | app/src/main/java/com/bignerdranch/android/criminalintent/CrimeDetailFragment.kt:76 | different counts render differently |
| ImageAnalyzer.OrientationAttribute | app/src/main/java/com/bignerdranch/android/criminalintent/ImageAnalyzer.kt:43-46 | a missing orientation tag reads as NORMAL, and a present one reads as itself |
| ImageAnalyzer.RotationDegrees | app/src/main/java/com/bignerdranch/android/criminalintent/ImageAnalyzer.kt:43-51 | the angle is 90, 180 or 270 exactly for ROTATE_90, ROTATE_180 or ROTATE_270, and 0 for every other value |
| ImageAnalyzer.GetRotatedBitmap | app/src/main/java/com/bignerdranch/android/criminalintent/ImageAnalyzer.kt:41-59 | the bitmap is turned by the tag's angle (0 without a tag), a quarter turn swaps width and height, and the pixel count is kept |
| ImageAnalyzer.Canvas.DrawRect | app/src/main/java/com/bignerdranch/android/criminalintent/ImageAnalyzer.kt:114 | `drawRect` appends one rectangle with the given paint to what the canvas holds |
| ImageAnalyzer.Canvas.DrawLine | app/src/main/java/com/bignerdranch/android/criminalintent/ImageAnalyzer.kt:166-178 | `drawLine` appends one segment from start to end with the given paint |
| ImageAnalyzer.Canvas.DrawCircle | app/src/main/java/com/bignerdranch/android/criminalintent/ImageAnalyzer.kt:306 | `drawCircle` appends one circle of the given centre and radius |
| ImageAnalyzer.FacesOutcome | app/src/main/java/com/bignerdranch/android/criminalintent/ImageAnalyzer.kt:110-138 | the file is written exactly when detection succeeds; the overlay has one red 36-wide rectangle per face box, in order, on the photo, and `faces.size` is reported |
| ImageAnalyzer.DetectFaces | app/src/main/java/com/bignerdranch/android/criminalintent/ImageAnalyzer.kt:90-138 | on success it draws exactly one rectangle per face box, in order, with the red 36-wide stroke, writes the image and reports `faces.size`; on failure it writes nothing and reports nothing |
| ImageAnalyzer.PolygonIsClosedPath | app/src/main/java/com/bignerdranch/android/criminalintent/ImageAnalyzer.kt:161-179 | the n-1 segments from point i to i+1 plus the closing segment from last to first are the closed polygon of n segments |
| ImageAnalyzer.PolygonSegmentsConnect | app/src/main/java/com/bignerdranch/android/criminalintent/ImageAnalyzer.kt:161-179 | each segment ends where the next begins, and the last ends at the first point |
| ImageAnalyzer.ContoursLineCount | app/src/main/java/com/bignerdranch/android/criminalintent/ImageAnalyzer.kt:161-179 | the contours of a face give as many segments as they have points |
| ImageAnalyzer.FacesLineCount | app/src/main/java/com/bignerdranch/android/criminalintent/ImageAnalyzer.kt:159-180 | contour tracing draws as many segments as all faces' contours have points |
| ImageAnalyzer.ContoursLinesPaint | app/src/main/java/com/bignerdranch/android/criminalintent/ImageAnalyzer.kt:161-179 | every primitive drawn for a face's contours is a segment with the contour paint |
| ImageAnalyzer.FacesLinesPaint | app/src/main/java/com/bignerdranch/android/criminalintent/ImageAnalyzer.kt:159-180 | every primitive drawn for all faces is a segment with the contour paint |
| ImageAnalyzer.ContourOutcome | app/src/main/java/com/bignerdranch/android/criminalintent/ImageAnalyzer.kt:158-201 | the file is written exactly when detection succeeds, with as many contour-paint segments as the contours have points over the photo, and no count is reported |
| ImageAnalyzer.Contour | app/src/main/java/com/bignerdranch/android/criminalintent/ImageAnalyzer.kt:141-201 | the nested loops draw, face by face and contour by contour, each contour's closed polygon and write the image; a failure writes nothing |
| ImageAnalyzer.ScaleX | app/src/main/java/com/bignerdranch/android/criminalintent/ImageAnalyzer.kt:297-298 | the horizontal mesh scale is 1 for every box of non-zero width |
| ImageAnalyzer.ScaleY | app/src/main/java/com/bignerdranch/android/criminalintent/ImageAnalyzer.kt:299-300 | the vertical mesh scale is 1 for every box of non-zero height |
| ImageAnalyzer.TriangleEdgesClose | app/src/main/java/com/bignerdranch/android/criminalintent/ImageAnalyzer.kt:310-322 | the `(i + 1) % 3` wrap draws exactly the three edges ab, bc and ca |
| ImageAnalyzer.TrianglesEdgeCount | app/src/main/java/com/bignerdranch/android/criminalintent/ImageAnalyzer.kt:309-323 | a mesh's triangles give exactly three edges each |
| ImageAnalyzer.MeshDrawnUnscaled | app/src/main/java/com/bignerdranch/android/criminalintent/ImageAnalyzer.kt:295-323 | one mesh draws one dot per point, exactly at the point's own coordinates, followed by the unscaled triangle edges |
| ImageAnalyzer.DetectFaceMesh | app/src/main/java/com/bignerdranch/android/criminalintent/ImageAnalyzer.kt:276-341 | on success the meshes are drawn in order and the image is always written, even with no mesh; a failure has no effect |
| ImageAnalyzer.DrawMesh | app/src/main/java/com/bignerdranch/android/criminalintent/ImageAnalyzer.kt:294-323 | one pass of the mesh loop appends exactly that mesh's dots and edges to the canvas |
| ImageAnalyzer.DrawTriangle | app/src/main/java/com/bignerdranch/android/criminalintent/ImageAnalyzer.kt:310-322 | one pass of the triangle loop appends exactly the triangle's three edges |
| ImageAnalyzer.MeshOutcome | app/src/main/java/com/bignerdranch/android/criminalintent/ImageAnalyzer.kt:293-341 | the file is written exactly when detection succeeds, over the photo and without a count, and it is written with nothing drawn when no mesh is found |
| ImageAnalyzer.Argb | app/src/main/java/com/bignerdranch/android/criminalintent/ImageAnalyzer.kt:225 | the colour is a signed 32-bit value whose unsigned bits are the four channels packed |
| ImageAnalyzer.IsBackground | app/src/main/java/com/bignerdranch/android/criminalintent/ImageAnalyzer.kt:222-224 | a pixel is background exactly when its foreground chance is below 0.80 |
| ImageAnalyzer.BackgroundColors | app/src/main/java/com/bignerdranch/android/criminalintent/ImageAnalyzer.kt:217-228 | `colors` has one entry per pixel, magenta exactly for the background pixels and 0 exactly for the others |
| ImageAnalyzer.TooMuchBackground | app/src/main/java/com/bignerdranch/android/criminalintent/ImageAnalyzer.kt:218-232 | the photo is rejected exactly when 20 × background count exceeds 19 × width × height, i.e. more than 95% is background |
| ImageAnalyzer.CountBackground | app/src/main/java/com/bignerdranch/android/criminalintent/ImageAnalyzer.kt:219-229 | the background count never exceeds the number of pixels |
| ImageAnalyzer.CountIsMagentaEntries | app/src/main/java/com/bignerdranch/android/criminalintent/ImageAnalyzer.kt:217-229 | `amtBg` equals the number of magenta entries in `colors` |
| ImageAnalyzer.AllForegroundCount | app/src/main/java/com/bignerdranch/android/criminalintent/ImageAnalyzer.kt:220-229 | a mask without background pixels counts 0 |
| ImageAnalyzer.AllBackgroundCount | app/src/main/java/com/bignerdranch/android/criminalintent/ImageAnalyzer.kt:220-229 | a mask with only background pixels counts every pixel |
| ImageAnalyzer.ForegroundMaskAccepted | app/src/main/java/com/bignerdranch/android/criminalintent/ImageAnalyzer.kt:218-232 | a mask with no background pixel is never rejected |
| ImageAnalyzer.BackgroundMaskRejected | app/src/main/java/com/bignerdranch/android/criminalintent/ImageAnalyzer.kt:218-232 | a mask that is background everywhere is rejected, so nothing is written |
| ImageAnalyzer.SegmentOutcome | app/src/main/java/com/bignerdranch/android/criminalintent/ImageAnalyzer.kt:213-273 | the file is written exactly when segmentation succeeds and the background share is at most 95%; the composite is over the photo with one mask colour per pixel, and no count is reported |
| ImageAnalyzer.RowMajorInBounds | app/src/main/java/com/bignerdranch/android/criminalintent/ImageAnalyzer.kt:225 | every row-major index y*w+x lies in [0, w*h) |
| ImageAnalyzer.Segment | app/src/main/java/com/bignerdranch/android/criminalintent/ImageAnalyzer.kt:205-273 | reading the mask row-major tags exactly the pixels with background chance above 0.20 as magenta and leaves the rest 0; it writes nothing when more than 95% are background and writes the composite otherwise; a failure writes nothing |
| ImageAnalyzer.ReadMaskRow | app/src/main/java/com/bignerdranch/android/criminalintent/ImageAnalyzer.kt:221-228 | one row advances the buffer cursor by the width, classifies that row's entries and adds its background pixels to the count |
| CrimeDetail.SanitizedDate | app/src/main/java/com/bignerdranch/android/criminalintent/CrimeDetailFragment.kt:270 | each space and each colon of the date text becomes '_', and no other character changes |
| CrimeDetail.PhotoName | app/src/main/java/com/bignerdranch/android/criminalintent/CrimeDetailFragment.kt:270 | the name is "IMG_", then the sanitised date, then ".JPG", and contains no space or colon |
| CrimeDetail.PhotoNameKeepsPlainDate | app/src/main/java/com/bignerdranch/android/criminalintent/CrimeDetailFragment.kt:270 | a date text without spaces or colons appears unchanged in the name |
| CrimeDetail.FaceSummary | app/src/main/java/com/bignerdranch/android/criminalintent/CrimeDetailFragment.kt:76 | the label is the count's decimal digits followed by " face(s) detected", and the count can be read back from it |
| CrimeDetail.FaceSummaryInjective | app/src/main/java/com/bignerdranch/android/criminalintent/CrimeDetailFragment.kt:76 | different counts give different labels |
| CrimeDetail.EditTitle | app/src/main/java/com/bignerdranch/android/criminalintent/CrimeDetailFragment.kt:211-215 | the title edit sets the title and changes no other field |
| CrimeDetail.EditSolved | app/src/main/java/com/bignerdranch/android/criminalintent/CrimeDetailFragment.kt:217-221 | the solved checkbox sets `isSolved` and changes no other field |
| CrimeDetail.EditFace | app/src/main/java/com/bignerdranch/android/criminalintent/CrimeDetailFragment.kt:223-226 | the face checkbox writes `isFace` and no other field |
| CrimeDetail.EditMesh | app/src/main/java/com/bignerdranch/android/criminalintent/CrimeDetailFragment.kt:232-235 | the mesh checkbox writes `isMesh` and no other field |
| CrimeDetail.EditContour | app/src/main/java/com/bignerdranch/android/criminalintent/CrimeDetailFragment.kt:241-244 | the contour checkbox writes `isContour` and no other field |
| CrimeDetail.EditSelfie | app/src/main/java/com/bignerdranch/android/criminalintent/CrimeDetailFragment.kt:250-253 | the selfie checkbox writes `isSelfie` and no other field |
| CrimeDetail.EditSuspect | app/src/main/java/com/bignerdranch/android/criminalintent/CrimeDetailFragment.kt:394-396 | the chosen contact sets the suspect and changes no other field |
| CrimeDetail.EditDate | app/src/main/java/com/bignerdranch/android/criminalintent/CrimeDetailFragment.kt:306 | the picked date sets the date and changes no other field |
| CrimeDetail.SelectAnalysis | app/src/main/java/com/bignerdranch/android/criminalintent/CrimeDetailFragment.kt:72-98 | face wins if set, then mesh, then contour, then selfie; the plain save happens exactly when all four flags are clear |
| CrimeDetail.SelectionIgnoresOtherFields | app/src/main/java/com/bignerdranch/android/criminalintent/CrimeDetailFragment.kt:72-98 | the chosen analysis depends only on the four mode flags |
| CrimeDetail.SlotOf | app/src/main/java/com/bignerdranch/android/criminalintent/CrimeDetailFragment.kt:70-190 | index 0, 1 and 2 select slots 1, 2 and 3; every other value, negative or above 2, selects slot 4 |
| CrimeDetail.UpdateForCapture | app/src/main/java/com/bignerdranch/android/criminalintent/CrimeDetailFragment.kt:69-191 | the updated record has the photo name in the selected slot and equals the old record on every other field; the analysis returned is the one the flags select |
| CrimeDetail.CaptureBranches | app/src/main/java/com/bignerdranch/android/criminalintent/CrimeDetailFragment.kt:99-189 | the update is `copy(photoFileName = name)` for index 0, `photoFileName2` for 1, `photoFileName3` for 2 and `photoFileName4` for every other index |
| CrimeDetail.CaptureKeepsSummaryAndOtherSlots | app/src/main/java/com/bignerdranch/android/criminalintent/CrimeDetailFragment.kt:73-99 | a capture leaves the face summary, the analysis choice and the other three slots unchanged, so the face-count copy is lost |
| CrimeDetail.RouteOutcome | app/src/main/java/com/bignerdranch/android/criminalintent/CrimeDetailFragment.kt:72-98 | the plain save always writes the photo itself, and only face detection reports a count |
| CrimeDetail.UpdatePhoto | app/src/main/java/com/bignerdranch/android/criminalintent/CrimeDetailFragment.kt:411-436 | the view is untouched when its tag equals the file name; otherwise it shows an existing file and takes its name as tag, and for a missing file it clears the image and sets the tag to null |
| CrimeDetail.UpdatePhotoIdempotent | app/src/main/java/com/bignerdranch/android/criminalintent/CrimeDetailFragment.kt:411-436 | refreshing twice equals refreshing once, and the tag ends up as the file name or null |
| CrimeDetail.CaptureSession.OnCameraClick | app/src/main/java/com/bignerdranch/android/criminalintent/CrimeDetailFragment.kt:269-271 | the pending photo name becomes the name built from the current date text |
| CrimeDetail.CaptureSession.OnPictureTaken | app/src/main/java/com/bignerdranch/android/criminalintent/CrimeDetailFragment.kt:63-195 | nothing changes unless a photo was taken and a name is pending. Otherwise the file under the name holds what the selected analysis wrote, or the photo as the camera saved it when the analysis wrote nothing; the label shows "<n> face(s) detected" when faces were counted; the record gets the name in the slot of the view model's current index, so it always names an existing file; and one index increment is requested |
| CrimeDatabase.Migrations | app/src/main/java/com/bignerdranch/android/criminalintent/database/CrimeDatabase.kt:16-68 | the migrations form one chain of single steps 1→2→…→6 ending at the declared version 6 |
| CrimeDatabase.AddedUpToMonotone | app/src/main/java/com/bignerdranch/android/criminalintent/database/CrimeDatabase.kt:16-68 | the columns at an earlier version are a prefix of those at any later version |
| CrimeDatabase.AllAdded | app/src/main/java/com/bignerdranch/android/criminalintent/database/CrimeDatabase.kt:18-66 | the chain adds the columns of the five migrations, in order |
| CrimeDatabase.AddedNames | app/src/main/java/com/bignerdranch/android/criminalintent/database/CrimeDatabase.kt:19-66 | the added names are suspect, the four photo names, the four flags and numFacesDetected, in that order |
| CrimeDatabase.FinalColumnsDistinct | app/src/main/java/com/bignerdranch/android/criminalintent/database/CrimeDatabase.kt:19-66 | no column name is added twice or clashes with a version 1 column |
| CrimeDatabase.FinalPosition | app/src/main/java/com/bignerdranch/android/criminalintent/database/CrimeDatabase.kt:16-68 | every `Crime` property has a column of the same name in the final table |
| CrimeDatabase.FinalColumnsAreCrimeFields | app/src/main/java/com/bignerdranch/android/criminalintent/database/CrimeDatabase.kt:16-68 | the final table has exactly one column per `Crime` property |
| CrimeDatabase.AddedColumnDefaults | app/src/main/java/com/bignerdranch/android/criminalintent/database/CrimeDatabase.kt:18-66 | an added column is NOT NULL exactly when it has a default (`''` for text, `0` for flags); the nullable ones are the four photo columns, typed TEXT, without a default |
| CrimeDatabase.NextMigrationApplies | app/src/main/java/com/bignerdranch/android/criminalintent/database/CrimeDatabase.kt:16-68 | from any version below 6, the next migration's names do not clash and applying it gives the next version's table |
| CrimeDatabase.FinalNames | app/src/main/java/com/bignerdranch/android/criminalintent/database/CrimeDatabase.kt:16-68 | the fully migrated table has the version 1 columns followed by all the added ones |
| CrimeDatabase.Schema.constructor | app/src/main/java/com/bignerdranch/android/criminalintent/database/CrimeDatabase.kt:10 | a table starts at version 1 with the version 1 columns |
| CrimeDatabase.Schema.AddColumn | app/src/main/java/com/bignerdranch/android/criminalintent/database/CrimeDatabase.kt:18-20 | `ADD COLUMN` appends the column when its name is free and otherwise fails, leaving the table unchanged |
| CrimeDatabase.Schema.Migrate | app/src/main/java/com/bignerdranch/android/criminalintent/database/CrimeDatabase.kt:32-44 | a migration's statements append its columns in order and move the version to the migration's end; it succeeds whenever no name clashes, and the chain's next migration always succeeds on a valid table and keeps it valid; a failure only leaves some columns appended |
| CrimeDatabase.Schema.MigrateToLatest | app/src/main/java/com/bignerdranch/android/criminalintent/database/CrimeDatabase.kt:10-68 | the upgrade from any valid version reaches version 6, only appends columns, and ends with the final column list |

## Left out

- The ML Kit detectors (face, contour, mesh, segmentation) are not modelled. Their
  results, or their failure, are inputs, and each task completes synchronously.
- Android graphics are not modelled: `Canvas` pixel rasterisation, `Bitmap.copy`,
  `createBitmap`, `Matrix` rotation of pixels, the `SRC_OUT` composite and JPEG
  compression. Drawing is a list of primitives, and a composite is its base bitmap
  with the mask colours.
- File and stream I/O are not modelled: `FileOutputStream`, `filesDir`,
  `FileProvider`, and all of `rotateImage`. The files directory is a map from name to
  written image. A failed write is not modelled.
- Coroutines, lifecycle flows, `repeatOnLifecycle` and the `doOnLayout` deferral are
  not modelled. `UpdatePhoto` applies the deferred load at once.
- `CrimeDetailViewModel` (`updateCrime`, `incrementImgIdx`, `photoFileNameIndex`) is
  not part of this model. The index is a parameter of each capture, and the model only
  counts the increment requests.
- The checkbox cascade that unticks the other mode boxes depends on re-entrant
  listener behaviour and is not modelled. Each listener writes only its own flag.
- `getCrimeReport`, `parseContactSelection` (beyond the suspect edit),
  `canResolveIntent`, navigation, view binding, `updateUi`'s text fields, and Room's
  annotations and SQL execution are not modelled.
- The mask probabilities and the 0.20 and 0.95 thresholds are exact reals. Float
  rounding is not modelled.
- ImageAnalyzer.Contour: requires every contour to have at least one point. The
  source reads `points[0]` and would crash on an empty list.
- ImageAnalyzer.DetectFaceMesh: requires every mesh box to have non-zero width and
  height. For a zero-width box the source's scale is the Float NaN, which is not
  modelled.
- ImageAnalyzer.Segment: requires the mask buffer to hold exactly width × height
  values, as the segmenter provides, and a mask of positive width and height. A short
  buffer would throw in the source, and so would `createBitmap` for a 0 × 0 mask.
- ImageAnalyzer.SegmentOutcome: is defined only for masks of positive size, for the
  same reason as `ImageAnalyzer.Segment`.
- ImageAnalyzer.GetRotatedBitmap: requires a decoded photo of positive width and
  height. `createBitmap` throws for a zero size, and `decodeFile` returns null for a
  file it cannot decode. Neither exception is modelled.
- CrimeDetail.CaptureSession.OnPictureTaken: takes `photoFileNameIndex` as a
  parameter and does not model the view model's update of it. The callback only
  requests the update, and the wrap or saturation policy is not shown. The camera's
  own save of the photo is represented only by its decoded size and orientation tag.
  The method requires a positive decoded size, as `ImageAnalyzer.GetRotatedBitmap` does.
- CrimeDetail.UpdatePhoto: the image shown is the file name, not a scaled bitmap.
- The version 1 columns (`id`, `title`, `date`, `isSolved`) are not declared by any
  migration. The model takes them as the table's initial columns.

/** The detail screen's decision logic: the photo name, the per-field record edits,
    the photo-view refresh, and the capture callback that picks one analysis by the
    record's mode flags and files the photo under the slot the index selects. */
module CrimeDetail {
  import opened Wrappers
  import opened Crimes
  import opened Strings
  import IA = ImageAnalyzer

  // ---------------------------------------------------------------------------
  // Photo name

  const PhotoPrefix := "IMG_"
  const PhotoExtension := ".JPG"

  /** The date text with every space and every colon replaced by '_'. */
  function SanitizedDate(dateText: string): (r: string)
    ensures |r| == |dateText|
    ensures forall i :: 0 <= i < |dateText| ==>
      r[i] == (if dateText[i] == ' ' || dateText[i] == ':' then '_' else dateText[i])
    ensures ' ' !in r && ':' !in r
  {
    var noSpaces := ReplaceChar(dateText, ' ', '_');
    ReplaceCharRemoves(noSpaces, ':', '_');
    ReplaceChar(noSpaces, ':', '_')
  }

  /** `"IMG_" + date text with spaces and colons turned into '_' + ".JPG"`. */
  function PhotoName(dateText: string): (name: string)
    ensures |name| == |PhotoPrefix| + |dateText| + |PhotoExtension|
    ensures name[..|PhotoPrefix|] == PhotoPrefix
    ensures name[|name| - |PhotoExtension|..] == PhotoExtension
    ensures forall i :: 0 <= i < |dateText| ==>
      name[|PhotoPrefix| + i] == (if dateText[i] == ' ' || dateText[i] == ':' then '_' else dateText[i])
    ensures ' ' !in name && ':' !in name
  {
    var middle := SanitizedDate(dateText);
    var name := PhotoPrefix + middle + PhotoExtension;
    assert name[..|PhotoPrefix|] == PhotoPrefix;
    assert name[|name| - |PhotoExtension|..] == PhotoExtension;
    NotInConcat(' ', PhotoPrefix, middle, PhotoExtension);
    NotInConcat(':', PhotoPrefix, middle, PhotoExtension);
    name
  }

  lemma NotInConcat(c: char, a: string, b: string, d: string)
    requires c !in a && c !in b && c !in d
    ensures c !in a + b + d
  {
  }

  /** Date texts that already avoid spaces and colons are kept verbatim in the name. */
  lemma PhotoNameKeepsPlainDate(dateText: string)
    requires ' ' !in dateText && ':' !in dateText
    ensures PhotoName(dateText) == PhotoPrefix + dateText + PhotoExtension
  {
    var name := PhotoName(dateText);
    forall i | 0 <= i < |name|
      ensures name[i] == (PhotoPrefix + dateText + PhotoExtension)[i]
    {
      if i < |PhotoPrefix| {
        assert name[..|PhotoPrefix|][i] == name[i];
      } else if i < |PhotoPrefix| + |dateText| {
        assert dateText[i - |PhotoPrefix|] in dateText;
      } else {
        assert name[|name| - |PhotoExtension|..][i - (|name| - |PhotoExtension|)] == name[i];
      }
    }
  }

  // ---------------------------------------------------------------------------
  // Face summary

  const FaceSummarySuffix := " face(s) detected"

  /** `"$n face(s) detected"`: the count in decimal followed by the fixed suffix. */
  function FaceSummary(n: nat): (text: string)
    ensures |text| > |FaceSummarySuffix|
    ensures text[|text| - |FaceSummarySuffix|..] == FaceSummarySuffix
    ensures text[..|text| - |FaceSummarySuffix|] == NatToString(n)
    ensures AllDigits(text[..|text| - |FaceSummarySuffix|])
    ensures ParseDigits(text[..|text| - |FaceSummarySuffix|]) == n
  {
    var digits := NatToString(n);
    ParseNatToString(n);
    var text := digits + FaceSummarySuffix;
    assert text[..|text| - |FaceSummarySuffix|] == digits;
    assert text[|text| - |FaceSummarySuffix|..] == FaceSummarySuffix;
    text
  }

  /** Different counts give different summaries. */
  lemma FaceSummaryInjective(m: nat, n: nat)
    requires FaceSummary(m) == FaceSummary(n)
    ensures m == n
  {
    var t := FaceSummary(m);
    assert |NatToString(m)| == |t| - |FaceSummarySuffix| == |NatToString(n)|;
    NatToStringInjective(m, n);
  }

  // ---------------------------------------------------------------------------
  // Single-field edits (the `updateCrime { oldCrime.copy(...) }` lambdas)

  function EditTitle(c: Crime, text: string): (r: Crime)
    ensures r.title == text && SameExcept(c, r, Title)
  {
    c.(title := text)
  }

  function EditSolved(c: Crime, isChecked: bool): (r: Crime)
    ensures r.isSolved == isChecked && SameExcept(c, r, IsSolved)
  {
    c.(isSolved := isChecked)
  }

  /** Each mode checkbox writes only its own flag; unticking the other boxes is left to
      their own listeners. */
  function EditFace(c: Crime, isChecked: bool): (r: Crime)
    ensures r.isFace == isChecked && SameExcept(c, r, IsFace)
  {
    c.(isFace := isChecked)
  }

  function EditMesh(c: Crime, isChecked: bool): (r: Crime)
    ensures r.isMesh == isChecked && SameExcept(c, r, IsMesh)
  {
    c.(isMesh := isChecked)
  }

  function EditContour(c: Crime, isChecked: bool): (r: Crime)
    ensures r.isContour == isChecked && SameExcept(c, r, IsContour)
  {
    c.(isContour := isChecked)
  }

  function EditSelfie(c: Crime, isChecked: bool): (r: Crime)
    ensures r.isSelfie == isChecked && SameExcept(c, r, IsSelfie)
  {
    c.(isSelfie := isChecked)
  }

  function EditSuspect(c: Crime, suspect: string): (r: Crime)
    ensures r.suspect == suspect && SameExcept(c, r, Suspect)
  {
    c.(suspect := suspect)
  }

  function EditDate(c: Crime, newDate: Date): (r: Crime)
    ensures r.date == newDate && SameExcept(c, r, DateField)
  {
    c.(date := newDate)
  }

  // ---------------------------------------------------------------------------
  // Capture routing

  /** The analysis a capture runs. */
  datatype Analysis = FaceDetection | MeshDetection | ContourTracing | SelfieSegmentation | PlainSave

  /** Fixed precedence: face, then mesh, then contour, then selfie; the plain save only
      when no flag is set. */
  function SelectAnalysis(c: Crime): (a: Analysis)
    ensures a == FaceDetection <==> c.isFace
    ensures a == MeshDetection <==> !c.isFace && c.isMesh
    ensures a == ContourTracing <==> !c.isFace && !c.isMesh && c.isContour
    ensures a == SelfieSegmentation <==> !c.isFace && !c.isMesh && !c.isContour && c.isSelfie
    ensures a == PlainSave <==> !c.isFace && !c.isMesh && !c.isContour && !c.isSelfie
  {
    if c.isFace then FaceDetection
    else if c.isMesh then MeshDetection
    else if c.isContour then ContourTracing
    else if c.isSelfie then SelfieSegmentation
    else PlainSave
  }

  /** The analysis depends on the mode flags only: editing any other field keeps it. */
  lemma SelectionIgnoresOtherFields(a: Crime, b: Crime, f: Field)
    requires SameExcept(a, b, f)
    requires f !in {IsFace, IsMesh, IsContour, IsSelfie}
    ensures SelectAnalysis(a) == SelectAnalysis(b)
  {
    assert Get(a, IsFace) == Get(b, IsFace);
    assert Get(a, IsMesh) == Get(b, IsMesh);
    assert Get(a, IsContour) == Get(b, IsContour);
    assert Get(a, IsSelfie) == Get(b, IsSelfie);
  }

  /** Slot index 0, 1 and 2 select their own slot; every other value, negative or
      beyond 3, selects the fourth. */
  function SlotOf(index: int): (s: Slot)
    ensures s == Slot1 <==> index == 0
    ensures s == Slot2 <==> index == 1
    ensures s == Slot3 <==> index == 2
    ensures s == Slot4 <==> index != 0 && index != 1 && index != 2
  {
    if index == 0 then Slot1
    else if index == 1 then Slot2
    else if index == 2 then Slot3
    else Slot4
  }

  datatype Capture = Capture(crime: Crime, analysis: Analysis)

  /** The record update of the capture callback: the chosen slot's file name becomes
      the new photo's name and nothing else changes, whatever the analysis and whatever
      the detector reports (the face count copy made in the face callback is dropped). */
  function UpdateForCapture(oldCrime: Crime, index: int, photoName: string): (r: Capture)
    ensures r.analysis == SelectAnalysis(oldCrime)
    ensures PhotoAt(r.crime, SlotOf(index)) == Some(photoName)
    ensures SameExcept(oldCrime, r.crime, Photo(SlotOf(index)))
  {
    Capture(WithPhoto(oldCrime, SlotOf(index), Some(photoName)), SelectAnalysis(oldCrime))
  }

  /** The four branches of the callback, written out as `copy` calls. */
  lemma {:induction false} CaptureBranches(oldCrime: Crime, index: int, photoName: string)
    ensures index == 0 ==> UpdateForCapture(oldCrime, index, photoName).crime == oldCrime.(photoFileName := Some(photoName))
    ensures index == 1 ==> UpdateForCapture(oldCrime, index, photoName).crime == oldCrime.(photoFileName2 := Some(photoName))
    ensures index == 2 ==> UpdateForCapture(oldCrime, index, photoName).crime == oldCrime.(photoFileName3 := Some(photoName))
    ensures index != 0 && index != 1 && index != 2 ==>
      UpdateForCapture(oldCrime, index, photoName).crime == oldCrime.(photoFileName4 := Some(photoName))
  {
    var r := UpdateForCapture(oldCrime, index, photoName).crime;
    var s := SlotOf(index);
    var expected := match s
      case Slot1 => oldCrime.(photoFileName := Some(photoName))
      case Slot2 => oldCrime.(photoFileName2 := Some(photoName))
      case Slot3 => oldCrime.(photoFileName3 := Some(photoName))
      case Slot4 => oldCrime.(photoFileName4 := Some(photoName));
    forall g ensures Get(r, g) == Get(expected, g) {
      if g != Photo(s) {
        assert Get(oldCrime, g) == Get(r, g);
      }
    }
    FieldsDetermineRecord(r, expected);
  }

  /** The capture leaves the face summary, the mode flags and the other three photo
      slots exactly as they were. */
  lemma CaptureKeepsSummaryAndOtherSlots(oldCrime: Crime, index: int, photoName: string)
    ensures UpdateForCapture(oldCrime, index, photoName).crime.numFacesDetected == oldCrime.numFacesDetected
    ensures SelectAnalysis(UpdateForCapture(oldCrime, index, photoName).crime) == SelectAnalysis(oldCrime)
    ensures forall s :: s != SlotOf(index) ==> PhotoAt(UpdateForCapture(oldCrime, index, photoName).crime, s) == PhotoAt(oldCrime, s)
  {
    var r := UpdateForCapture(oldCrime, index, photoName).crime;
    assert Get(oldCrime, NumFacesDetected) == Get(r, NumFacesDetected);
    SelectionIgnoresOtherFields(oldCrime, r, Photo(SlotOf(index)));
    forall s | s != SlotOf(index) ensures PhotoAt(r, s) == PhotoAt(oldCrime, s) {
      assert Get(oldCrime, Photo(s)) == Get(r, Photo(s));
    }
  }

  /** What each detector would deliver for the captured photo. */
  datatype Detections = Detections(
    faces: IA.Task<seq<IA.Rect>>,
    contours: IA.Task<seq<IA.Face>>,
    meshes: IA.Task<seq<IA.FaceMesh>>,
    mask: IA.Task<IA.Mask>)

  /** The shape guarantees of the detectors' results that the drawing code relies on. */
  predicate DetectionsWellFormed(d: Detections) {
    && (d.contours.Succeeded? ==> IA.ContoursNonEmpty(d.contours.result))
    && (d.meshes.Succeeded? ==> IA.BoxesNonDegenerate(d.meshes.result))
    && (d.mask.Succeeded? ==> IA.MaskComplete(d.mask.result))
  }

  /** The effect of the chosen analysis on the output file. */
  function RouteOutcome(a: Analysis, bitmap: IA.Bitmap, d: Detections): (out: IA.Outcome)
    requires DetectionsWellFormed(d)
    ensures a == PlainSave ==> out == IA.Written(IA.Plain(bitmap), None)
    ensures out.Written? && out.reportedFaces.Some? ==> a == FaceDetection
  {
    match a
    case FaceDetection => IA.FacesOutcome(bitmap, d.faces)
    case MeshDetection => IA.MeshOutcome(bitmap, d.meshes)
    case ContourTracing => IA.ContourOutcome(bitmap, d.contours)
    case SelfieSegmentation => IA.SegmentOutcome(bitmap, d.mask)
    case PlainSave => IA.Written(IA.Plain(bitmap), None)
  }

  // ---------------------------------------------------------------------------
  // Photo views

  datatype Description = PhotoDescription | NoPhotoDescription

  /** An image view: its tag (the file name it shows), the file shown, and its
      content description. */
  datatype ImageView = ImageView(tag: Option<string>, shown: Option<string>, description: Description)

  /** `updatePhoto`: nothing to do when the tag already names the file; otherwise show
      the file if it exists, else clear the view and its tag. */
  function UpdatePhoto(view: ImageView, photoFileName: Option<string>, existing: set<string>): (v: ImageView)
    ensures view.tag == photoFileName ==> v == view
    ensures view.tag != photoFileName && photoFileName.Some? && photoFileName.value in existing ==>
      v.tag == photoFileName && v.shown == photoFileName && v.description == PhotoDescription
    ensures view.tag != photoFileName && (photoFileName.None? || photoFileName.value !in existing) ==>
      v.tag == None && v.shown == None && v.description == NoPhotoDescription
  {
    if view.tag == photoFileName then view
    else if photoFileName.Some? && photoFileName.value in existing then
      ImageView(photoFileName, photoFileName, PhotoDescription)
    else ImageView(None, None, NoPhotoDescription)
  }

  /** Refreshing twice with the same record and files is the same as refreshing once,
      and afterwards the tag is the file name or cleared. */
  lemma UpdatePhotoIdempotent(view: ImageView, photoFileName: Option<string>, existing: set<string>)
    ensures UpdatePhoto(UpdatePhoto(view, photoFileName, existing), photoFileName, existing)
         == UpdatePhoto(view, photoFileName, existing)
    ensures UpdatePhoto(view, photoFileName, existing).tag in {photoFileName, None}
  {
  }

  // ---------------------------------------------------------------------------
  // The capture callback

  /** The state the capture callback reads and writes: the record as the view model
      holds it, the pending photo name, the number of `incrementImgIdx` calls, the files
      in the app's files directory, and the "faces detected" label. */
  class CaptureSession {
    var crime: Crime
    var photoName: Option<string>
    var incrementCalls: nat
    var files: map<string, IA.Image>
    var facesDetectedText: string

    constructor(crime: Crime, files: map<string, IA.Image>)
      ensures this.crime == crime && this.files == files
      ensures photoName == None && incrementCalls == 0 && facesDetectedText == crime.numFacesDetected
    {
      this.crime := crime;
      this.photoName := None;
      this.incrementCalls := 0;
      this.files := files;
      this.facesDetectedText := crime.numFacesDetected;
    }

    /** The camera button: the photo name is built from the current date text. */
    method OnCameraClick(dateText: string)
      modifies this`photoName
      ensures photoName == Some(PhotoName(dateText))
    {
      photoName := Some(PhotoName(dateText));
    }

    /** The camera's result and the `takePhoto` callback. Nothing happens unless a photo
        was taken and a name is pending. Otherwise the camera has saved the photo under
        that name, and the photo (decoded at the given size, turned by its EXIF tag) goes
        through the analysis the record's flags select; an analysis that writes replaces
        the saved file, and a face count is shown on the label; the record gets the name
        in the slot of the view model's current index `photoFileNameIndex`, and the index
        increment is requested. */
    method OnPictureTaken(didTakePhoto: bool, decodedWidth: nat, decodedHeight: nat,
                          orientationTag: Option<int>, detections: Detections,
                          photoFileNameIndex: int)
      requires didTakePhoto && photoName.Some? ==> decodedWidth > 0 && decodedHeight > 0
      requires DetectionsWellFormed(detections)
      modifies this
      ensures photoName == old(photoName)
      ensures !(didTakePhoto && old(photoName).Some?) ==>
        && crime == old(crime) && files == old(files)
        && facesDetectedText == old(facesDetectedText) && incrementCalls == old(incrementCalls)
      ensures didTakePhoto && old(photoName).Some? ==>
        var name := old(photoName).value;
        var bitmap := IA.GetRotatedBitmap(decodedWidth, decodedHeight, orientationTag);
        var outcome := RouteOutcome(SelectAnalysis(old(crime)), bitmap, detections);
        var saved := IA.Camera(decodedWidth, decodedHeight, orientationTag);
        && crime == UpdateForCapture(old(crime), photoFileNameIndex, name).crime
        && files == old(files)[name := if outcome.Written? then outcome.image else saved]
        && PhotoAt(crime, SlotOf(photoFileNameIndex)) == Some(name) && name in files
        && facesDetectedText == (if outcome.Written? && outcome.reportedFaces.Some?
                                 then FaceSummary(outcome.reportedFaces.value)
                                 else old(facesDetectedText))
        && incrementCalls == old(incrementCalls) + 1
    {
      if didTakePhoto && photoName.Some? {
        var name := photoName.value;
        files := files[name := IA.Camera(decodedWidth, decodedHeight, orientationTag)];
        var bitmap := IA.GetRotatedBitmap(decodedWidth, decodedHeight, orientationTag);
        var oldCrime := crime;
        var outcome: IA.Outcome;
        match SelectAnalysis(oldCrime) {
          case FaceDetection => outcome := IA.DetectFaces(bitmap, detections.faces);
          case MeshDetection => outcome := IA.DetectFaceMesh(bitmap, detections.meshes);
          case ContourTracing => outcome := IA.Contour(bitmap, detections.contours);
          case SelfieSegmentation => outcome := IA.Segment(bitmap, detections.mask);
          case PlainSave => outcome := IA.Written(IA.Plain(bitmap), None);
        }
        if outcome.Written? {
          files := files[name := outcome.image];
          if outcome.reportedFaces.Some? {
            facesDetectedText := FaceSummary(outcome.reportedFaces.value);
          }
        }
        crime := UpdateForCapture(oldCrime, photoFileNameIndex, name).crime;
        incrementCalls := incrementCalls + 1;
      }
    }
  }
}

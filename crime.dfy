/** The case record (`Crime`): an immutable value with defaults, updated only by
    copying with some fields replaced. */
module Crimes {
  import opened Wrappers

  /** `java.util.UUID`: two 64-bit halves. */
  datatype Uuid = Uuid(mostSignificant: int, leastSignificant: int)

  /** `java.util.Date`: milliseconds since the epoch. */
  datatype Date = Date(millis: int)

  datatype Crime = Crime(
    id: Uuid,
    title: string,
    date: Date,
    isSolved: bool,
    isFace: bool,
    isMesh: bool,
    isContour: bool,
    isSelfie: bool,
    suspect: string,
    photoFileName: Option<string>,
    photoFileName2: Option<string>,
    photoFileName3: Option<string>,
    photoFileName4: Option<string>,
    numFacesDetected: string)

  /** The constructor call that names only the parameters without a default. */
  function NewCrime(id: Uuid, title: string, date: Date, isSolved: bool,
                    isFace: bool, isMesh: bool, isContour: bool, isSelfie: bool): (c: Crime)
    ensures c.id == id && c.title == title && c.date == date && c.isSolved == isSolved
    ensures c.isFace == isFace && c.isMesh == isMesh && c.isContour == isContour && c.isSelfie == isSelfie
    ensures c.suspect == "" && c.numFacesDetected == ""
    ensures forall s :: PhotoAt(c, s) == None
  {
    Crime(id, title, date, isSolved, isFace, isMesh, isContour, isSelfie, "", None, None, None, None, "")
  }

  /** The four photo slots of a record. */
  datatype Slot = Slot1 | Slot2 | Slot3 | Slot4

  function PhotoAt(c: Crime, s: Slot): Option<string> {
    match s
    case Slot1 => c.photoFileName
    case Slot2 => c.photoFileName2
    case Slot3 => c.photoFileName3
    case Slot4 => c.photoFileName4
  }

  /** `copy(photoFileNameK = name)` for the field of slot `s`. */
  function WithPhoto(c: Crime, s: Slot, name: Option<string>): (r: Crime)
    ensures PhotoAt(r, s) == name
    ensures SameExcept(c, r, Photo(s))
  {
    match s
    case Slot1 => c.(photoFileName := name)
    case Slot2 => c.(photoFileName2 := name)
    case Slot3 => c.(photoFileName3 := name)
    case Slot4 => c.(photoFileName4 := name)
  }

  /** Position of a slot in `PhotoSlots`. */
  function SlotPosition(s: Slot): (k: nat)
    ensures k < 4
  {
    match s
    case Slot1 => 0
    case Slot2 => 1
    case Slot3 => 2
    case Slot4 => 3
  }

  /** A record holds exactly four optional photo references, one per slot. */
  function PhotoSlots(c: Crime): (r: seq<Option<string>>)
    ensures |r| == 4
    ensures forall s :: r[SlotPosition(s)] == PhotoAt(c, s)
    ensures forall s, t :: SlotPosition(s) == SlotPosition(t) ==> s == t
  {
    [c.photoFileName, c.photoFileName2, c.photoFileName3, c.photoFileName4]
  }

  /** The fields of a record, as named by the entity (and by the table columns). */
  datatype Field =
    | Id | Title | DateField | IsSolved
    | IsFace | IsMesh | IsContour | IsSelfie
    | Suspect | Photo(slot: Slot) | NumFacesDetected

  /** A field's value, whatever its type. */
  datatype Value =
    | UuidValue(uuid: Uuid) | TextValue(text: string) | DateValue(date: Date)
    | FlagValue(flag: bool) | PhotoValue(name: Option<string>)

  function Get(c: Crime, f: Field): Value {
    match f
    case Id => UuidValue(c.id)
    case Title => TextValue(c.title)
    case DateField => DateValue(c.date)
    case IsSolved => FlagValue(c.isSolved)
    case IsFace => FlagValue(c.isFace)
    case IsMesh => FlagValue(c.isMesh)
    case IsContour => FlagValue(c.isContour)
    case IsSelfie => FlagValue(c.isSelfie)
    case Suspect => TextValue(c.suspect)
    case Photo(s) => PhotoValue(PhotoAt(c, s))
    case NumFacesDetected => TextValue(c.numFacesDetected)
  }

  /** `b` agrees with `a` on every field but `f`: what a one-argument `copy` produces. */
  ghost predicate SameExcept(a: Crime, b: Crime, f: Field) {
    forall g :: g != f ==> Get(a, g) == Get(b, g)
  }

  /** Two records that agree on every field are the same record. */
  lemma {:induction false} FieldsDetermineRecord(a: Crime, b: Crime)
    requires forall g :: Get(a, g) == Get(b, g)
    ensures a == b
  {
    assert Get(a, Id) == Get(b, Id);
    assert Get(a, Title) == Get(b, Title);
    assert Get(a, DateField) == Get(b, DateField);
    assert Get(a, IsSolved) == Get(b, IsSolved);
    assert Get(a, IsFace) == Get(b, IsFace);
    assert Get(a, IsMesh) == Get(b, IsMesh);
    assert Get(a, IsContour) == Get(b, IsContour);
    assert Get(a, IsSelfie) == Get(b, IsSelfie);
    assert Get(a, Suspect) == Get(b, Suspect);
    assert Get(a, Photo(Slot1)) == Get(b, Photo(Slot1));
    assert Get(a, Photo(Slot2)) == Get(b, Photo(Slot2));
    assert Get(a, Photo(Slot3)) == Get(b, Photo(Slot3));
    assert Get(a, Photo(Slot4)) == Get(b, Photo(Slot4));
    assert Get(a, NumFacesDetected) == Get(b, NumFacesDetected);
  }

  /** The primary key survives every one-field copy except one of `id` itself. */
  lemma IdIsKept(a: Crime, b: Crime, f: Field)
    requires SameExcept(a, b, f) && f != Id
    ensures b.id == a.id
  {
    assert Get(a, Id) == Get(b, Id);
  }

  /** The four mode flags are independent: the type admits every combination,
      including several set at once. */
  lemma ModeFlagsIndependent(id: Uuid, title: string, date: Date, isSolved: bool,
                             face: bool, mesh: bool, contour: bool, selfie: bool)
    ensures exists c: Crime :: c.id == id && c.isFace == face && c.isMesh == mesh
                               && c.isContour == contour && c.isSelfie == selfie
  {
    var c := NewCrime(id, title, date, isSolved, face, mesh, contour, selfie);
    assert c.isFace == face && c.isMesh == mesh && c.isContour == contour && c.isSelfie == selfie;
  }

  /** Every field, in declaration order. */
  const AllFields: seq<Field> := [
    Id, Title, DateField, IsSolved, IsFace, IsMesh, IsContour, IsSelfie, Suspect,
    Photo(Slot1), Photo(Slot2), Photo(Slot3), Photo(Slot4), NumFacesDetected]

  /** The property name of a field, which is also its column name in the table. */
  function ColumnName(f: Field): string {
    match f
    case Id => "id"
    case Title => "title"
    case DateField => "date"
    case IsSolved => "isSolved"
    case IsFace => "isFace"
    case IsMesh => "isMesh"
    case IsContour => "isContour"
    case IsSelfie => "isSelfie"
    case Suspect => "suspect"
    case Photo(Slot1) => "photoFileName"
    case Photo(Slot2) => "photoFileName2"
    case Photo(Slot3) => "photoFileName3"
    case Photo(Slot4) => "photoFileName4"
    case NumFacesDetected => "numFacesDetected"
  }

  /** `AllFields` lists every field. */
  lemma AllFieldsComplete()
    ensures forall f :: f in AllFields
  {
    forall f ensures f in AllFields {
      match f
      case Photo(s) => assert AllFields[9 + SlotPosition(s)] == f;
      case _ =>
    }
  }
}

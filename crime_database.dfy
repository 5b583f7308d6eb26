/** The `Crime` table's schema history: version 6, reached from version 1 by five
    migrations that each run `ALTER TABLE Crime ADD COLUMN` statements in order. */
module CrimeDatabase {
  import opened Wrappers
  import Crimes

  /** The version the database declares. */
  const DatabaseVersion: nat := 6

  datatype SqlType = Text | Integer

  /** A column as an `ADD COLUMN` clause declares it. */
  datatype Column = Column(name: string, sqlType: SqlType, notNull: bool, default: Option<string>)

  /** A migration between two versions, by the columns its statements add, in order. */
  datatype Migration = Migration(startVersion: nat, endVersion: nat, added: seq<Column>)

  const Migration1To2 := Migration(1, 2, [
    Column("suspect", Text, true, Some("''"))])

  const Migration2To3 := Migration(2, 3, [
    Column("photoFileName", Text, false, None)])

  const Migration3To4 := Migration(3, 4, [
    Column("photoFileName2", Text, false, None),
    Column("photoFileName3", Text, false, None),
    Column("photoFileName4", Text, false, None)])

  const Migration4To5 := Migration(4, 5, [
    Column("isFace", Integer, true, Some("0")),
    Column("isMesh", Integer, true, Some("0")),
    Column("isContour", Integer, true, Some("0")),
    Column("isSelfie", Integer, true, Some("0"))])

  const Migration5To6 := Migration(5, 6, [
    Column("numFacesDetected", Text, true, Some("''"))])

  /** The migrations form one chain of single steps from version 1 to the declared version. */
  function Migrations(): (ms: seq<Migration>)
    ensures |ms| == DatabaseVersion - 1
    ensures ms[0].startVersion == 1 && ms[|ms| - 1].endVersion == DatabaseVersion
    ensures forall i :: 0 <= i < |ms| ==> ms[i].startVersion == i + 1 && ms[i].endVersion == i + 2
    ensures forall i :: 0 <= i < |ms| - 1 ==> ms[i].endVersion == ms[i + 1].startVersion
  {
    [Migration1To2, Migration2To3, Migration3To4, Migration4To5, Migration5To6]
  }

  /** The columns the table has at version 1 (not declared by any migration). */
  const Version1ColumnNames: seq<string> := ["id", "title", "date", "isSolved"]

  function Names(columns: seq<Column>): (names: seq<string>)
    ensures |names| == |columns|
    ensures forall i :: 0 <= i < |columns| ==> names[i] == columns[i].name
  {
    seq(|columns|, i requires 0 <= i < |columns| => columns[i].name)
  }

  predicate Distinct(names: seq<string>) {
    forall i, j :: 0 <= i < j < |names| ==> names[i] != names[j]
  }

  /** The columns added on the way from version 1 to version `v`, in order. */
  function AddedUpTo(v: nat): seq<Column>
    requires 1 <= v <= DatabaseVersion
  {
    if v == 1 then [] else AddedUpTo(v - 1) + Migrations()[v - 2].added
  }

  /** Migrating further only appends: the columns at an earlier version are a prefix
      of those at a later one. */
  lemma {:induction false} AddedUpToMonotone(v: nat, w: nat)
    requires 1 <= v <= w <= DatabaseVersion
    ensures AddedUpTo(v) <= AddedUpTo(w)
    decreases w - v
  {
    if v < w {
      AddedUpToMonotone(v, w - 1);
    }
  }

  /** Everything the chain adds, in order. */
  lemma AllAdded()
    ensures AddedUpTo(DatabaseVersion) == Migration1To2.added + Migration2To3.added
      + Migration3To4.added + Migration4To5.added + Migration5To6.added
  {
  }

  /** The version 1 columns followed by every added column. */
  const FinalColumnNames: seq<string> := Version1ColumnNames + [
    "suspect", "photoFileName", "photoFileName2", "photoFileName3", "photoFileName4",
    "isFace", "isMesh", "isContour", "isSelfie", "numFacesDetected"]

  /** The chain adds, in order, the names after the version 1 ones. */
  lemma AddedNames()
    ensures Names(AddedUpTo(DatabaseVersion)) == FinalColumnNames[|Version1ColumnNames|..]
  {
    AllAdded();
  }

  /** No column name is added twice, nor clashes with a version 1 column: names of
      equal length differ in their last character. */
  lemma FinalColumnsDistinct()
    ensures Distinct(FinalColumnNames)
  {
    var names := FinalColumnNames;
    forall i, j | 0 <= i < j < |names| ensures names[i] != names[j] {
      if |names[i]| == |names[j]| {
        assert names[i][|names[i]| - 1] != names[j][|names[j]| - 1];
      }
    }
  }

  /** Position of a property's column in the final table. */
  function FinalPosition(f: Crimes.Field): (k: nat)
    ensures k < |FinalColumnNames| && FinalColumnNames[k] == Crimes.ColumnName(f)
  {
    match f
    case Id => 0
    case Title => 1
    case DateField => 2
    case IsSolved => 3
    case Suspect => 4
    case Photo(s) => 5 + Crimes.SlotPosition(s)
    case IsFace => 9
    case IsMesh => 10
    case IsContour => 11
    case IsSelfie => 12
    case NumFacesDetected => 13
  }

  /** The final table has exactly one column per `Crime` property: every property has
      a column, there are as many columns as properties, and no two columns share a name. */
  lemma FinalColumnsAreCrimeFields()
    ensures |FinalColumnNames| == |Crimes.AllFields|
    ensures forall f :: Crimes.ColumnName(f) in FinalColumnNames
    ensures Distinct(FinalColumnNames)
  {
    FinalColumnsDistinct();
    forall f ensures Crimes.ColumnName(f) in FinalColumnNames {
      var k := FinalPosition(f);
    }
  }

  /** The added NOT NULL columns all have a default (`''` for text, `0` for the flags);
      the nullable ones are the four photo columns (added second to fifth), without a
      default. */
  lemma AddedColumnDefaults()
    ensures forall i :: 0 <= i < |AddedUpTo(DatabaseVersion)| ==>
      var c := AddedUpTo(DatabaseVersion)[i];
      && (c.notNull <==> c.default.Some?)
      && (c.notNull ==> c.default == Some(if c.sqlType == Text then "''" else "0"))
      && (!c.notNull <==> 1 <= i <= 4)
      && (!c.notNull ==> c.sqlType == Text)
    ensures Names(AddedUpTo(DatabaseVersion)[1..5]) == [
      Crimes.ColumnName(Crimes.Photo(Crimes.Slot1)), Crimes.ColumnName(Crimes.Photo(Crimes.Slot2)),
      Crimes.ColumnName(Crimes.Photo(Crimes.Slot3)), Crimes.ColumnName(Crimes.Photo(Crimes.Slot4))]
  {
    AllAdded();
    var added := AddedUpTo(DatabaseVersion);
    assert added[1..5] == Migration2To3.added + Migration3To4.added;
    forall i | 0 <= i < |added|
      ensures !added[i].notNull <==> 1 <= i <= 4
    {
      if i < 5 {
        assert i == 0 || i == 1 || i == 2 || i == 3 || i == 4;
      } else {
        assert i == 5 || i == 6 || i == 7 || i == 8 || i == 9;
      }
    }
  }

  /** A prefix of a list of distinct names is distinct too. */
  lemma DistinctPrefix(names: seq<string>, k: nat)
    requires Distinct(names) && k <= |names|
    ensures Distinct(names[..k])
  {
  }

  /** From a valid table at version `v` below the declared one, the next migration's
      names do not clash, and applying it yields the table of version `v + 1`. */
  lemma NextMigrationApplies(initial: seq<Column>, v: nat)
    requires Names(initial) == Version1ColumnNames && 1 <= v < DatabaseVersion
    ensures initial + AddedUpTo(v) + Migrations()[v - 1].added == initial + AddedUpTo(v + 1)
    ensures Distinct(Names(initial + AddedUpTo(v) + Migrations()[v - 1].added))
  {
    var next := initial + AddedUpTo(v + 1);
    assert initial + AddedUpTo(v) + Migrations()[v - 1].added == next;
    FinalNames(initial);
    AddedUpToMonotone(v + 1, DatabaseVersion);
    var full := initial + AddedUpTo(DatabaseVersion);
    assert next <= full;
    assert Names(next) == FinalColumnNames[..|next|];
    FinalColumnsDistinct();
    DistinctPrefix(FinalColumnNames, |next|);
  }

  /** The fully migrated table has the final column names. */
  lemma FinalNames(initial: seq<Column>)
    requires Names(initial) == Version1ColumnNames
    ensures Names(initial + AddedUpTo(DatabaseVersion)) == FinalColumnNames
  {
    AddedNames();
    NamesConcat(initial, AddedUpTo(DatabaseVersion));
    assert FinalColumnNames == Version1ColumnNames + FinalColumnNames[|Version1ColumnNames|..];
  }

  lemma NamesConcat(a: seq<Column>, b: seq<Column>)
    ensures Names(a + b) == Names(a) + Names(b)
  {
  }

  /** The `Crime` table as the migrations see it. */
  class Schema {
    var version: nat
    var columns: seq<Column>
    ghost const initial: seq<Column>

    /** The table holds the version 1 columns and what the chain added up to its version. */
    ghost predicate Valid()
      reads this
    {
      && 1 <= version <= DatabaseVersion
      && Names(initial) == Version1ColumnNames
      && columns == initial + AddedUpTo(version)
    }

    constructor(initial: seq<Column>)
      requires Names(initial) == Version1ColumnNames
      ensures Valid() && version == 1 && columns == initial && this.initial == initial
    {
      version := 1;
      columns := initial;
      this.initial := initial;
    }

    /** One `ALTER TABLE Crime ADD COLUMN` statement: refused, leaving the table as it
        is, when the name is already taken. */
    method AddColumn(c: Column) returns (ok: bool)
      modifies this`columns
      ensures ok <==> c.name !in Names(old(columns))
      ensures columns == if ok then old(columns) + [c] else old(columns)
    {
      ok := c.name !in Names(columns);
      if ok {
        columns := columns + [c];
      }
    }

    /** One migration's `migrate`, followed by the version update. The table grows by the
        migration's columns, in order; it succeeds whenever no name clashes, and the next
        migration of the chain always succeeds on a valid table and keeps it valid. */
    method Migrate(m: Migration) returns (ok: bool)
      requires version == m.startVersion
      modifies this`columns, this`version
      ensures Distinct(Names(old(columns) + m.added)) ==> ok
      ensures old(Valid()) && old(version) < DatabaseVersion && m == Migrations()[old(version) - 1] ==>
        ok && Valid()
      ensures ok ==> columns == old(columns) + m.added && version == m.endVersion
      ensures !ok ==> old(columns) <= columns && version == old(version)
    {
      if Valid() && version < DatabaseVersion && m == Migrations()[version - 1] {
        NextMigrationApplies(initial, version);
      }
      var i := 0;
      ok := true;
      while i < |m.added| && ok
        invariant 0 <= i <= |m.added|
        invariant ok ==> columns == old(columns) + m.added[..i]
        invariant !ok ==> old(columns) <= columns
        invariant !ok ==> !Distinct(Names(old(columns) + m.added))
        invariant version == old(version)
      {
        ghost var before := columns;
        ok := AddColumn(m.added[i]);
        if !ok {
          ghost var names := Names(old(columns) + m.added);
          ghost var j :| 0 <= j < |before| && before[j].name == m.added[i].name;
          assert names[j] == names[|old(columns)| + i];
        } else {
          assert m.added[..i + 1] == m.added[..i] + [m.added[i]];
        }
        i := i + 1;
      }
      if ok {
        assert m.added[..|m.added|] == m.added;
        version := m.endVersion;
      }
    }

    /** Room's upgrade: run the chain from the current version up to the declared one.
        The table only grows, and ends with one column per `Crime` property. */
    method MigrateToLatest()
      requires Valid()
      modifies this`columns, this`version
      ensures Valid() && version == DatabaseVersion
      ensures old(columns) <= columns
      ensures Names(columns) == FinalColumnNames
    {
      while version < DatabaseVersion
        invariant Valid()
        invariant old(columns) <= columns
        decreases DatabaseVersion - version
      {
        var ok := Migrate(Migrations()[version - 1]);
      }
      FinalNames(initial);
    }
  }
}

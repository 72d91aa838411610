/**
 * The map-document import pipeline: migration of older documents to format
 * version 2, fail-fast structural validation with its one silent repair, and the
 * parse -> migrate -> validate -> callback sequencing of an import.
 *
 * The JavaScript functions mutate their argument; here each returns the
 * resulting document instead, and a thrown error becomes a `Failure`.
 */
module MapIo {
  import opened Wrappers
  import opened JsonValue
  import Tileset

  /** One variant per way an import can be abandoned. */
  datatype ImportError =
    | MalformedJson    // the text did not parse
    | NullDocument     // the document is `null` or `undefined`, so reading a field of it throws
    | InvalidBaseMap
    | MissingVersion
    | InvalidHeight
    | InvalidWidth
    | InvalidTile
    | InvalidArrays

  /** `null` and `undefined`: the values whose plain field reads throw a TypeError. */
  predicate IsNullish(doc: Json) {
    doc.JNull? || doc.JUndefined?
  }

  /** The format version this pipeline produces. */
  const CurrentVersion := 2

  /** The name given to a legacy document that has none. */
  const DefaultName := "map_001"

  //////////////////////////////////////////////////////////////////////////////
  // Migration
  //////////////////////////////////////////////////////////////////////////////

  /** A JavaScript number as far as version comparison needs it. */
  datatype Num = Finite(n: int) | NaN

  /**
   * `Number(j)`. Exact for `undefined`, `null`, booleans, integers, `""`, `[]`
   * and objects without an own `toString` key; every other string or array is
   * taken to be NaN. An object with an own `toString` makes JavaScript throw a
   * TypeError, and is read as NaN here as well.
   */
  function ToNumber(j: Json): Num {
    match j
    case JUndefined => NaN
    case JNull => Finite(0)
    case JBool(b) => Finite(if b then 1 else 0)
    case JInt(n) => Finite(n)
    case JStr(s) => if s == "" then Finite(0) else NaN
    case JArr(elems) => if |elems| == 0 then Finite(0) else NaN
    case JObj(_) => NaN
  }

  /** `Number(doc?.version || 1)`: a missing or falsy version counts as 1. */
  function VersionNumber(doc: Json): Num {
    var raw := Field(doc, "version");
    ToNumber(OrElse(raw, JInt(1)))
  }

  /** The document is already at the current format (`v >= 2`; NaN compares false). */
  predicate IsCurrent(doc: Json) {
    var v := VersionNumber(doc);
    v.Finite? && v.n >= CurrentVersion
  }

  /**
   * The coercion table of the version check: a falsy version reads as 1, an
   * integer as itself, `true` as 1, objects (see `ToNumber` for an object with
   * an own `toString`) and non-empty strings as NaN; so a
   * document is current exactly when it is an object whose version is an
   * integer of at least 2.
   */
  lemma VersionCoercion(doc: Json, n: int, s: string)
    ensures !Truthy(Field(doc, "version")) ==> VersionNumber(doc) == Finite(1) && !IsCurrent(doc)
    ensures Field(doc, "version") == JInt(n) && n != 0 ==> VersionNumber(doc) == Finite(n)
    ensures Field(doc, "version") == JBool(true) ==> VersionNumber(doc) == Finite(1)
    ensures Field(doc, "version").JObj? ==> VersionNumber(doc) == NaN
    ensures Field(doc, "version") == JStr(s) && s != "" ==> VersionNumber(doc) == NaN
    ensures IsCurrent(doc) <==>
      doc.JObj? && Field(doc, "version").JInt? && Field(doc, "version").n >= CurrentVersion
  {
  }

  predicate IsEntityKey(key: string) {
    key == "units" || key == "forts" || key == "reinforcements"
  }

  /** The value an entity field holds after `||= []`. */
  function WithDefault(v: Json): Json {
    OrElse(v, JArr([]))
  }

  /** `fields[key] ||= []` has happened: a truthy value is kept, anything else became `[]`. */
  predicate DefaultedField(before: map<string, Json>, after: map<string, Json>, key: string) {
    key in after && Lookup(after, key) == WithDefault(Lookup(before, key))
  }

  /** `after` is `before` with the three entity fields defaulted and nothing else changed. */
  ghost predicate EntitiesDefaulted(before: map<string, Json>, after: map<string, Json>) {
    && (forall k :: k in after <==> k in before || IsEntityKey(k))
    && (forall k :: Lookup(after, k) == if IsEntityKey(k) then WithDefault(Lookup(before, k)) else Lookup(before, k))
  }

  /** `units ||= []; forts ||= []; reinforcements ||= []`. */
  function FillEntityArrays(fields: map<string, Json>): (r: map<string, Json>)
    ensures EntitiesDefaulted(fields, r)
  {
    var withUnits := DefaultIfFalsy(fields, "units", JArr([]));
    var withForts := DefaultIfFalsy(withUnits, "forts", JArr([]));
    DefaultIfFalsy(withForts, "reinforcements", JArr([]))
  }

  /** The three entity fields of an object are all truthy. */
  predicate HasEntityFields(doc: Json) {
    Truthy(Field(doc, "units")) && Truthy(Field(doc, "forts")) && Truthy(Field(doc, "reinforcements"))
  }

  /** The fresh version-2 record built from a legacy document. */
  predicate LegacyUpgraded(doc: Json, out: Json) {
    && out.JObj?
    && out.fields.Keys == {"version", "name", "w", "h", "tiles", "units", "forts", "reinforcements"}
    && Field(out, "version") == JInt(CurrentVersion)
    && Field(out, "name") == (if Truthy(Field(doc, "name")) then Field(doc, "name") else JStr(DefaultName))
    && Field(out, "w") == Field(doc, "w")
    && Field(out, "h") == Field(doc, "h")
    && Field(out, "tiles") == Field(doc, "tiles")
    && Field(out, "units") == JArr([])
    && Field(out, "forts") == JArr([])
    && Field(out, "reinforcements") == JArr([])
  }

  /** The object literal the legacy branch returns. */
  function Upgrade(doc: Json): map<string, Json> {
    var name := Field(doc, "name");
    map[
      "version" := JInt(CurrentVersion),
      "name" := if Truthy(name) then name else JStr(DefaultName),
      "w" := Field(doc, "w"),
      "h" := Field(doc, "h"),
      "tiles" := Field(doc, "tiles"),
      "units" := JArr([]),
      "forts" := JArr([]),
      "reinforcements" := JArr([])
    ]
  }

  /** `migrateIfNeeded(doc)`. */
  function Migrate(doc: Json): (r: Result<Json, ImportError>)
    ensures r.Failure? <==> IsNullish(doc)
    ensures r.Failure? ==> r.error == NullDocument
    ensures r.Success? ==> r.value.JObj? && IsCurrent(r.value) && HasEntityFields(r.value)
    ensures IsCurrent(doc) ==> doc.JObj? && r.Success? && r.value.JObj? && EntitiesDefaulted(doc.fields, r.value.fields)
    ensures !IsCurrent(doc) && !IsNullish(doc) ==> r.Success? && LegacyUpgraded(doc, r.value)
  {
    if IsCurrent(doc) then
      CurrentStaysCurrent(doc.fields);
      Success(JObj(FillEntityArrays(doc.fields)))
    else if IsNullish(doc) then Failure(NullDocument)
    else
      UpgradeIsLegacyRecord(doc);
      Success(JObj(Upgrade(doc)))
  }

  /** Defaulting the entity fields leaves the version alone and makes every entity field truthy. */
  lemma CurrentStaysCurrent(fields: map<string, Json>)
    requires IsCurrent(JObj(fields))
    ensures IsCurrent(JObj(FillEntityArrays(fields))) && HasEntityFields(JObj(FillEntityArrays(fields)))
  {
    var out := FillEntityArrays(fields);
    assert Lookup(out, "version") == Lookup(fields, "version");
  }

  /** The rebuilt record is the version-2 record the legacy branch promises. */
  lemma UpgradeIsLegacyRecord(doc: Json)
    ensures LegacyUpgraded(doc, JObj(Upgrade(doc)))
    ensures IsCurrent(JObj(Upgrade(doc))) && HasEntityFields(JObj(Upgrade(doc)))
  {
  }

  /** A missing or falsy version is read as 1, so such a document is rebuilt as a legacy one. */
  lemma FalsyVersionIsLegacy(doc: Json)
    requires !Truthy(Field(doc, "version")) && !IsNullish(doc)
    ensures Migrate(doc).Success? && LegacyUpgraded(doc, Migrate(doc).value)
  {
  }

  /** An integer version of at least 2 keeps the object, defaulting only the entity arrays. */
  lemma CurrentVersionKept(doc: Json, n: int)
    requires doc.JObj? && Field(doc, "version") == JInt(n) && n >= CurrentVersion
    ensures Migrate(doc).Success? && EntitiesDefaulted(doc.fields, Migrate(doc).value.fields)
  {
  }

  /** Migrating an already-migrated document returns it unchanged. */
  lemma {:induction false} MigrateIdempotent(doc: Json)
    requires Migrate(doc).Success?
    ensures Migrate(Migrate(doc).value) == Migrate(doc)
  {
    var d := Migrate(doc).value;
    assert IsCurrent(d);
    FillEntityArraysKeepsTruthy(d.fields);
  }

  /** Defaulting changes nothing when the three entity fields are already truthy. */
  lemma FillEntityArraysKeepsTruthy(fields: map<string, Json>)
    requires Truthy(Lookup(fields, "units")) && Truthy(Lookup(fields, "forts"))
    requires Truthy(Lookup(fields, "reinforcements"))
    ensures FillEntityArrays(fields) == fields
  {
  }

  //////////////////////////////////////////////////////////////////////////////
  // Validation
  //////////////////////////////////////////////////////////////////////////////

  /**
   * `t in TILESET`. The left operand is first turned into a property key: a
   * string is itself, and a one-element array stringifies to its element, so
   * `["floor"]` names a terrain too. Numbers, booleans, `null`, objects, empty
   * arrays and arrays of several elements never stringify to a registry key.
   * An object with an own `toString` key makes the conversion throw a
   * TypeError; the model reports it as a failed tile check.
   */
  predicate NamesTerrain(t: Json) {
    match t
    case JStr(s) => Tileset.IsTerrainKey(s)
    case JArr(elems) => |elems| == 1 && NamesTerrain(elems[0])
    case _ => false
  }

  /**
   * A string tile passes exactly when it is one of the six registry keys, and
   * wrapping a tile value in a one-element array does not change the outcome;
   * no other kind of value ever passes.
   */
  lemma StringTileNamesTerrain(s: string, t: Json)
    ensures NamesTerrain(JStr(s)) <==>
      s == "floor" || s == "wall" || s == "forest" || s == "water" || s == "mountain" || s == "throne"
    ensures NamesTerrain(JArr([t])) == NamesTerrain(t)
    ensures forall n :: !NamesTerrain(JInt(n))
    ensures forall b :: !NamesTerrain(JBool(b))
    ensures forall f :: !NamesTerrain(JObj(f))
    ensures !NamesTerrain(JNull) && !NamesTerrain(JUndefined)
    ensures forall elems :: |elems| != 1 ==> !NamesTerrain(JArr(elems))
  {
    Tileset.TileKeysInOrder();
  }

  /** `!map.w || !map.h || !Array.isArray(map.tiles)` is false. */
  predicate BaseOk(doc: Json) {
    Truthy(Field(doc, "w")) && Truthy(Field(doc, "h")) && Field(doc, "tiles").JArr?
  }

  /** `map.tiles.length === map.h`. */
  predicate HeightOk(doc: Json)
    requires BaseOk(doc)
  {
    Field(doc, "h") == JInt(|Field(doc, "tiles").elems|)
  }

  /** `Array.isArray(row) && row.length === w`. */
  predicate RowShapeOk(row: Json, w: Json) {
    row.JArr? && w == JInt(|row.elems|)
  }

  /** `cell?.t` is truthy and names a terrain. */
  predicate CellOk(cell: Json) {
    Truthy(Field(cell, "t")) && NamesTerrain(Field(cell, "t"))
  }

  predicate RowOk(row: Json, w: Json) {
    RowShapeOk(row, w) && forall j :: 0 <= j < |row.elems| ==> CellOk(row.elems[j])
  }

  /** Every row before index `n` passes both the width and the tile check. */
  predicate RowsOkBefore(rows: seq<Json>, w: Json, n: nat)
    requires n <= |rows|
  {
    forall i :: 0 <= i < n ==> RowOk(rows[i], w)
  }

  /** An entity field survives `||= []` followed by the `Array.isArray` check. */
  predicate EntityFieldOk(doc: Json, key: string) {
    !Truthy(Field(doc, key)) || Field(doc, key).JArr?
  }

  /** Everything `validateMap` demands of a document, stated without its check order. */
  predicate Acceptable(doc: Json) {
    && BaseOk(doc)
    && Truthy(Field(doc, "version"))
    && HeightOk(doc)
    && RowsOkBefore(Field(doc, "tiles").elems, Field(doc, "w"), |Field(doc, "tiles").elems|)
    && EntityFieldOk(doc, "units")
    && EntityFieldOk(doc, "forts")
    && EntityFieldOk(doc, "reinforcements")
  }

  /** The first row to fail is one of the wrong shape (so the error is "Invalid width"). */
  predicate FailsOnWidth(rows: seq<Json>, w: Json) {
    exists i :: 0 <= i < |rows| && RowsOkBefore(rows, w, i) && !RowShapeOk(rows[i], w)
  }

  /** The first row to fail has the right shape but a bad tile (so the error is "Invalid tile"). */
  predicate FailsOnTile(rows: seq<Json>, w: Json) {
    exists i :: 0 <= i < |rows| && RowsOkBefore(rows, w, i) && RowShapeOk(rows[i], w) && !RowOk(rows[i], w)
  }

  /** `after` is `before` with only `v` repaired: a number is kept, anything else became 0. */
  predicate CellRepaired(before: Json, after: Json) {
    && before.JObj? && after.JObj?
    && after.fields.Keys == before.fields.Keys + {"v"}
    && (forall k :: k in before.fields && k != "v" ==> after.fields[k] == before.fields[k])
    && Field(after, "v") == (if Field(before, "v").JInt? then Field(before, "v") else JInt(0))
  }

  predicate RowRepaired(before: Json, after: Json) {
    && before.JArr? && after.JArr?
    && |after.elems| == |before.elems|
    && forall j :: 0 <= j < |before.elems| ==> CellRepaired(before.elems[j], after.elems[j])
  }

  predicate RowsRepaired(before: seq<Json>, after: seq<Json>) {
    |after| == |before| && forall i :: 0 <= i < |before| ==> RowRepaired(before[i], after[i])
  }

  /** `if (typeof cell.v !== "number") cell.v = 0`. */
  function RepairCell(cell: Json): (r: Json)
    requires cell.JObj?
    ensures CellRepaired(cell, r)
    ensures CellOk(cell) ==> CellOk(r)
  {
    if Field(cell, "v").JInt? then cell else JObj(cell.fields["v" := JInt(0)])
  }

  /** The inner `row.forEach`: fail on the first bad tile, otherwise repair every `v`. */
  function CheckCells(cells: seq<Json>): (r: Result<seq<Json>, ImportError>)
    ensures r.Success? <==> forall j :: 0 <= j < |cells| ==> CellOk(cells[j])
    ensures r.Failure? ==> r.error == InvalidTile
    ensures r.Success? ==> |r.value| == |cells|
    ensures r.Success? ==> forall j :: 0 <= j < |cells| ==> CellRepaired(cells[j], r.value[j]) && CellOk(r.value[j])
  {
    if |cells| == 0 then Success([])
    else if !CellOk(cells[0]) then Failure(InvalidTile)
    else
      var rest :- CheckCells(cells[1..]);
      Success([RepairCell(cells[0])] + rest)
  }

  /** The outer `tiles.forEach`: rows in order, each checked for shape and then cell by cell. */
  function CheckRows(rows: seq<Json>, w: Json): (r: Result<seq<Json>, ImportError>)
    ensures r.Success? <==> RowsOkBefore(rows, w, |rows|)
    ensures r.Failure? ==> r.error == InvalidWidth || r.error == InvalidTile
    ensures r == Failure(InvalidWidth) <==> FailsOnWidth(rows, w)
    ensures r == Failure(InvalidTile) <==> FailsOnTile(rows, w)
    ensures r.Success? ==> RowsRepaired(rows, r.value) && RowsOkBefore(r.value, w, |r.value|)
  {
    if |rows| == 0 then Success([])
    else if !RowShapeOk(rows[0], w) then
      FirstRowFails(rows, w);
      Failure(InvalidWidth)
    else if CheckCells(rows[0].elems).Failure? then
      FirstRowFails(rows, w);
      Failure(InvalidTile)
    else
      var cells := CheckCells(rows[0].elems).value;
      FailuresShift(rows, w);
      var rest :- CheckRows(rows[1..], w);
      Success([JArr(cells)] + rest)
  }

  /** A failing first row decides the error. */
  lemma FirstRowFails(rows: seq<Json>, w: Json)
    requires |rows| > 0 && !RowOk(rows[0], w)
    ensures !RowShapeOk(rows[0], w) ==> FailsOnWidth(rows, w) && !FailsOnTile(rows, w)
    ensures RowShapeOk(rows[0], w) ==> FailsOnTile(rows, w) && !FailsOnWidth(rows, w)
  {
    assert RowsOkBefore(rows, w, 0);
  }

  /** Past a passing first row, the outcome is decided by the remaining rows, shifted by one. */
  lemma FailuresShift(rows: seq<Json>, w: Json)
    requires |rows| > 0 && RowOk(rows[0], w)
    ensures RowsOkBefore(rows[1..], w, |rows| - 1) <==> RowsOkBefore(rows, w, |rows|)
    ensures FailsOnWidth(rows[1..], w) <==> FailsOnWidth(rows, w)
    ensures FailsOnTile(rows[1..], w) <==> FailsOnTile(rows, w)
  {
    var tail := rows[1..];
    forall i | 0 <= i < |tail|
      ensures RowsOkBefore(tail, w, i) <==> RowsOkBefore(rows, w, i + 1)
    {
      assert forall k :: 0 <= k < i ==> tail[k] == rows[k + 1];
    }
    if FailsOnWidth(rows, w) {
      var i :| 0 <= i < |rows| && RowsOkBefore(rows, w, i) && !RowShapeOk(rows[i], w);
      assert i > 0;
      assert RowsOkBefore(tail, w, i - 1);
    }
    if FailsOnTile(rows, w) {
      var i :| 0 <= i < |rows| && RowsOkBefore(rows, w, i) && RowShapeOk(rows[i], w) && !RowOk(rows[i], w);
      assert i > 0;
      assert RowsOkBefore(tail, w, i - 1);
    }
  }

  /** The three entity fields are arrays. */
  predicate EntityArrays(doc: Json) {
    Field(doc, "units").JArr? && Field(doc, "forts").JArr? && Field(doc, "reinforcements").JArr?
  }

  /** Every cell carries a numeric `v`. */
  predicate PayloadsNumeric(rows: seq<Json>) {
    forall i, j :: 0 <= i < |rows| && rows[i].JArr? && 0 <= j < |rows[i].elems| ==>
      Field(rows[i].elems[j], "v").JInt?
  }

  /** What holds of every document `validateMap` lets through. */
  predicate ValidMap(doc: Json) {
    && Acceptable(doc)
    && EntityArrays(doc)
    && PayloadsNumeric(Field(doc, "tiles").elems)
  }

  /** `out` is `doc` with only cell payloads repaired and falsy entity fields defaulted. */
  ghost predicate Repaired(doc: Json, out: Json) {
    && doc.JObj? && out.JObj?
    && (forall k :: k in out.fields <==> k in doc.fields || IsEntityKey(k))
    && (forall k :: k != "tiles" && !IsEntityKey(k) ==> Lookup(out.fields, k) == Lookup(doc.fields, k))
    && Field(doc, "tiles").JArr? && Field(out, "tiles").JArr?
    && RowsRepaired(Field(doc, "tiles").elems, Field(out, "tiles").elems)
    && DefaultedField(doc.fields, out.fields, "units")
    && DefaultedField(doc.fields, out.fields, "forts")
    && DefaultedField(doc.fields, out.fields, "reinforcements")
  }

  /** `validateMap(doc)`, returning the repaired document. */
  function Validate(doc: Json): (r: Result<Json, ImportError>)
    ensures r == Failure(NullDocument) <==> IsNullish(doc)
    ensures !IsNullish(doc) && !BaseOk(doc) ==> r == Failure(InvalidBaseMap)
    ensures BaseOk(doc) && !Truthy(Field(doc, "version")) ==> r == Failure(MissingVersion)
    ensures BaseOk(doc) && Truthy(Field(doc, "version")) && !HeightOk(doc) ==> r == Failure(InvalidHeight)
    ensures BaseOk(doc) && Truthy(Field(doc, "version")) && HeightOk(doc) ==>
      (r == Failure(InvalidWidth) <==> FailsOnWidth(Field(doc, "tiles").elems, Field(doc, "w")))
    ensures BaseOk(doc) && Truthy(Field(doc, "version")) && HeightOk(doc) ==>
      (r == Failure(InvalidTile) <==> FailsOnTile(Field(doc, "tiles").elems, Field(doc, "w")))
    ensures r == Failure(InvalidArrays) <==>
      && BaseOk(doc) && Truthy(Field(doc, "version")) && HeightOk(doc)
      && RowsOkBefore(Field(doc, "tiles").elems, Field(doc, "w"), |Field(doc, "tiles").elems|)
      && !(EntityFieldOk(doc, "units") && EntityFieldOk(doc, "forts") && EntityFieldOk(doc, "reinforcements"))
    ensures r.Success? <==> Acceptable(doc)
    ensures r.Success? ==> ValidMap(r.value) && Repaired(doc, r.value)
  {
    if IsNullish(doc) then Failure(NullDocument)
    else if !BaseOk(doc) then Failure(InvalidBaseMap)
    else if !Truthy(Field(doc, "version")) then Failure(MissingVersion)
    else if !HeightOk(doc) then Failure(InvalidHeight)
    else
      var rows :- CheckRows(Field(doc, "tiles").elems, Field(doc, "w"));
      var fields := FillEntityArrays(doc.fields["tiles" := JArr(rows)]);
      ValidatedArrays(doc, rows, fields);
      ValidatedMap(doc, rows, fields);
      ValidatedRepair(doc, rows, fields);
      if EntityArrays(JObj(fields)) then Success(JObj(fields)) else Failure(InvalidArrays)
  }

  /** After a successful grid check, the entity-array test passes exactly for acceptable documents. */
  lemma ValidatedArrays(doc: Json, rows: seq<Json>, fields: map<string, Json>)
    requires BaseOk(doc) && Truthy(Field(doc, "version")) && HeightOk(doc)
    requires RowsOkBefore(Field(doc, "tiles").elems, Field(doc, "w"), |Field(doc, "tiles").elems|)
    requires fields == FillEntityArrays(doc.fields["tiles" := JArr(rows)])
    ensures EntityArrays(JObj(fields)) <==> Acceptable(doc)
  {
    RebuiltFields(doc.fields, rows, fields);
    var out := JObj(fields);
    assert Field(out, "units").JArr? <==> EntityFieldOk(doc, "units");
    assert Field(out, "forts").JArr? <==> EntityFieldOk(doc, "forts");
    assert Field(out, "reinforcements").JArr? <==> EntityFieldOk(doc, "reinforcements");
  }

  /** A rebuilt document whose entity fields are arrays is a valid map. */
  lemma ValidatedMap(doc: Json, rows: seq<Json>, fields: map<string, Json>)
    requires BaseOk(doc) && Truthy(Field(doc, "version")) && HeightOk(doc)
    requires RowsRepaired(Field(doc, "tiles").elems, rows) && RowsOkBefore(rows, Field(doc, "w"), |rows|)
    requires fields == FillEntityArrays(doc.fields["tiles" := JArr(rows)])
    ensures EntityArrays(JObj(fields)) ==> ValidMap(JObj(fields))
  {
    RebuiltFields(doc.fields, rows, fields);
    RepairedRowsNumeric(Field(doc, "tiles").elems, rows);
  }

  /** The rebuilt document differs from its input only by the repairs. */
  lemma ValidatedRepair(doc: Json, rows: seq<Json>, fields: map<string, Json>)
    requires doc.JObj? && Field(doc, "tiles").JArr?
    requires RowsRepaired(Field(doc, "tiles").elems, rows)
    requires fields == FillEntityArrays(doc.fields["tiles" := JArr(rows)])
    ensures Repaired(doc, JObj(fields))
  {
    RebuiltFields(doc.fields, rows, fields);
    assert Field(JObj(fields), "tiles") == JArr(rows);
    assert DefaultedField(doc.fields, fields, "units");
    assert DefaultedField(doc.fields, fields, "forts");
    assert DefaultedField(doc.fields, fields, "reinforcements");
  }

  /** Replacing `tiles` and defaulting the entity fields leaves every other field alone. */
  lemma RebuiltFields(before: map<string, Json>, rows: seq<Json>, fields: map<string, Json>)
    requires "tiles" in before
    requires fields == FillEntityArrays(before["tiles" := JArr(rows)])
    ensures forall k :: k in fields <==> k in before || IsEntityKey(k)
    ensures forall k :: k != "tiles" ==>
      Lookup(fields, k) == if IsEntityKey(k) then WithDefault(Lookup(before, k)) else Lookup(before, k)
    ensures Lookup(fields, "tiles") == JArr(rows)
  {
    var replaced := before["tiles" := JArr(rows)];
    assert forall k :: k != "tiles" ==> Lookup(replaced, k) == Lookup(before, k);
  }

  /** Rows that went through the payload repair carry a numeric `v` in every cell. */
  lemma RepairedRowsNumeric(before: seq<Json>, after: seq<Json>)
    requires RowsRepaired(before, after)
    ensures PayloadsNumeric(after)
  {
  }

  /** Cells that already pass the tile check and carry a numeric `v` come back unchanged. */
  lemma {:induction false} CheckCellsFixpoint(cells: seq<Json>)
    requires forall j :: 0 <= j < |cells| ==> CellOk(cells[j]) && Field(cells[j], "v").JInt?
    ensures CheckCells(cells) == Success(cells)
  {
    if |cells| > 0 {
      CheckCellsFixpoint(cells[1..]);
      assert [cells[0]] + cells[1..] == cells;
    }
  }

  /** Rows of a valid grid with numeric payloads come back unchanged. */
  lemma {:induction false} CheckRowsFixpoint(rows: seq<Json>, w: Json)
    requires RowsOkBefore(rows, w, |rows|) && PayloadsNumeric(rows)
    ensures CheckRows(rows, w) == Success(rows)
  {
    if |rows| > 0 {
      assert RowOk(rows[0], w);
      CheckCellsFixpoint(rows[0].elems);
      assert PayloadsNumeric(rows[1..]);
      CheckRowsFixpoint(rows[1..], w);
      assert [JArr(rows[0].elems)] + rows[1..] == rows;
    }
  }

  /** Validation is the identity on valid maps: it has nothing left to repair or reject. */
  lemma ValidMapIsFixpoint(doc: Json)
    requires ValidMap(doc)
    ensures Validate(doc) == Success(doc)
  {
    var tiles := Field(doc, "tiles").elems;
    CheckRowsFixpoint(tiles, Field(doc, "w"));
    assert doc.fields["tiles" := JArr(tiles)] == doc.fields;
    FillEntityArraysKeepsTruthy(doc.fields);
  }

  /** Validating an already-validated document returns it unchanged. */
  lemma ValidateIdempotent(doc: Json)
    requires Acceptable(doc)
    ensures Validate(doc).Success? && Validate(Validate(doc).value) == Validate(doc)
  {
    ValidMapIsFixpoint(Validate(doc).value);
  }

  /** Validation changes neither the version nor the object-ness the migration check looks at. */
  lemma ValidatePreservesVersion(doc: Json)
    requires Acceptable(doc)
    ensures Validate(doc).Success? && Validate(doc).value.JObj?
    ensures Field(Validate(doc).value, "version") == Field(doc, "version")
  {
  }

  /**
   * The checks run in a fixed order: a 3-wide, 2-high document holding one row
   * of one cell stops at the missing version, and once it has a version, at the
   * row count, before any row width is looked at.
   */
  lemma ValidationOrderExample()
    ensures var cell := JObj(map["t" := JStr("floor"), "v" := JInt(0)]);
            var base := map["w" := JInt(3), "h" := JInt(2), "tiles" := JArr([JArr([cell])])];
            && Validate(JObj(base)) == Failure(MissingVersion)
            && Validate(JObj(base["version" := JInt(2)])) == Failure(InvalidHeight)
  {
    var cell := JObj(map["t" := JStr("floor"), "v" := JInt(0)]);
    var base := map["w" := JInt(3), "h" := JInt(2), "tiles" := JArr([JArr([cell])])];
    assert BaseOk(JObj(base)) && Field(JObj(base), "version") == JUndefined;
    var versioned := JObj(base["version" := JInt(2)]);
    assert BaseOk(versioned) && Field(versioned, "version") == JInt(2);
    assert Field(versioned, "h") == JInt(2) && |Field(versioned, "tiles").elems| == 1;
  }

  //////////////////////////////////////////////////////////////////////////////
  // Import
  //////////////////////////////////////////////////////////////////////////////

  /**
   * The `try` block of `importMap`'s load handler, given the outcome of
   * `JSON.parse` (`None` when it threw). `Success(d)` means the callback is
   * invoked, exactly once, with `d`; `Failure` means it is never invoked.
   */
  function ImportMap(parsed: Option<Json>): (r: Result<Json, ImportError>)
    ensures parsed.None? ==> r == Failure(MalformedJson)
    ensures r.Success? <==>
      parsed.Some? && Migrate(parsed.value).Success? && Acceptable(Migrate(parsed.value).value)
    ensures r.Success? ==> IsCurrent(r.value) && ValidMap(r.value)
    ensures r.Success? ==> Repaired(Migrate(parsed.value).value, r.value)
    ensures r != Failure(MissingVersion)
  {
    match parsed
    case None => Failure(MalformedJson)
    case Some(json) =>
      var upgraded :- Migrate(json);
      assert Truthy(Field(upgraded, "version"));
      var validated :- Validate(upgraded);
      ValidatePreservesVersion(upgraded);
      Success(validated)
  }

  /** Every document the callback can receive is delivered unchanged when imported again. */
  lemma ImportFixpoint(doc: Json)
    requires IsCurrent(doc) && ValidMap(doc)
    ensures ImportMap(Some(doc)) == Success(doc)
  {
    FillEntityArraysKeepsTruthy(doc.fields);
    assert Migrate(doc) == Success(doc);
    ValidMapIsFixpoint(doc);
  }
}

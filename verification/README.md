# Map document import pipeline, in Dafny

This project models how the tile-map editor imports a map document, together
with the two fixed registries that import depends on.

- **Migration** (`migrateIfNeeded`) brings a parsed document up to format
  version 2. A document whose version coerces to a number of at least 2 is kept,
  and any falsy `units`, `forts` or `reinforcements` field becomes `[]`. Any
  other document is rebuilt as a fresh version-2 record. That record takes its
  `w`, `h` and `tiles` from the input. Its `name` is the input's name when truthy,
  `"map_001"` otherwise. Its entity arrays are empty.
- **Validation** (`validateMap`) fails fast, in this order: "Invalid base map",
  "Missing version", "Invalid height", then row by row "Invalid width" or
  "Invalid tile", and last "Invalid arrays". On the way it silently sets a
  non-numeric cell payload `v` to 0 and defaults falsy entity fields to `[]`.
- **Import** (`importMap`) chains parse, migrate, validate and the callback. The
  callback runs exactly when all three stages succeed.
- **Registries** (`tileset.js`): six terrain kinds with their `walkable` flags,
  the key list `TILE_KEYS`, six unit classes, and the `classLabel` /
  `classShort` lookups.

Files:

- `json.dfy`: module `JsonValue`. JavaScript values as a `Json` datatype.
  `JUndefined` stands for a missing property. It also appears as a stored value,
  because the legacy branch copies `map.w`, `map.h` and `map.tiles` even when
  they are absent. The module also defines JavaScript truthiness, property reads
  (`j?.key`) and the `||=` assignment.
- `tileset.dfy`: module `Tileset`. The terrain registry and the unit-class
  table.
- `io.dfy`: module `MapIo`. Migration, validation and import. A thrown error
  becomes `Failure(e)`, with one `ImportError` variant per throw site. A parse
  failure becomes `MalformedJson`. A field read on a `null` or `undefined`
  document becomes `NullDocument`: `migrateIfNeeded` throws on `map.name` and
  `validateMap` on `map.w`.
- `wrappers.dfy`: module `Wrappers`. `Option` and `Result`.

Each operation has a partner property:

- Migration is idempotent (`MigrateIdempotent`).
- Validation is the identity on the maps it produces (`ValidMapIsFixpoint`,
  `ValidateIdempotent`).
- `Validate` succeeds exactly on documents satisfying `Acceptable`, a
  declarative statement of all the checks with no ordering.
- A delivered document re-imports to itself (`ImportFixpoint`).
- `ImportMap` can never fail with "Missing version", because migration always
  leaves a truthy version.

The tile check `cell.t in TILESET` converts its left operand to a property key
(`NamesTerrain`). A string names a terrain exactly when it is one of the six
keys. A one-element array stringifies to its element, so `["floor"]` passes as
well. Numbers, booleans, `null`, objects, empty arrays and longer arrays never
pass.

Behaviour of the code worth knowing:

- `{w:3, h:2, tiles:[[{t:"floor",v:0}]]}` fails with "Missing version". With a
  version added, it fails with "Invalid height", because only one row is
  present. No width check is reached. `ValidationOrderExample` states both
  outcomes.
- The legacy branch keeps `name` only when it is truthy, and otherwise uses
  `"map_001"`.
- A one-element array that holds a terrain key passes the tile check.

## Model

| member | source | states |
|---|---|---|
| `JsonValue.DefaultIfFalsy` | io.js:30-32 | `x ||= fallback` on one field: a truthy value leaves the object unchanged; otherwise that key now holds the fallback, and every other key keeps its value |
| `Tileset.KeysOf` | tileset.js:10 | `Object.keys` of the registry lists every entry's key, in declaration order |
| `Tileset.TileKeysInOrder` | tileset.js:2-10 | `TILE_KEYS` is exactly floor, wall, forest, water, mountain, throne in that order, without duplicates; a string is a terrain key iff it is one of those six |
| `Tileset.WalkableTerrains` | tileset.js:3-8 | an entry is walkable iff its key is floor, forest or throne; wall, water and mountain are not walkable |
| `Tileset.UnitClassTable` | tileset.js:13-20 | six unit classes; keys are pairwise distinct; `short` glyphs are pairwise distinct and each one character long |
| `Tileset.FindClass` | tileset.js:23 | `find` returns nothing iff no class has the key; otherwise it returns the first class with that key |
| `Tileset.ClassLabel` | tileset.js:22-24 | returns the label of the class whose key matches; when no class matches, returns the key itself |
| `Tileset.ClassShort` | tileset.js:26-28 | returns the glyph of the class whose key matches, or `"?"` when none does; the result is always one character |
| `MapIo.FillEntityArrays` | io.js:30-32 | after the three `||= []` assignments, each entity field keeps its truthy value or is `[]`; the key set gains exactly the three entity keys; no other field changes |
| `MapIo.VersionCoercion` | io.js:27-28 | a falsy or missing version reads as 1; an integer reads as itself; `true` reads as 1; objects and non-empty strings read as NaN (an object with an own `toString` included, see "Left out"); a document is current iff it is an object whose version is an integer >= 2 |
| `MapIo.Migrate` | io.js:25-46 | fails exactly on `null` and `undefined`; every result is an object at version >= 2 with truthy entity fields; a current document keeps every field except that falsy entity fields become `[]`; any other document becomes exactly the eight-field v2 record, which keeps `w`/`h`/`tiles`, keeps a truthy name or uses "map_001", and has empty entity arrays |
| `MapIo.CurrentStaysCurrent` | io.js:28-33 | defaulting the entity arrays of a current document keeps it current and makes all three entity fields truthy |
| `MapIo.UpgradeIsLegacyRecord` | io.js:36-45 | the rebuilt record has exactly the eight fields, version 2, the input's `w`/`h`/`tiles`, the name or "map_001", and empty entity arrays |
| `MapIo.FalsyVersionIsLegacy` | io.js:27-45 | for any document other than `null`/`undefined`, a missing or falsy version is read as 1, so the document is rebuilt as a fresh version-2 record |
| `MapIo.CurrentVersionKept` | io.js:27-33 | an integer version of at least 2 keeps the same object, with only its entity arrays defaulted |
| `MapIo.FillEntityArraysKeepsTruthy` | io.js:30-32 | when all three entity fields are truthy, the defaulting assignments change nothing |
| `MapIo.MigrateIdempotent` | io.js:25-46 | migrating a migrated document returns it unchanged |
| `MapIo.StringTileNamesTerrain` | io.js:56 | a string tile passes the registry check iff it is one of the six keys; wrapping a tile value in a one-element array does not change the outcome; every number, boolean, object, `null`, `undefined` and every array whose length is not one fails |
| `MapIo.RepairCell` | io.js:57 | a numeric `v` is kept; any other `v`, including a missing one, becomes 0; no other field of the cell changes, and a valid tile stays valid |
| `MapIo.CheckCells` | io.js:55-58 | succeeds iff every cell has a truthy `t` naming a terrain; otherwise fails with "Invalid tile"; on success each cell is returned with only `v` repaired |
| `MapIo.CheckRows` | io.js:53-59 | succeeds iff every row is an array of length `w` with valid cells; fails with "Invalid width" iff the first failing row has the wrong shape, and with "Invalid tile" iff it has the right shape but a bad cell; on success every row is returned with its payloads repaired |
| `MapIo.Validate` | io.js:48-68 | the error order: `null`/`undefined`, then "Invalid base map", "Missing version", "Invalid height", first bad row ("Invalid width" / "Invalid tile"), "Invalid arrays"; succeeds iff the document is `Acceptable`; on success the result is a valid map that differs from the input only in repaired `v` payloads and defaulted entity fields |
| `MapIo.FirstRowFails` | io.js:53-56 | when the first row fails, a wrong shape means the failure is "Invalid width" and not "Invalid tile"; a right shape with a bad cell means the reverse |
| `MapIo.FailuresShift` | io.js:53-59 | after a passing first row, the grid passes, fails on width, or fails on a tile exactly when the remaining rows do |
| `MapIo.ValidatedArrays` | io.js:61-67 | once the grid has passed, the `Array.isArray` test on the defaulted entity fields passes iff each field was falsy or already an array |
| `MapIo.ValidatedMap` | io.js:53-67 | a rebuilt document whose entity fields are arrays is a valid map: it passes every check again, and every cell carries a numeric `v` |
| `MapIo.ValidatedRepair` | io.js:53-63 | the rebuilt document keeps every field except `tiles`, whose cells change only in `v`, and the three entity fields, which are defaulted |
| `MapIo.RebuiltFields` | io.js:57-63 | replacing the grid and defaulting the entity fields adds only the entity keys; it leaves every other field of the document alone |
| `MapIo.RepairedRowsNumeric` | io.js:57 | after the payload repair, every cell carries a numeric `v` |
| `MapIo.CheckCellsFixpoint` | io.js:55-58 | cells that are valid and already numeric come back unchanged |
| `MapIo.CheckRowsFixpoint` | io.js:53-59 | a valid grid with numeric payloads comes back unchanged |
| `MapIo.ValidMapIsFixpoint` | io.js:48-68 | validation returns every valid map unchanged |
| `MapIo.ValidateIdempotent` | io.js:48-68 | an acceptable document validates, and validating the result again returns it unchanged |
| `MapIo.ValidatePreservesVersion` | io.js:48-68 | an acceptable document validates to an object that keeps the input's `version` field |
| `MapIo.ValidationOrderExample` | io.js:49-54 | a 3x2 document with a single one-cell row fails on "Missing version"; with a version it fails on "Invalid height", before any width check |
| `MapIo.ImportMap` | io.js:12-20 | a parse failure gives MalformedJson; the callback runs iff parse, migrate and validate all succeed; the document it receives is the migrated input with only validation's repairs applied, and is current and valid; "Missing version" can never be the failure |
| `MapIo.ImportFixpoint` | io.js:12-20 | every current, valid document, which includes every document the callback can receive, is handed over unchanged when imported again |

## Left out

- `exportMap` (io.js:1-7) is Blob, link and download plumbing. Its filename default `name || "map"` is not modelled.
- Text parsing and printing (`JSON.parse`, `JSON.stringify`) are library calls. `ImportMap` takes the parse outcome as an `Option<Json>`.
- `FileReader`, `console.error` and `alert` in `importMap` are I/O. A callback that itself throws is not modelled.
- Numbers are integers. Non-integral JSON numbers are not represented.
- MapIo.ToNumber: `Number(version)` is modelled for integers, booleans, `null`, `""`, `[]` and objects without an own `toString` key only. Any other string or array counts as NaN, so `"2"` or `[2]` as a version is migrated as legacy where JavaScript would keep the document.
- MapIo.VersionCoercion: an object version with an own `toString` key (`{"toString": 0}`), or an array holding one, is read as NaN. `Number` throws a TypeError on it in JavaScript. So the model rebuilds such a document as a legacy record and can import it, where the source alerts and never calls the callback.
- MapIo.NamesTerrain: `in` also finds keys inherited from `Object.prototype`, such as `"toString"` and `"constructor"`. The model accepts only the registry's six own keys. A tile that is an object with an own `toString` key, or an array holding one, makes `in` throw a TypeError. The model reports that as "Invalid tile".
- Mutation is modelled as returning a new value. In the source, the current branch of migration and the validator mutate their argument. Validation may rewrite some `v` payloads before a later throw. The model ignores both effects, which are invisible to a failed import's callback.
- JSON object key order is not represented, because objects are Dafny maps.
- The render colours of `TILESET` are presentation data.
- `app.js` holds only stylesheet rules and has no logic.

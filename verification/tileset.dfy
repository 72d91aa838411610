/**
 * The two fixed registries of the editor: terrain kinds (the `TILESET` object and
 * its key list `TILE_KEYS`) and the six unit classes with their label and glyph
 * lookups. Render colours are not modelled.
 */
module Tileset {
  import opened Wrappers

  /** One own property of `TILESET`: its key and whether units may stand on it. */
  datatype Terrain = Terrain(key: string, walkable: bool)

  /** `TILESET`, in declaration order. */
  const Registry: seq<Terrain> := [
    Terrain("floor", true),
    Terrain("wall", false),
    Terrain("forest", true),
    Terrain("water", false),
    Terrain("mountain", false),
    Terrain("throne", true)
  ]

  /** `TILE_KEYS = Object.keys(TILESET)`. */
  const TileKeys: seq<string> := KeysOf(Registry)

  /** `Object.keys` of a registry: its keys, in declaration order. */
  function KeysOf(entries: seq<Terrain>): (keys: seq<string>)
    ensures |keys| == |entries|
    ensures forall i :: 0 <= i < |entries| ==> keys[i] == entries[i].key
  {
    if |entries| == 0 then [] else [entries[0].key] + KeysOf(entries[1..])
  }

  predicate Distinct<T(==)>(xs: seq<T>) {
    forall i, j :: 0 <= i < j < |xs| ==> xs[i] != xs[j]
  }

  /** `key in TILESET`, restricted to the registry's own keys. */
  predicate IsTerrainKey(key: string) {
    key in TileKeys
  }

  /** The registry holds exactly the six terrain kinds, listed once each in declaration order. */
  lemma TileKeysInOrder()
    ensures TileKeys == ["floor", "wall", "forest", "water", "mountain", "throne"]
    ensures Distinct(TileKeys)
    ensures forall key :: IsTerrainKey(key) <==>
      key == "floor" || key == "wall" || key == "forest" ||
      key == "water" || key == "mountain" || key == "throne"
  {
  }

  /** Floor, forest and throne can be walked on; wall, water and mountain cannot. */
  lemma WalkableTerrains()
    ensures forall i :: 0 <= i < |Registry| ==>
      (Registry[i].walkable <==> Registry[i].key in {"floor", "forest", "throne"})
  {
  }

  /**
   * One entry of `UNIT_CLASSES`. The source's `label` field is called
   * `display` here, because `label` is a reserved word in Dafny.
   */
  datatype UnitClass = UnitClass(key: string, display: string, short: string)

  /** `UNIT_CLASSES`, in declaration order. */
  const UnitClasses: seq<UnitClass> := [
    UnitClass("sword", "Épéiste", "S"),
    UnitClass("archer", "Archer", "A"),
    UnitClass("mage", "Mage", "M"),
    UnitClass("priest", "Prêtre", "P"),
    UnitClass("lance", "Lancier", "L"),
    UnitClass("axe", "Hache", "H")
  ]

  /** Six classes, pairwise-distinct keys, pairwise-distinct one-character glyphs. */
  lemma UnitClassTable()
    ensures |UnitClasses| == 6
    ensures forall i, j :: 0 <= i < j < |UnitClasses| ==> UnitClasses[i].key != UnitClasses[j].key
    ensures forall i, j :: 0 <= i < j < |UnitClasses| ==> UnitClasses[i].short != UnitClasses[j].short
    ensures forall i :: 0 <= i < |UnitClasses| ==> |UnitClasses[i].short| == 1
  {
  }

  /** No class before index `i` has key `key`. */
  predicate NoneBefore(classes: seq<UnitClass>, key: string, i: nat)
    requires i <= |classes|
  {
    forall j :: 0 <= j < i ==> classes[j].key != key
  }

  /** `classes.find(c => c.key === key)`: the first class with that key, if any. */
  function FindClass(classes: seq<UnitClass>, key: string): (r: Option<UnitClass>)
    ensures r.None? <==> forall i :: 0 <= i < |classes| ==> classes[i].key != key
    ensures r.Some? ==> r.value.key == key
    ensures r.Some? ==> exists i :: 0 <= i < |classes| && classes[i] == r.value && NoneBefore(classes, key, i)
  {
    if |classes| == 0 then None
    else if classes[0].key == key then Some(classes[0])
    else FindClass(classes[1..], key)
  }

  /** `classLabel(key)`: the label of the class with that key, or the key itself. */
  function ClassLabel(key: string): (text: string)
    ensures forall i :: 0 <= i < |UnitClasses| && UnitClasses[i].key == key ==> text == UnitClasses[i].display
    ensures (forall i :: 0 <= i < |UnitClasses| ==> UnitClasses[i].key != key) ==> text == key
  {
    UnitClassTable();
    match FindClass(UnitClasses, key)
    case Some(c) => c.display
    case None => key
  }

  /** `classShort(key)`: the glyph of the class with that key, or "?". */
  function ClassShort(key: string): (glyph: string)
    ensures forall i :: 0 <= i < |UnitClasses| && UnitClasses[i].key == key ==> glyph == UnitClasses[i].short
    ensures (forall i :: 0 <= i < |UnitClasses| ==> UnitClasses[i].key != key) ==> glyph == "?"
    ensures |glyph| == 1
  {
    UnitClassTable();
    match FindClass(UnitClasses, key)
    case Some(c) => c.short
    case None => "?"
  }
}

/** The Sprite Fusion map data model: a map of ordered layers of tiles, the
    lenient tile-id decoding and the typed accessors on a tile's custom
    attributes. */
module Types {
  import opened Wrappers
  import opened Ints
  import opened Json
  import opened ParseInt

  /** Custom attributes of a tile: attribute name to JSON value. */
  type Attributes = map<string, Value>

  /** A whole export. Layers are ordered from top (index 0, frontmost) to
      bottom (the background). */
  datatype SpriteFusionMap = SpriteFusionMap(
    tileSize: U32,
    mapWidth: U32,
    mapHeight: U32,
    layers: seq<SpriteFusionLayer>)

  datatype SpriteFusionLayer = SpriteFusionLayer(
    name: string,
    collider: bool,
    tiles: seq<SpriteFusionTile>)

  /** A tile in the editor's coordinates: origin top-left, y growing down. */
  datatype SpriteFusionTile = SpriteFusionTile(
    id: string,
    x: I32,
    y: I32,
    attributes: Option<Attributes>)
  {
    /** The texture index: the id read as a `u32`, or 0 when it does not
        parse. Never fails. */
    function TileId(): U32 {
      ParseU32(id).UnwrapOr(0)
    }

    /** Whether the tile carries a non-empty attribute map. */
    predicate HasAttributes() {
      attributes.Some? && |attributes.value| > 0
    }
  }

  /** The texture index is the id's value when the id is an accepted `u32`
      text, and 0 otherwise. */
  lemma TileIdValue(t: SpriteFusionTile)
    ensures IsU32Text(t.id) ==> t.TileId() == DecimalValue(Unsigned(t.id))
    ensures !IsU32Text(t.id) ==> t.TileId() == 0
  {
    ParseU32Value(t.id);
  }

  /** A non-empty run of digits whose value fits in 32 bits is read as that
      value; so is the same run after a single `+`. */
  lemma TileIdOfDigits(t: SpriteFusionTile, digits: string)
    requires |digits| > 0 && AllDigits(digits) && DecimalValue(digits) <= U32_MAX
    requires t.id == digits || t.id == "+" + digits
    ensures t.TileId() == DecimalValue(digits)
  {
    TileIdValue(t);
    assert Unsigned(t.id) == digits;
  }

  /** The fallbacks: an empty id, an id with a character that is neither a
      digit nor one leading `+` (a `-`, a space, a letter), and a digit run
      that overflows 32 bits all give texture index 0. */
  lemma TileIdFallback(t: SpriteFusionTile)
    requires
      || t.id == []
      || t.id == "+"
      || (exists i :: 0 < i < |t.id| && !IsDigit(t.id[i]))
      || (!IsDigit(t.id[0]) && t.id[0] != '+')
      || (AllDigits(t.id) && DecimalValue(t.id) > U32_MAX)
    ensures t.TileId() == 0
  {
    TileIdValue(t);
    if t.id != [] && t.id != "+" {
      var d := Unsigned(t.id);
      if exists i :: 0 < i < |t.id| && !IsDigit(t.id[i]) {
        var i :| 0 < i < |t.id| && !IsDigit(t.id[i]);
        if t.id[0] == '+' {
          assert d[i - 1] == t.id[i];
        } else {
          assert d[i] == t.id[i];
        }
      } else if !IsDigit(t.id[0]) && t.id[0] != '+' {
        assert d[0] == t.id[0];
      }
    }
  }

  /** The id written for any `u32` decodes back to it, with or without a
      leading `+`. */
  lemma TileIdRoundTrip(n: U32, x: I32, y: I32, attributes: Option<Attributes>)
    ensures SpriteFusionTile(ToDecimal(n), x, y, attributes).TileId() == n
    ensures SpriteFusionTile("+" + ToDecimal(n), x, y, attributes).TileId() == n
  {
    ToDecimalValue(n);
    TileIdOfDigits(SpriteFusionTile(ToDecimal(n), x, y, attributes), ToDecimal(n));
    TileIdOfDigits(SpriteFusionTile("+" + ToDecimal(n), x, y, attributes), ToDecimal(n));
  }

  /** The attribute component of a tile, with typed lookups that answer
      "absent" both for a missing key and for a value of another type. */
  datatype TileAttributes = TileAttributes(entries: Attributes) {

    function GetStr(key: string): (r: Option<string>)
      ensures forall s :: r == Some(s) <==> key in entries && entries[key] == String(s)
    {
      if key in entries then entries[key].AsStr() else None
    }

    function GetBool(key: string): (r: Option<bool>)
      ensures forall b :: r == Some(b) <==> key in entries && entries[key] == Bool(b)
    {
      if key in entries then entries[key].AsBool() else None
    }

    /** An integer in `i64` range; floats, out-of-range integers and
        non-numbers give `None`. */
    function GetI64(key: string): (r: Option<I64>)
      ensures forall n: I64 :: r == Some(n) <==>
        key in entries && entries[key].Number? && entries[key].n.IsInteger()
        && entries[key].n.IntegerValue() == n
    {
      if key in entries then entries[key].AsI64() else None
    }

    /** How `contains` relates to the typed lookups is
        `TypedGetImpliesContains`. */
    function Contains(key: string): (r: bool)
      ensures r <==> key in entries
    {
      key in entries
    }
  }

  /** Any typed lookup that succeeds is on a present key, and at most one of
      them succeeds for a given key. */
  lemma TypedGetImpliesContains(a: TileAttributes, key: string)
    ensures a.GetStr(key).Some? || a.GetBool(key).Some? || a.GetI64(key).Some? ==> a.Contains(key)
    ensures !(a.GetStr(key).Some? && a.GetBool(key).Some?)
    ensures !(a.GetStr(key).Some? && a.GetI64(key).Some?)
    ensures !(a.GetBool(key).Some? && a.GetI64(key).Some?)
  {
  }

  /** The documented example: `{"name": "gem", "value": 10, "isCollectible": true}`. */
  lemma AttributeExample()
    ensures
      var a := TileAttributes(map["name" := String("gem"), "value" := Number(PosInt(10)),
                                  "isCollectible" := Bool(true)]);
      && a.GetStr("name") == Some("gem")
      && a.GetI64("value") == Some(10)
      && a.GetBool("isCollectible") == Some(true)
      && a.GetStr("value") == None
      && !a.Contains("missing")
  {
  }
}

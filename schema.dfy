/** The derived serde (de)serialisation of the map types, over an already
    parsed JSON value: required fields, field-level defaults (`collider`
    absent means false, `attributes` absent or null means none), unknown
    fields ignored, integer fields range-checked. Turning bytes into a
    `Value` is not part of this model. */
module Schema {
  import opened Wrappers
  import opened Ints
  import opened Json
  import opened Types

  function DecodeU32(v: Value): (r: Option<U32>)
    ensures r.Some? <==> v.Number? && v.n.PosInt? && v.n.u <= U32_MAX
    ensures r.Some? ==> v == Number(PosInt(r.value))
  {
    match v
    case Number(PosInt(u)) => if u <= U32_MAX then Some(u) else None
    case _ => None
  }

  function DecodeI32(v: Value): (r: Option<I32>)
    ensures r.Some? <==> v.Number? && v.n.IsInteger() && I32_MIN <= v.n.IntegerValue() <= I32_MAX
    ensures r.Some? ==> v.n.IntegerValue() == r.value
  {
    match v
    case Number(PosInt(u)) => if u <= I32_MAX then Some(u) else None
    case Number(NegInt(i)) => if I32_MIN <= i then Some(i) else None
    case _ => None
  }

  /** `Option<HashMap<String, Value>>`: `null` is `None`, an object is its
      entries, anything else is a type error (the outer `None`). */
  function DecodeAttributes(v: Value): (r: Option<Option<Attributes>>)
    ensures r == Some(None) <==> v == Null
    ensures forall m :: r == Some(Some(m)) <==> v == Object(m)
  {
    match v
    case Null => Some(None)
    case Object(m) => Some(Some(m))
    case _ => None
  }

  /** A tile object: `id`, `x` and `y` are required, `attributes` may be
      absent (no attributes); any other key is ignored. */
  function DecodeTile(v: Value): (r: Option<SpriteFusionTile>)
    ensures r.Some? <==>
      && v.Object? && "id" in v.fields && "x" in v.fields && "y" in v.fields
      && v.fields["id"].String? && DecodeI32(v.fields["x"]).Some? && DecodeI32(v.fields["y"]).Some?
      && ("attributes" in v.fields ==> DecodeAttributes(v.fields["attributes"]).Some?)
    ensures r.Some? ==>
      && v.fields["id"] == String(r.value.id)
      && DecodeI32(v.fields["x"]) == Some(r.value.x)
      && DecodeI32(v.fields["y"]) == Some(r.value.y)
      && ("attributes" in v.fields ==> DecodeAttributes(v.fields["attributes"]) == Some(r.value.attributes))
      && ("attributes" !in v.fields ==> r.value.attributes == None)
  {
    if !v.Object? then None
    else
      var f := v.fields;
      if "id" !in f || "x" !in f || "y" !in f || !f["id"].String? then None
      else
        var x, y := DecodeI32(f["x"]), DecodeI32(f["y"]);
        var attributes := if "attributes" in f then DecodeAttributes(f["attributes"]) else Some(None);
        if x.None? || y.None? || attributes.None? then None
        else Some(SpriteFusionTile(f["id"].s, x.value, y.value, attributes.value))
  }

  function DecodeTiles(vs: seq<Value>): (r: Option<seq<SpriteFusionTile>>)
    ensures r.Some? ==> |r.value| == |vs|
  {
    if vs == [] then Some([])
    else
      var init, last := DecodeTiles(vs[..|vs| - 1]), DecodeTile(vs[|vs| - 1]);
      if init.None? || last.None? then None else Some(init.value + [last.value])
  }

  /** A layer object: `name` and `tiles` are required, `collider` may be
      absent (false); any other key is ignored. */
  function DecodeLayer(v: Value): (r: Option<SpriteFusionLayer>)
    ensures r.Some? <==>
      && v.Object? && "name" in v.fields && "tiles" in v.fields
      && v.fields["name"].String? && v.fields["tiles"].Array?
      && ("collider" in v.fields ==> v.fields["collider"].Bool?)
      && DecodeTiles(v.fields["tiles"].items).Some?
    ensures r.Some? ==>
      && v.fields["name"] == String(r.value.name)
      && ("collider" in v.fields ==> v.fields["collider"] == Bool(r.value.collider))
      && ("collider" !in v.fields ==> !r.value.collider)
      && DecodeTiles(v.fields["tiles"].items) == Some(r.value.tiles)
  {
    if !v.Object? then None
    else
      var f := v.fields;
      if "name" !in f || "tiles" !in f || !f["name"].String? || !f["tiles"].Array? then None
      else if "collider" in f && !f["collider"].Bool? then None
      else
        var collider := if "collider" in f then f["collider"].b else false;
        var tiles := DecodeTiles(f["tiles"].items);
        if tiles.None? then None else Some(SpriteFusionLayer(f["name"].s, collider, tiles.value))
  }

  function DecodeLayers(vs: seq<Value>): (r: Option<seq<SpriteFusionLayer>>)
    ensures r.Some? ==> |r.value| == |vs|
  {
    if vs == [] then Some([])
    else
      var init, last := DecodeLayers(vs[..|vs| - 1]), DecodeLayer(vs[|vs| - 1]);
      if init.None? || last.None? then None else Some(init.value + [last.value])
  }

  /** The top-level object uses camelCase keys, all four required; any
      other key is ignored. */
  function DecodeMap(v: Value): (r: Option<SpriteFusionMap>)
    ensures r.Some? <==>
      && v.Object? && "tileSize" in v.fields && "mapWidth" in v.fields && "mapHeight" in v.fields
      && "layers" in v.fields && v.fields["layers"].Array?
      && DecodeU32(v.fields["tileSize"]).Some? && DecodeU32(v.fields["mapWidth"]).Some?
      && DecodeU32(v.fields["mapHeight"]).Some? && DecodeLayers(v.fields["layers"].items).Some?
    ensures r.Some? ==>
      && DecodeU32(v.fields["tileSize"]) == Some(r.value.tileSize)
      && DecodeU32(v.fields["mapWidth"]) == Some(r.value.mapWidth)
      && DecodeU32(v.fields["mapHeight"]) == Some(r.value.mapHeight)
      && DecodeLayers(v.fields["layers"].items) == Some(r.value.layers)
  {
    if !v.Object? then None
    else
      var f := v.fields;
      if "tileSize" !in f || "mapWidth" !in f || "mapHeight" !in f || "layers" !in f || !f["layers"].Array? then None
      else
        var tileSize, width, height := DecodeU32(f["tileSize"]), DecodeU32(f["mapWidth"]), DecodeU32(f["mapHeight"]);
        var layers := DecodeLayers(f["layers"].items);
        if tileSize.None? || width.None? || height.None? || layers.None? then None
        else Some(SpriteFusionMap(tileSize.value, width.value, height.value, layers.value))
  }

  /** A tile list decodes exactly when every entry decodes, and then entry
      `i` of the result is entry `i` decoded. */
  lemma {:induction false} DecodeTilesAt(vs: seq<Value>)
    ensures DecodeTiles(vs).Some? <==> forall i :: 0 <= i < |vs| ==> DecodeTile(vs[i]).Some?
    ensures DecodeTiles(vs).Some? ==> forall i :: 0 <= i < |vs| ==> DecodeTile(vs[i]) == Some(DecodeTiles(vs).value[i])
    decreases |vs|
  {
    if vs != [] {
      var init := vs[..|vs| - 1];
      DecodeTilesAt(init);
      assert forall i :: 0 <= i < |init| ==> init[i] == vs[i];
    }
  }

  /** A layer list decodes exactly when every entry decodes, and then entry
      `i` of the result is entry `i` decoded. */
  lemma {:induction false} DecodeLayersAt(vs: seq<Value>)
    ensures DecodeLayers(vs).Some? <==> forall i :: 0 <= i < |vs| ==> DecodeLayer(vs[i]).Some?
    ensures DecodeLayers(vs).Some? ==> forall i :: 0 <= i < |vs| ==> DecodeLayer(vs[i]) == Some(DecodeLayers(vs).value[i])
    decreases |vs|
  {
    if vs != [] {
      var init := vs[..|vs| - 1];
      DecodeLayersAt(init);
      assert forall i :: 0 <= i < |init| ==> init[i] == vs[i];
    }
  }

  // The derived serialisation: every field is written, `None` attributes as `null`.

  function EncodeTile(t: SpriteFusionTile): Value {
    Object(map[
      "id" := String(t.id),
      "x" := Number(IntegerNumber(t.x)),
      "y" := Number(IntegerNumber(t.y)),
      "attributes" := if t.attributes.Some? then Object(t.attributes.value) else Null])
  }

  function EncodeTiles(ts: seq<SpriteFusionTile>): (r: seq<Value>)
    ensures |r| == |ts|
  {
    if ts == [] then [] else EncodeTiles(ts[..|ts| - 1]) + [EncodeTile(ts[|ts| - 1])]
  }

  function EncodeLayer(l: SpriteFusionLayer): Value {
    Object(map[
      "name" := String(l.name),
      "collider" := Bool(l.collider),
      "tiles" := Array(EncodeTiles(l.tiles))])
  }

  function EncodeLayers(ls: seq<SpriteFusionLayer>): (r: seq<Value>)
    ensures |r| == |ls|
  {
    if ls == [] then [] else EncodeLayers(ls[..|ls| - 1]) + [EncodeLayer(ls[|ls| - 1])]
  }

  function EncodeMap(m: SpriteFusionMap): Value {
    Object(map[
      "tileSize" := Number(PosInt(m.tileSize)),
      "mapWidth" := Number(PosInt(m.mapWidth)),
      "mapHeight" := Number(PosInt(m.mapHeight)),
      "layers" := Array(EncodeLayers(m.layers))])
  }

  lemma TileRoundTrip(t: SpriteFusionTile)
    ensures DecodeTile(EncodeTile(t)) == Some(t)
  {
  }

  lemma {:induction false} TilesRoundTrip(ts: seq<SpriteFusionTile>)
    ensures DecodeTiles(EncodeTiles(ts)) == Some(ts)
    decreases |ts|
  {
    if ts != [] {
      var vs := EncodeTiles(ts);
      assert vs == EncodeTiles(ts[..|ts| - 1]) + [EncodeTile(ts[|ts| - 1])];
      assert vs[..|vs| - 1] == EncodeTiles(ts[..|ts| - 1]);
      TilesRoundTrip(ts[..|ts| - 1]);
      TileRoundTrip(ts[|ts| - 1]);
      assert ts[..|ts| - 1] + [ts[|ts| - 1]] == ts;
    }
  }

  lemma LayerRoundTrip(l: SpriteFusionLayer)
    ensures DecodeLayer(EncodeLayer(l)) == Some(l)
  {
    TilesRoundTrip(l.tiles);
  }

  lemma {:induction false} LayersRoundTrip(ls: seq<SpriteFusionLayer>)
    ensures DecodeLayers(EncodeLayers(ls)) == Some(ls)
    decreases |ls|
  {
    if ls != [] {
      var init, last := ls[..|ls| - 1], ls[|ls| - 1];
      var prefix := EncodeLayers(init);
      assert EncodeLayers(ls) == prefix + [EncodeLayer(last)];
      LayersRoundTrip(init);
      LayerRoundTrip(last);
      DecodeLayersAppend(prefix, EncodeLayer(last), init, last);
      assert init + [last] == ls;
    }
  }

  /** Decoding a list with one more element decodes the element after the
      rest. */
  lemma DecodeLayersAppend(vs: seq<Value>, v: Value, init: seq<SpriteFusionLayer>, last: SpriteFusionLayer)
    requires DecodeLayers(vs) == Some(init) && DecodeLayer(v) == Some(last)
    ensures DecodeLayers(vs + [v]) == Some(init + [last])
  {
    assert (vs + [v])[..|vs|] == vs;
  }

  /** Decoding what the derived serialisation writes gives the map back,
      every field equal. */
  lemma MapRoundTrip(m: SpriteFusionMap)
    ensures DecodeMap(EncodeMap(m)) == Some(m)
  {
    LayersRoundTrip(m.layers);
  }

  /** A layer object without a `collider` key decodes to a non-collider
      layer, and a tile object without an `attributes` key to a tile with no
      attributes; the other fields are read as written. */
  lemma OmittedFieldsDefault(name: string, tiles: seq<SpriteFusionTile>, id: string, x: I32, y: I32)
    ensures DecodeLayer(Object(map["name" := String(name), "tiles" := Array(EncodeTiles(tiles))]))
      == Some(SpriteFusionLayer(name, false, tiles))
    ensures DecodeTile(Object(map["id" := String(id), "x" := Number(IntegerNumber(x)), "y" := Number(IntegerNumber(y))]))
      == Some(SpriteFusionTile(id, x, y, None))
  {
    TilesRoundTrip(tiles);
  }
}

# bevy_spritefusion, modelled in Dafny

bevy_spritefusion loads maps exported by the Sprite Fusion tile editor into
the Bevy game engine. An export is a JSON document: a map has a tile size, a
width and a height in tiles, and an ordered list of layers. Layer 0 is the
frontmost and the last layer is the background. Each layer has a name, a
collider flag and a list of tiles. Each tile has a texture id written as a
string, editor coordinates `x` and `y` (origin top-left, `y` growing down),
and optional custom attributes.

The plugin's spawning system runs every frame. It walks the map entities that
still carry the pending marker and also carry a map handle, a tileset handle
and a `Transform`; other entities are never visited. It skips a map entity until both its map
asset and its tileset image are loaded. When both are loaded, it:

- swaps the pending marker for a map marker holding a copy of the map;
- for each layer, in order:
  - spawns a tilemap entity;
  - fills a fresh row-major tile storage;
  - spawns one tile entity per tile, at the tile's position flipped to the
    tilemap's bottom-left origin, with the id parsed as the texture index
    (0 when it does not parse);
  - tags the tile with `Collider` when the layer is a collider layer;
  - copies non-empty attributes onto the tile;
  - stacks each layer one step further back than the one before;
- logs a summary of the map: layers, tiles, and tiles with attributes.

The project has these modules:

- `Wrappers` (base.dfy): `Option`.
- `Ints` (base.dfy): the Rust integer widths, `i32 as u32` and checked `u32`
  subtraction.
- `Json` (json.dfy): serde_json's `Value` and `Number`, with the `as_str`,
  `as_bool` and `as_i64` views.
- `ParseInt` (parse_int.dfy): `str::parse::<u32>`.
- `Types` (types.dfy): the map, layer and tile records, `tile_id`, and the
  `TileAttributes` accessors.
- `Schema` (schema.dfy): the derived serde decoding and encoding of the
  records over a JSON value tree.
- `Layout` (layout.dfy): the Y flip and the row-major grid.
- `Spawn` (spawn.dfy): what one run of the system produces, as pure
  functions, with the lemmas that state what it means.
- `Plugin` (plugin.dfy): the system itself, as imperative code:
  - a `TileStorage` class over an array;
  - a `World` class whose methods update the request list and append
    entities;
  - each method proved to produce exactly what `Spawn` specifies.

The code and one doc comment disagree, and the model follows the code. The
comment on `SpriteFusionLayerMarker::index` (src/types.rs:71) says index 0 is
the bottom layer. The system stores the layer's position in the list there
(src/plugin.rs:105, 180), and the list runs front to back (src/types.rs:21,
src/plugin.rs:158-160). So index 0 is the frontmost layer.

## Model

| member | source | states |
|---|---|---|
| Ints.AsU32 | src/plugin.rs:118-119 | `i32 as u32` keeps the value modulo 2^32: non-negative values are unchanged and negative ones land above `i32::MAX` |
| Ints.CheckedSub | src/plugin.rs:119 | `u32` subtraction succeeds exactly when it does not underflow, and then `r + b == a` |
| ParseInt.ParseU32Value | src/types.rs:54-56 | `ParseU32`, the model of `str::parse::<u32>`, succeeds exactly on an optional `+` followed by a non-empty run of digits whose value fits in 32 bits, and yields that value |
| ParseInt.AccumulateValue | src/types.rs:55 | `Accumulate`, the digit loop of `str::parse::<u32>`, started from a read prefix yields the value of the whole text exactly when the rest is digits and the value fits in `u32`, and fails otherwise |
| ParseInt.ToDecimalValue | src/types.rs:40-42 | the decimal rendering of a number is all digits and reads back as the number |
| ParseInt.ParseU32RoundTrip | src/types.rs:54-56 | parsing the decimal rendering of any `u32` gives it back |
| Types.TileIdValue | src/types.rs:54-56 | `SpriteFusionTile.TileId`, the model of `tile_id`, returns the id's value when the id is accepted `u32` text, and 0 otherwise |
| Types.TileIdOfDigits | src/types.rs:54-56 | a digit run that fits in `u32`, with or without one leading `+`, gives its decimal value |
| Types.TileIdFallback | src/types.rs:54-56 | the fallback cases all give 0: an empty id, a lone `+`, a non-digit anywhere (a `-` included), and a digit run above `u32::MAX` |
| Types.TileIdRoundTrip | src/types.rs:40-42 | the id written for any `u32`, with or without `+`, gives that `u32` as the texture index |
| Types.TileAttributes.GetStr | src/types.rs:83-85 | `Some(s)` exactly when the key is present and holds the string `s` |
| Types.TileAttributes.GetBool | src/types.rs:88-90 | `Some(b)` exactly when the key is present and holds the boolean `b` |
| Types.TileAttributes.GetI64 | src/types.rs:93-95 | `Some(n)` exactly when the key is present and holds an integer number equal to `n`; floats and integers past `i64::MAX` give `None` |
| Types.TileAttributes.Contains | src/types.rs:103-105 | true exactly when the key is present, whatever the value's type |
| Types.TypedGetImpliesContains | src/types.rs:81-106 | a typed lookup succeeds only on a present key, and at most one of the string, boolean and integer lookups succeeds for a key |
| Types.AttributeExample | src/types.rs:77-79 | on `{"name": "gem", "value": 10, "isCollectible": true}` the typed lookups answer `gem`, 10 and true; a string lookup of a number is `None`; a missing key is absent |
| Json.Value.AsStr | src/types.rs:84 | `as_str` answers exactly for a string value, with that string |
| Json.Value.AsBool | src/types.rs:89 | `as_bool` answers exactly for a boolean value, with that boolean |
| Json.Value.AsI64 | src/types.rs:94 | `as_i64` answers only for integral numbers, with their value, and always answers for integers up to `i64::MAX` |
| Json.Number.AsI64 | src/types.rs:94 | a number converts to `i64` exactly when it is an integer no larger than `i64::MAX` |
| Json.IntegerNumber | src/types.rs:44-46 | an integer field is written as a JSON number denoting the same integer |
| Schema.DecodeU32 | src/types.rs:16-20 | a `u32` field decodes exactly from a non-negative integer number within `u32` range |
| Schema.DecodeI32 | src/types.rs:44-46 | an `i32` field decodes exactly from an integer number within `i32` range, to that value |
| Schema.DecodeAttributes | src/types.rs:47-49 | `null` decodes to no attributes, an object to its entries, and anything else fails |
| Schema.DecodeTile | src/types.rs:38-50 | a tile decodes exactly from an object with a string `id`, `x` and `y` that decode as `i32`, and an `attributes` that is absent or decodes; other keys are ignored. The tile has that id, those coordinates, and the decoded attributes, or none when the key is absent |
| Schema.DecodeTiles | src/types.rs:34 | a decoded tile list has one tile per entry |
| Schema.DecodeTilesAt | src/types.rs:34 | a tile list decodes exactly when every entry decodes, and tile `i` is entry `i` decoded |
| Schema.DecodeLayer | src/types.rs:26-35 | a layer decodes exactly from an object with a string `name`, a `tiles` array whose entries all decode, and a `collider` that is absent or a boolean; other keys are ignored. The layer has that name, that collider flag or false when absent, and the decoded tiles |
| Schema.DecodeLayers | src/types.rs:22 | a decoded layer list has one layer per entry |
| Schema.DecodeLayersAt | src/types.rs:22 | a layer list decodes exactly when every entry decodes, and layer `i` is entry `i` decoded |
| Schema.DecodeMap | src/types.rs:12-23 | a map decodes exactly from an object whose `tileSize`, `mapWidth` and `mapHeight` decode as `u32` and whose `layers` is an array whose entries all decode; other keys are ignored. The map has those three numbers and the decoded layers |
| Schema.MapRoundTrip | src/types.rs:12-50 | decoding what the derived serialisation writes gives back the map, every field equal |
| Schema.LayersRoundTrip | src/types.rs:22 | a layer list round-trips through encoding and decoding |
| Schema.TilesRoundTrip | src/types.rs:34 | a tile list round-trips through encoding and decoding |
| Schema.OmittedFieldsDefault | src/types.rs:31-32 | a layer object without `collider` decodes as a non-collider layer; a tile object without `attributes` decodes with no attributes |
| Layout.FlipY | src/plugin.rs:119 | `(map_height - 1) - y as u32` is defined exactly when neither subtraction underflows, and then has that value |
| Layout.FlipYUnderflow | src/plugin.rs:119 | the flip fails on an empty map, on a row at or past the height, and on any negative row when the map is at most 2^31 rows tall |
| Layout.FlipYInRange | src/plugin.rs:117-120 | for a row inside the map the flip is defined, stays inside the map, and undoing it gives the row back |
| Layout.ResolvePos | src/plugin.rs:117-120 | a tile inside the map gets column `x` and the flipped row, both inside the grid |
| Layout.Positions | src/plugin.rs:115-120 | a layer's tiles resolve to one position each, all inside the grid |
| Layout.PositionsAt | src/plugin.rs:115-120 | entry `i` of a layer's positions is tile `i`'s resolved position |
| Layout.CellIndex | src/plugin.rs:145 | a position inside the grid has a cell inside the storage |
| Layout.CellIndexRowMajor | src/plugin.rs:145 | the cell of a position is `y * width + x` |
| Layout.CellIndexInjective | src/plugin.rs:145 | distinct positions of the grid occupy distinct cells |
| Layout.AreaIsProduct | src/plugin.rs:106-112 | the storage has `width * height` cells |
| Layout.Grid | src/plugin.rs:112-146 | the storage after a layer's tiles are written has one cell per grid position |
| Layout.GridLastWriterWins | src/plugin.rs:115-146 | after the tiles of a layer are written in order, a cell is empty exactly when no tile resolved to its position; otherwise it holds the last such tile's entity |
| Spawn.Advance | src/plugin.rs:87-100 | a ready request loses the pending marker and gains a map marker holding its map; any other request is unchanged; the result is never ready |
| Spawn.AdvanceAll | src/plugin.rs:87-100 | every request is gated independently, and the list keeps its length |
| Spawn.ReadyIndicesSpec | src/plugin.rs:83-94 | the requests acted on are exactly the pending ones that carry both handles and a `Transform` and have both assets loaded, each once, in query order |
| Spawn.SpawnTile | src/plugin.rs:116-142 | a tile's entity belongs to the given tilemap, sits inside the grid at column `x` and the flipped row, has the parsed id as texture index and the layer's collider flag, and has attributes exactly when the tile's are present and non-empty, as a copy |
| Spawn.LayerEntityOf | src/plugin.rs:105-187 | a layer's entity is a child of the map entity, sized to the map, with the layer's name, index and collider flag in its marker, and `index` steps behind the front layer |
| Spawn.SpawnMapSpec | src/plugin.rs:105-199 | one map adds one layer entity per layer, one tile entity per tile of its layers, and one summary naming the map entity |
| Spawn.TickSpec | src/plugin.rs:87-200 | a run never shrinks the layer, tile or summary lists; that it keeps every earlier entry is `TickPrefix` |
| Spawn.LayerTilesAt | src/plugin.rs:115-144 | entity `j` of a layer's run is the one spawned for tile `j` |
| Spawn.MapTilesAt | src/plugin.rs:105-146 | tile `j` of layer `k` is the map's tile entity numbered by the tiles of the layers before `k`, plus `j` |
| Spawn.MapLayersAt | src/plugin.rs:105-187 | layer entity `k` is layer `k`'s entity, its tiles numbered after those of the layers before it |
| Spawn.CountLayers | src/plugin.rs:189-192 | counting attributed entities layer after layer gives the map's count of tiles with non-empty attributes |
| Spawn.SpawnMapSummary | src/plugin.rs:189-199 | a spawned map adds one layer entity per layer and one summary. The summary's layer count is the map's. Its tile count is the sum of the layer sizes and the number of tile entities created. Its attribute count is the number of created entities carrying attributes |
| Spawn.SpawnMapLayer | src/plugin.rs:105-186 | layer `k`'s entity is a child of the map entity, sized to the map, marked with the layer's name, index and collider flag, and `k` steps behind the front layer |
| Spawn.SpawnMapLayerEntity | src/plugin.rs:105-187 | layer `k`'s entity holds the storage its tiles produce, numbered from where the map's tiles start plus the tiles of the layers before it |
| Spawn.LayerStorage | src/plugin.rs:112-172 | a layer's storage has one cell per grid position. A cell is empty exactly when no tile of the layer lands on it, and otherwise holds the last tile that does |
| Spawn.SpawnMapStorage | src/plugin.rs:111-146 | each non-empty storage cell of a spawned layer holds a tile entity of that same layer at that position, the last one placed there |
| Spawn.SpawnMapTile | src/plugin.rs:116-142 | a tile's entity belongs to its layer's tilemap and sits at the flipped position. Its texture index is the parsed id. It has the collider tag exactly when the layer is a collider. It has attributes exactly when the tile's attributes are present and non-empty, and then they are a copy |
| Spawn.SpawnMapTileEntity | src/plugin.rs:115-146 | the tile entity at a tile's place in the map's run is the one spawned for that tile |
| Spawn.TickPrefix | src/plugin.rs:87-200 | a run of the system keeps every entity and summary that existed before, and only appends |
| Spawn.TickParent | src/plugin.rs:186 | every layer entity created in a run is a child of a map entity that was ready |
| Spawn.TickSummaries | src/plugin.rs:194-199 | a run emits exactly one summary per ready map entity, in query order |
| Spawn.TickNothingReady | src/plugin.rs:87-95 | when no map entity is ready, a run creates nothing |
| Spawn.TickIdempotent | src/plugin.rs:96-100 | a second run over what the first left behind creates nothing and changes no request |
| Plugin.TileStorage.Empty | src/plugin.rs:112 | a fresh storage for a `width * height` map has one empty cell per grid position |
| Plugin.TileStorage.Set | src/plugin.rs:145 | writing a tile entity replaces exactly the cell of its position and leaves every other cell as it was |
| Plugin.World.SpawnSpriteFusionMaps | src/plugin.rs:81-201 | one pass gates every request as `AdvanceAll` does, and creates exactly what `TickSpec` specifies for the requests as they were |
| Plugin.World.SpawnMap | src/plugin.rs:102-199 | one map's layers are spawned in order, then its summary, exactly as `SpawnMapSpec` specifies |
| Plugin.World.SpawnLayer | src/plugin.rs:105-187 | one layer appends its tiles' entities, then a layer entity holding the storage they produced |
| Plugin.World.SpawnLayerTiles | src/plugin.rs:115-146 | the tile loop appends one entity per tile, in order, and leaves the storage equal to `Grid` of the layer's positions |
| Plugin.World.SpawnTileEntity | src/plugin.rs:116-145 | one tile appends the entity `SpawnTile` describes, and writes that entity into the storage at the tile's position |

## Left out

- Reading the asset file, and turning its bytes into a JSON value (src/loader.rs): the model starts from a parsed `Value`. The loader is not part of this model.
- serde details outside the derived object form: structs written as JSON arrays, duplicate keys, error messages and error kinds.
- The error kind of a failed `u32` parse. The system only ever replaces an error by 0.
- `TileAttributes::get_f64` (src/types.rs:98-100): floating point is not modelled, and a float's bits are carried unread.
- Rendering: the tilemap's tile size, grid size, map type, texture handle, visibility, and the layer's translation are not modelled. The layer's `z` offset of `-(index * 0.1)` (src/plugin.rs:160) is modelled as the integer `depth == -index`. This gives the same order only while the `f32` values stay distinct: once the map's own `z` reaches about 2^20 (about 1.05 * 10^6, where one `f32` step is 0.125), or past about 1.05 * 10^7 layers (where `index * 0.1` itself reaches 2^20), adjacent layers can tie.
- The `info!` log line is modelled as a `Summary` record with its three numbers. The text is left out.
- Bevy's ECS:
  - deferred `Commands`: the model applies each change at once, and the result at the end of the pass is the same;
  - one shared entity-id space: the model numbers map, layer and tile entities in separate tables;
  - the order of the pending-map query: the model uses list order.
- `TileStorage` comes from bevy_ecs_tilemap, which is not part of this model. The model assumes its documented row-major layout and replacing `set`.
- Plugin.TileStorage.Empty: sizes the storage with the unbounded product `width * height`. bevy_ecs_tilemap computes the cell count `x * y` in `u32` (src/plugin.rs:112), so a map with `mapWidth * mapHeight` above `u32::MAX` panics in a debug build and gets a wrapped, too small storage in a release build. The model does not capture that overflow.
- Plugin.TileStorage.Set: indexes with the unbounded `y * width + x`. bevy_ecs_tilemap computes it in `u32` (src/plugin.rs:145), which can overflow only when `mapWidth * mapHeight` is above `u32::MAX`. That overflow is not modelled either.
- Plugin.World.SpawnSpriteFusionMaps: requires every tile of every ready map to lie inside the map's grid. Outside it, the source behaves differently by case:
  - a row at or past the height underflows the `u32` flip, which panics in a debug build and wraps in a release build;
  - a negative row on a map at most 2^31 rows tall underflows the same way;
  - a column at or past the width folds into a cell of another row, or indexes past the storage;
  - a negative column becomes at least 2^31 under `x as u32`, so `y * width + x` overflows `u32` (a panic in a debug build, a wrap into an earlier cell in a release build) or indexes past the storage.

  None of these is modelled beyond `Layout.FlipY`'s failure cases.
- Plugin setup, asset registration and the example program (src/lib.rs, examples/basic.rs) are out of scope.

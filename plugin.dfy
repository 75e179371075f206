/** The map-spawning system as the plugin runs it: a world holding the map
    requests and the entities created so far, and one pass of the system
    that walks the pending requests and, for each whose assets are loaded,
    spawns a layer entity with a fresh tile storage per layer and a tile
    entity per tile, writing each tile into its layer's storage. Each
    method is proved to produce exactly what module Spawn specifies. */
module Plugin {
  import opened Wrappers
  import opened Ints
  import opened Types
  import opened Layout
  import opened Spawn

  /** A tilemap's tile storage: one optional tile entity per cell of a
      `width * height` grid, row-major. */
  class TileStorage {
    const width: U32
    const height: U32
    const cells: array<Option<nat>>

    ghost predicate Valid()
      reads this
    {
      cells.Length == Area(width, height)
    }

    /** Storage for `width * height` tiles, all cells empty. */
    constructor Empty(width: U32, height: U32)
      ensures Valid() && this.width == width && this.height == height
      ensures fresh(cells) && cells[..] == EmptyGrid(Area(width, height))
    {
      AreaIsProduct(width, height);
      this.width, this.height := width, height;
      cells := new Option<nat>[width * height](_ => None);
    }

    /** Writes `entity` into the cell of `p`, replacing what was there. */
    method Set(p: TilePos, entity: nat)
      requires Valid() && InGrid(p, width, height)
      modifies cells
      ensures cells[..] == old(cells[..])[CellIndex(p, width, height) := Some(entity)]
    {
      CellIndexRowMajor(p, width, height);
      cells[p.y * width + p.x] := Some(entity);
    }
  }

  /** The part of the world the system reads and writes: the map requests,
      and the layer entities, tile entities and summaries created so far.
      Entity ids are positions in these sequences. */
  class World {
    var requests: seq<Request>
    var layers: seq<LayerEntity>
    var tiles: seq<TileEntity>
    var summaries: seq<Summary>

    function Spawned(): Output
      reads this
    {
      Output(layers, tiles, summaries)
    }

    constructor (requests: seq<Request>)
      ensures this.requests == requests && Spawned() == Output([], [], [])
    {
      this.requests := requests;
      layers, tiles, summaries := [], [], [];
    }

    /** One pass of the system: every pending request whose map and tileset
        are both loaded loses its pending marker, gains a marker holding the
        map, and has its map spawned as its children; every other request
        is skipped and left for a later pass. */
    method SpawnSpriteFusionMaps()
      requires ReadyMapsPlaced(requests)
      modifies this
      ensures requests == AdvanceAll(old(requests))
      ensures Spawned() == TickSpec(old(Spawned()), old(requests), |old(requests)|)
    {
      ghost var rs, o := requests, Spawned();
      var i := 0;
      while i < |requests|
        invariant i <= |requests| == |rs|
        invariant forall j :: 0 <= j < i ==> requests[j] == Advance(rs[j])
        invariant forall j :: i <= j < |rs| ==> requests[j] == rs[j]
        invariant Spawned() == TickSpec(o, rs, i)
      {
        var r := requests[i];
        if r.pending && r.queried && r.mapAsset.Some? && r.tilesetLoaded {
          var m := r.mapAsset.value;
          requests := requests[i := r.(pending := false, marker := Some(m))];
          SpawnMap(m, i);
        }
        i := i + 1;
      }
    }

    /** Spawns the layers of `m`, in order, as children of entity `parent`,
        then records the map's summary. */
    method SpawnMap(m: SpriteFusionMap, parent: nat)
      requires MapPlaced(m)
      modifies this
      ensures requests == old(requests)
      ensures Spawned() == SpawnMapSpec(old(Spawned()), m, parent)
    {
      var li := 0;
      while li < |m.layers|
        invariant li <= |m.layers|
        invariant requests == old(requests) && summaries == old(summaries)
        invariant layers == old(layers) + MapLayers(m, li, parent, |old(tiles)|)
        invariant tiles == old(tiles) + MapTiles(m, li, |old(layers)|)
      {
        ghost var ls, ts := layers, tiles;
        SpawnLayer(m, li, parent);
        MapStep(old(layers), old(tiles), m, li, parent, ls, ts, layers, tiles);
        li := li + 1;
      }
      var n := |m.layers|;
      summaries := summaries + [Summary(parent, n, TotalTiles(m.layers, n), AttributedTiles(m.layers, n))];
    }

    /** Spawns layer `li` of `m`: its tiles into a fresh storage, then the
        layer entity holding that storage. */
    method SpawnLayer(m: SpriteFusionMap, li: nat, parent: nat)
      requires MapPlaced(m) && li < |m.layers|
      modifies this
      ensures requests == old(requests) && summaries == old(summaries)
      ensures var l := m.layers[li];
        tiles == old(tiles) + LayerTiles(m, l.collider, l.tiles, |l.tiles|, |old(layers)|)
      ensures layers == old(layers) + [LayerEntityOf(m, li, parent, |old(tiles)|)]
    {
      var layer := m.layers[li];
      var storage := new TileStorage.Empty(m.mapWidth, m.mapHeight);
      SpawnLayerTiles(m, layer, |layers|, storage);
      layers := layers + [LayerEntity(parent, m.mapWidth, m.mapHeight, LayerMarker(layer.name, li, layer.collider),
                                      -(li as int), storage.cells[..])];
    }

    /** The tile loop of a layer: a tile entity per tile, in order, each
        written into `storage` at its flipped position. */
    method SpawnLayerTiles(m: SpriteFusionMap, layer: SpriteFusionLayer, tilemapEntity: nat, storage: TileStorage)
      requires TilesPlaced(m, layer.tiles)
      requires storage.Valid() && storage.width == m.mapWidth && storage.height == m.mapHeight
      requires storage.cells[..] == EmptyGrid(Area(m.mapWidth, m.mapHeight))
      modifies this`tiles, storage.cells
      ensures tiles == old(tiles) + LayerTiles(m, layer.collider, layer.tiles, |layer.tiles|, tilemapEntity)
      ensures storage.cells[..] == Grid(m.mapWidth, m.mapHeight, Positions(m, layer.tiles, |layer.tiles|), |old(tiles)|)
    {
      var t := 0;
      while t < |layer.tiles|
        invariant t <= |layer.tiles|
        invariant tiles == old(tiles) + LayerTiles(m, layer.collider, layer.tiles, t, tilemapEntity)
        invariant storage.cells[..] == Grid(m.mapWidth, m.mapHeight, Positions(m, layer.tiles, t), |old(tiles)|)
      {
        SpawnTileEntity(m, layer, t, tilemapEntity, storage, old(tiles));
        t := t + 1;
      }
    }

    /** Spawns the entity of tile `t` of `layer`: at the tile's flipped
        position, in tilemap `tilemapEntity`, with the id as texture index,
        the collider tag if the layer is a collider, and the attributes if
        present and non-empty; then writes it into `storage`. */
    method SpawnTileEntity(m: SpriteFusionMap, layer: SpriteFusionLayer, t: nat, tilemapEntity: nat, storage: TileStorage,
                           ghost prior: seq<TileEntity>)
      requires TilesPlaced(m, layer.tiles) && t < |layer.tiles|
      requires storage.Valid() && storage.width == m.mapWidth && storage.height == m.mapHeight
      requires tiles == prior + LayerTiles(m, layer.collider, layer.tiles, t, tilemapEntity)
      requires storage.cells[..] == Grid(m.mapWidth, m.mapHeight, Positions(m, layer.tiles, t), |prior|)
      modifies this`tiles, storage.cells
      ensures tiles == old(tiles) + [SpawnTile(m, layer.collider, layer.tiles[t], tilemapEntity)]
      ensures tiles == prior + LayerTiles(m, layer.collider, layer.tiles, t + 1, tilemapEntity)
      ensures storage.cells[..] == Grid(m.mapWidth, m.mapHeight, Positions(m, layer.tiles, t + 1), |prior|)
    {
      GridStep(m, layer.tiles, t, |prior|);
      LayerTilesStep(prior, m, layer.collider, layer.tiles, t, tilemapEntity);
      var tile := layer.tiles[t];
      var tileId := tile.TileId();
      var pos := TilePos(AsU32(tile.x), m.mapHeight - 1 - AsU32(tile.y));
      assert pos == ResolvePos(m, tile);
      var attributes := None;
      if tile.attributes.Some? && |tile.attributes.value| > 0 {
        attributes := tile.attributes;
      }
      var tileEntity := |tiles|;
      tiles := tiles + [TileEntity(pos, tilemapEntity, tileId, layer.collider, attributes)];
      storage.Set(pos, tileEntity);
    }
  }
}

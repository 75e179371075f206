/** What one run of the map-spawning system produces, as pure functions of
    the world before it: per map request, the pending-to-spawned gate; per
    layer, a layer entity with its grid storage; per tile, a tile entity.
    The imperative system in module Plugin is proved to produce exactly
    this; the lemmas here state what it means. */
module Spawn {
  import opened Wrappers
  import opened Ints
  import opened Types
  import opened Layout

  /** A tile entity: its grid position, the layer entity it belongs to, its
      texture index, whether it carries the `Collider` tag, and its
      `TileAttributes` component if it has one. */
  datatype TileEntity = TileEntity(
    position: TilePos,
    tilemap: nat,
    textureIndex: U32,
    collider: bool,
    attributes: Option<Attributes>)

  /** The marker on a layer entity: the layer's name, its position in the
      map's layer list, and its collider flag. */
  datatype LayerMarker = LayerMarker(name: string, index: nat, collider: bool)

  /** A layer entity: the map entity it is a child of, its size in tiles, its
      marker, its depth offset in tenths of a world unit (more negative is
      further back), and its grid storage (row-major cells holding tile
      entities). */
  datatype LayerEntity = LayerEntity(
    parent: nat,
    width: U32,
    height: U32,
    marker: LayerMarker,
    depth: int,
    storage: seq<Option<nat>>)

  /** The diagnostic emitted once per spawned map: layer count, tile total
      and the number of tiles with attributes. */
  datatype Summary = Summary(entity: nat, layers: nat, tiles: nat, withAttributes: nat)

  /** A map entity: whether it still carries the pending marker, whether it
      carries the map handle, tileset handle and `Transform` components the
      system's query also asks for, the map asset if it is loaded, whether
      the tileset image is loaded, and the map marker holding a copy of the
      map once spawned. */
  datatype Request = Request(
    pending: bool,
    queried: bool,
    mapAsset: Option<SpriteFusionMap>,
    tilesetLoaded: bool,
    marker: Option<SpriteFusionMap>)

  /** Everything the system creates: layer entities, tile entities and
      summaries, each in creation order; entity ids are positions here. */
  datatype Output = Output(layers: seq<LayerEntity>, tiles: seq<TileEntity>, summaries: seq<Summary>)

  predicate MapPlaced(m: SpriteFusionMap) {
    forall k :: 0 <= k < |m.layers| ==> TilesPlaced(m, m.layers[k].tiles)
  }

  /** A request the system acts on: pending, matched by the query, with
      both assets loaded. */
  predicate Ready(r: Request) {
    r.pending && r.queried && r.mapAsset.Some? && r.tilesetLoaded
  }

  predicate ReadyMapsPlaced(rs: seq<Request>) {
    forall i :: 0 <= i < |rs| && Ready(rs[i]) ==> MapPlaced(rs[i].mapAsset.value)
  }

  /** The gate: a ready request loses its pending marker and gains a map
      marker with a copy of the map; any other request is left as it is.
      Either way the result is not ready, so a second pass does nothing. */
  function Advance(r: Request): (r': Request)
    ensures Ready(r) ==> !r'.pending && r'.marker == r.mapAsset
    ensures Ready(r) ==> r'.queried && r'.mapAsset == r.mapAsset && r'.tilesetLoaded == r.tilesetLoaded
    ensures !Ready(r) ==> r' == r
    ensures !Ready(r')
  {
    if Ready(r) then r.(pending := false, marker := r.mapAsset) else r
  }

  /** The gate over all requests, each on its own; that a second pass
      leaves the result as it is and spawns nothing is `TickIdempotent`. */
  function AdvanceAll(rs: seq<Request>): (rs': seq<Request>)
    ensures |rs'| == |rs|
    ensures forall i :: 0 <= i < |rs| ==> rs'[i] == Advance(rs[i])
  {
    seq(|rs|, i requires 0 <= i < |rs| => Advance(rs[i]))
  }

  /** The entity spawned for one tile of a layer. */
  function SpawnTile(m: SpriteFusionMap, collider: bool, t: SpriteFusionTile, tilemap: nat): (e: TileEntity)
    requires TilePlaced(m, t)
    ensures e.tilemap == tilemap && e.collider == collider && e.textureIndex == t.TileId()
    ensures InGrid(e.position, m.mapWidth, m.mapHeight)
    ensures e.position.x == t.x && FlipY(m.mapHeight, t.y) == Some(e.position.y)
    ensures e.attributes.Some? <==> t.HasAttributes()
    ensures e.attributes.Some? ==> e.attributes == t.attributes
  {
    TileEntity(ResolvePos(m, t), tilemap, t.TileId(), collider,
               if t.HasAttributes() then t.attributes else None)
  }


  /** The entities spawned for the first `n` tiles of a layer, in order. */
  function LayerTiles(m: SpriteFusionMap, collider: bool, ts: seq<SpriteFusionTile>, n: nat, tilemap: nat): (r: seq<TileEntity>)
    requires TilesPlaced(m, ts) && n <= |ts|
    ensures |r| == n
  {
    if n == 0 then []
    else LayerTiles(m, collider, ts, n - 1, tilemap) + [SpawnTile(m, collider, ts[n - 1], tilemap)]
  }

  /** Sum of the tile counts of the first `n` layers. */
  function TotalTiles(ls: seq<SpriteFusionLayer>, n: nat): nat
    requires n <= |ls|
  {
    if n == 0 then 0 else TotalTiles(ls, n - 1) + |ls[n - 1].tiles|
  }

  /** Number of tiles among the first `n` whose attributes are present and
      non-empty. */
  function CountAttributed(ts: seq<SpriteFusionTile>, n: nat): nat
    requires n <= |ts|
  {
    if n == 0 then 0 else CountAttributed(ts, n - 1) + if ts[n - 1].HasAttributes() then 1 else 0
  }

  /** The same count over all tiles of the first `n` layers. */
  function AttributedTiles(ls: seq<SpriteFusionLayer>, n: nat): nat
    requires n <= |ls|
  {
    if n == 0 then 0 else AttributedTiles(ls, n - 1) + CountAttributed(ls[n - 1].tiles, |ls[n - 1].tiles|)
  }

  /** Number of tile entities in `es[lo..hi]` carrying a `TileAttributes`
      component. */
  function CountWithAttributes(es: seq<TileEntity>, lo: nat, hi: nat): nat
    requires lo <= hi <= |es|
    decreases hi
  {
    if hi == lo then 0 else CountWithAttributes(es, lo, hi - 1) + if es[hi - 1].attributes.Some? then 1 else 0
  }

  /** The entity spawned for layer `li`, whose tiles are numbered from `tileBase`. */
  function LayerEntityOf(m: SpriteFusionMap, li: nat, parent: nat, tileBase: nat): (e: LayerEntity)
    requires li < |m.layers| && TilesPlaced(m, m.layers[li].tiles)
    ensures e.parent == parent && e.width == m.mapWidth && e.height == m.mapHeight
    ensures e.marker == LayerMarker(m.layers[li].name, li, m.layers[li].collider) && e.depth == -(li as int)
  {
    var l := m.layers[li];
    LayerEntity(parent, m.mapWidth, m.mapHeight, LayerMarker(l.name, li, l.collider), -(li as int),
                Grid(m.mapWidth, m.mapHeight, Positions(m, l.tiles, |l.tiles|), tileBase))
  }

  /** The tiles spawned for layers `0 .. n`, layer by layer. */
  function MapTiles(m: SpriteFusionMap, n: nat, layerBase: nat): (r: seq<TileEntity>)
    requires MapPlaced(m) && n <= |m.layers|
    ensures |r| == TotalTiles(m.layers, n)
  {
    if n == 0 then []
    else
      var l := m.layers[n - 1];
      MapTiles(m, n - 1, layerBase) + LayerTiles(m, l.collider, l.tiles, |l.tiles|, layerBase + n - 1)
  }

  /** The layer entities spawned for layers `0 .. n`, the tiles of layer `k`
      numbered from `tileBase` plus the tile count of the layers before it. */
  function MapLayers(m: SpriteFusionMap, n: nat, parent: nat, tileBase: nat): (r: seq<LayerEntity>)
    requires MapPlaced(m) && n <= |m.layers|
    ensures |r| == n
  {
    if n == 0 then []
    else MapLayers(m, n - 1, parent, tileBase) + [LayerEntityOf(m, n - 1, parent, tileBase + TotalTiles(m.layers, n - 1))]
  }

  /** One map spawned as the children of entity `parent`: for each layer in
      order, a layer entity and then its tiles; then the summary. */
  function SpawnMapSpec(o: Output, m: SpriteFusionMap, parent: nat): (o': Output)
    requires MapPlaced(m)
    ensures |o'.layers| == |o.layers| + |m.layers|
    ensures |o'.tiles| == |o.tiles| + TotalTiles(m.layers, |m.layers|)
    ensures |o'.summaries| == |o.summaries| + 1 && o'.summaries[|o.summaries|].entity == parent
  {
    var n := |m.layers|;
    Output(o.layers + MapLayers(m, n, parent, |o.tiles|),
           o.tiles + MapTiles(m, n, |o.layers|),
           o.summaries + [Summary(parent, n, TotalTiles(m.layers, n), AttributedTiles(m.layers, n))])
  }

  /** The system over requests `0 .. n`: each ready request's map spawned as
      the request's children, in request order. */
  function TickSpec(o: Output, rs: seq<Request>, n: nat): (o': Output)
    requires ReadyMapsPlaced(rs) && n <= |rs|
    ensures |o.layers| <= |o'.layers| && |o.tiles| <= |o'.tiles| && |o.summaries| <= |o'.summaries|
  {
    if n == 0 then o
    else
      var o' := TickSpec(o, rs, n - 1);
      if Ready(rs[n - 1]) then SpawnMapSpec(o', rs[n - 1].mapAsset.value, n - 1) else o'
  }

  /** The ready requests among `0 .. n`, in increasing order. */
  function ReadyIndices(rs: seq<Request>, n: nat): seq<nat>
    requires n <= |rs|
  {
    if n == 0 then []
    else ReadyIndices(rs, n - 1) + if Ready(rs[n - 1]) then [n - 1] else []
  }

  /** `ReadyIndices` lists exactly the ready requests below `n`, each once,
      in increasing order. */
  lemma {:induction false} ReadyIndicesSpec(rs: seq<Request>, n: nat)
    requires n <= |rs|
    ensures var r := ReadyIndices(rs, n);
      && (forall i: nat :: i in r <==> i < n && Ready(rs[i]))
      && (forall j :: 0 <= j < |r| ==> r[j] < n)
      && (forall a, b :: 0 <= a < b < |r| ==> r[a] < r[b])
    decreases n
  {
    if n > 0 {
      ReadyIndicesSpec(rs, n - 1);
    }
  }

  // ---------------------------------------------------------------------
  // What one map produces, layer by layer

  /** Entity `j` of a layer's run is the one spawned for tile `j`. */
  lemma {:induction false} LayerTilesAt(m: SpriteFusionMap, collider: bool, ts: seq<SpriteFusionTile>, n: nat, tilemap: nat, j: nat)
    requires TilesPlaced(m, ts) && j < n <= |ts|
    ensures LayerTiles(m, collider, ts, n, tilemap)[j] == SpawnTile(m, collider, ts[j], tilemap)
    decreases n
  {
    if j < n - 1 {
      LayerTilesAt(m, collider, ts, n - 1, tilemap, j);
    }
  }

  lemma {:induction false} TotalTilesMonotone(ls: seq<SpriteFusionLayer>, k: nat, n: nat)
    requires k <= n <= |ls|
    ensures TotalTiles(ls, k) <= TotalTiles(ls, n)
    decreases n
  {
    if k < n {
      TotalTilesMonotone(ls, k, n - 1);
    }
  }

  /** Tile `j` of layer `k` is entity `TotalTiles(layers before k) + j` of the
      map's run of spawned tiles. */
  lemma {:induction false} MapTilesAt(m: SpriteFusionMap, n: nat, layerBase: nat, k: nat, j: nat)
    requires MapPlaced(m) && k < n <= |m.layers| && j < |m.layers[k].tiles|
    ensures TotalTiles(m.layers, k) + j < |MapTiles(m, n, layerBase)|
    ensures MapTiles(m, n, layerBase)[TotalTiles(m.layers, k) + j]
      == SpawnTile(m, m.layers[k].collider, m.layers[k].tiles[j], layerBase + k)
    decreases n
  {
    if k < n - 1 {
      MapTilesAt(m, n - 1, layerBase, k, j);
      TotalTilesMonotone(m.layers, k + 1, n - 1);
    } else {
      LayerTilesAt(m, m.layers[k].collider, m.layers[k].tiles, |m.layers[k].tiles|, layerBase + k, j);
    }
  }

  lemma {:induction false} MapLayersAt(m: SpriteFusionMap, n: nat, parent: nat, tileBase: nat, k: nat)
    requires MapPlaced(m) && k < n <= |m.layers|
    ensures MapLayers(m, n, parent, tileBase)[k] == LayerEntityOf(m, k, parent, tileBase + TotalTiles(m.layers, k))
    decreases n
  {
    if k < n - 1 {
      MapLayersAt(m, n - 1, parent, tileBase, k);
    }
  }

  /** Appending the entity of the next tile to the run spawned so far gives
      the run of one more tile. */
  lemma LayerTilesStep(prior: seq<TileEntity>, m: SpriteFusionMap, collider: bool, ts: seq<SpriteFusionTile>, n: nat, tilemap: nat)
    requires TilesPlaced(m, ts) && n < |ts|
    ensures prior + LayerTiles(m, collider, ts, n, tilemap) + [SpawnTile(m, collider, ts[n], tilemap)]
      == prior + LayerTiles(m, collider, ts, n + 1, tilemap)
  {
  }

  /** Appending the next layer's entity to the run spawned so far gives the
      run of one more layer. */
  lemma MapLayersStep(prior: seq<LayerEntity>, m: SpriteFusionMap, n: nat, parent: nat, tileBase: nat)
    requires MapPlaced(m) && n < |m.layers|
    ensures prior + MapLayers(m, n, parent, tileBase) + [LayerEntityOf(m, n, parent, tileBase + TotalTiles(m.layers, n))]
      == prior + MapLayers(m, n + 1, parent, tileBase)
  {
  }

  /** Appending the next layer's tiles to the run spawned so far gives the
      run of one more layer. */
  lemma MapTilesStep(prior: seq<TileEntity>, m: SpriteFusionMap, n: nat, layerBase: nat)
    requires MapPlaced(m) && n < |m.layers|
    ensures prior + MapTiles(m, n, layerBase)
      + LayerTiles(m, m.layers[n].collider, m.layers[n].tiles, |m.layers[n].tiles|, layerBase + n)
      == prior + MapTiles(m, n + 1, layerBase)
  {
  }

  /** Spawning layer `n` after the layers before it gives the runs of one
      more layer. */
  lemma MapStep(priorLayers: seq<LayerEntity>, priorTiles: seq<TileEntity>, m: SpriteFusionMap, n: nat, parent: nat,
                ls: seq<LayerEntity>, ts: seq<TileEntity>, ls': seq<LayerEntity>, ts': seq<TileEntity>)
    requires MapPlaced(m) && n < |m.layers|
    requires ls == priorLayers + MapLayers(m, n, parent, |priorTiles|)
    requires ts == priorTiles + MapTiles(m, n, |priorLayers|)
    requires ls' == ls + [LayerEntityOf(m, n, parent, |ts|)]
    requires ts' == ts + LayerTiles(m, m.layers[n].collider, m.layers[n].tiles, |m.layers[n].tiles|, |ls|)
    ensures ls' == priorLayers + MapLayers(m, n + 1, parent, |priorTiles|)
    ensures ts' == priorTiles + MapTiles(m, n + 1, |priorLayers|)
  {
    assert |ts| == |priorTiles| + TotalTiles(m.layers, n);
    assert |ls| == |priorLayers| + n;
    MapLayersStep(priorLayers, m, n, parent, |priorTiles|);
    MapTilesStep(priorTiles, m, n, |priorLayers|);
  }

  /** Counting over a range splits at any midpoint. */
  lemma {:induction false} CountSplit(es: seq<TileEntity>, lo: nat, mid: nat, hi: nat)
    requires lo <= mid <= hi <= |es|
    ensures CountWithAttributes(es, lo, hi) == CountWithAttributes(es, lo, mid) + CountWithAttributes(es, mid, hi)
    decreases hi
  {
    if mid < hi {
      CountSplit(es, lo, mid, hi - 1);
    }
  }

  /** Entities that carry attributes exactly where a run of tiles has
      non-empty attributes are counted alike. */
  lemma {:induction false} CountMatches(es: seq<TileEntity>, lo: nat, ts: seq<SpriteFusionTile>, n: nat)
    requires n <= |ts| && lo + n <= |es|
    requires forall j :: 0 <= j < n ==> (es[lo + j].attributes.Some? <==> ts[j].HasAttributes())
    ensures CountWithAttributes(es, lo, lo + n) == CountAttributed(ts, n)
    decreases n
  {
    if n > 0 {
      CountMatches(es, lo, ts, n - 1);
    }
  }

  /** The same, layer after layer: when the entities from `lo` on are the
      layers' tiles in order, their attribute count is the layers'. */
  lemma {:induction false} CountLayers(es: seq<TileEntity>, lo: nat, ls: seq<SpriteFusionLayer>, n: nat)
    requires n <= |ls| && lo + TotalTiles(ls, n) <= |es|
    requires forall k, j :: 0 <= k < n && 0 <= j < |ls[k].tiles| && lo + TotalTiles(ls, k) + j < |es| ==>
      (es[lo + TotalTiles(ls, k) + j].attributes.Some? <==> ls[k].tiles[j].HasAttributes())
    ensures CountWithAttributes(es, lo, lo + TotalTiles(ls, n)) == AttributedTiles(ls, n)
    decreases n
  {
    if n > 0 {
      var mid := lo + TotalTiles(ls, n - 1);
      assert TotalTiles(ls, n) == TotalTiles(ls, n - 1) + |ls[n - 1].tiles|;
      CountLayers(es, lo, ls, n - 1);
      CountSplit(es, lo, mid, lo + TotalTiles(ls, n));
      CountMatches(es, mid, ls[n - 1].tiles, |ls[n - 1].tiles|);
    }
  }

  // ---------------------------------------------------------------------
  // Properties of one spawned map

  /** One map spawned: one layer entity per layer and the tiles of all its
      layers are added, and one summary; the summary's layer count is the
      map's, its tile count is both the sum of the layers' tile counts and
      the number of tile entities created, and its attribute count is the
      number of those entities that carry attributes. */
  lemma SpawnMapSummary(o: Output, m: SpriteFusionMap, parent: nat)
    requires MapPlaced(m)
    ensures var o' := SpawnMapSpec(o, m, parent);
      var n, T := |m.layers|, |o.tiles|;
      && |o'.layers| == |o.layers| + n
      && |o'.tiles| == T + TotalTiles(m.layers, n)
      && o'.summaries == o.summaries
           + [Summary(parent, n, |o'.tiles| - T, CountWithAttributes(o'.tiles, T, |o'.tiles|))]
  {
    var o' := SpawnMapSpec(o, m, parent);
    forall k, j | 0 <= k < |m.layers| && 0 <= j < |m.layers[k].tiles| && |o.tiles| + TotalTiles(m.layers, k) + j < |o'.tiles|
      ensures o'.tiles[|o.tiles| + TotalTiles(m.layers, k) + j].attributes.Some? <==> m.layers[k].tiles[j].HasAttributes()
    {
      SpawnMapTile(o, m, parent, k, j);
    }
    CountLayers(o'.tiles, |o.tiles|, m.layers, |m.layers|);
  }

  /** Layer `k` of a spawned map: its entity is a child of the map entity,
      sized to the map, carries the layer's name, index and collider flag,
      and sits `k` steps behind the first layer. */
  lemma SpawnMapLayer(o: Output, m: SpriteFusionMap, parent: nat, k: nat)
    requires MapPlaced(m) && k < |m.layers|
    ensures var o' := SpawnMapSpec(o, m, parent);
      var i := |o.layers| + k;
      && i < |o'.layers|
      && o'.layers[i].parent == parent
      && o'.layers[i].marker == LayerMarker(m.layers[k].name, k, m.layers[k].collider)
      && o'.layers[i].width == m.mapWidth && o'.layers[i].height == m.mapHeight
      && o'.layers[i].depth == -(k as int)
  {
    SpawnMapLayerEntity(o, m, parent, k);
  }

  /** The entity of layer `k` is the layer's entity with its tiles numbered
      from where the map's tiles start plus the tiles of the layers before
      it; its storage is described by `LayerStorage`. */
  lemma SpawnMapLayerEntity(o: Output, m: SpriteFusionMap, parent: nat, k: nat)
    requires MapPlaced(m) && k < |m.layers|
    ensures var o' := SpawnMapSpec(o, m, parent);
      && |o.layers| + k < |o'.layers|
      && o'.layers[|o.layers| + k] == LayerEntityOf(m, k, parent, |o.tiles| + TotalTiles(m.layers, k))
  {
    MapLayersAt(m, |m.layers|, parent, |o.tiles|, k);
  }

  /** The storage of a layer entity, cell by cell: the cell of a position is
      empty when no tile of the layer resolves to it, and otherwise holds
      the entity of the last tile of the layer that does. */
  lemma LayerStorage(m: SpriteFusionMap, k: nat, parent: nat, tileBase: nat, p: TilePos)
    requires MapPlaced(m) && k < |m.layers| && InGrid(p, m.mapWidth, m.mapHeight)
    ensures var ts, g := m.layers[k].tiles, LayerEntityOf(m, k, parent, tileBase).storage;
      var c := CellIndex(p, m.mapWidth, m.mapHeight);
      && |g| == Area(m.mapWidth, m.mapHeight) && c < |g|
      && (g[c].None? <==> forall j :: 0 <= j < |ts| ==> ResolvePos(m, ts[j]) != p)
      && (g[c].Some? ==>
            && tileBase <= g[c].value < tileBase + |ts|
            && ResolvePos(m, ts[g[c].value - tileBase]) == p
            && forall j :: g[c].value - tileBase < j < |ts| ==> ResolvePos(m, ts[j]) != p)
  {
    var ts := m.layers[k].tiles;
    var ps := Positions(m, ts, |ts|);
    GridLastWriterWins(m.mapWidth, m.mapHeight, ps, tileBase, p);
    forall j | 0 <= j < |ts| ensures ps[j] == ResolvePos(m, ts[j]) {
      PositionsAt(m, ts, |ts|, j);
    }
  }

  /** The storage of a spawned layer points at the layer's tile entities: a
      cell is empty exactly when no tile of the layer lands on its position,
      and otherwise holds a tile entity of that layer at that position, the
      one for the last such tile. */
  lemma SpawnMapStorage(o: Output, m: SpriteFusionMap, parent: nat, k: nat, p: TilePos)
    requires MapPlaced(m) && k < |m.layers| && InGrid(p, m.mapWidth, m.mapHeight)
    ensures var o' := SpawnMapSpec(o, m, parent);
      var ts, c := m.layers[k].tiles, CellIndex(p, m.mapWidth, m.mapHeight);
      var base := |o.tiles| + TotalTiles(m.layers, k);
      && |o.layers| + k < |o'.layers|
      && c < |o'.layers[|o.layers| + k].storage|
      && var cell := o'.layers[|o.layers| + k].storage[c];
      && (cell.None? <==> forall j :: 0 <= j < |ts| ==> ResolvePos(m, ts[j]) != p)
      && (cell.Some? ==>
            && base <= cell.value < base + |ts| && cell.value < |o'.tiles|
            && o'.tiles[cell.value].position == p
            && o'.tiles[cell.value].tilemap == |o.layers| + k
            && forall j :: cell.value - base < j < |ts| ==> ResolvePos(m, ts[j]) != p)
  {
    var o' := SpawnMapSpec(o, m, parent);
    var base := |o.tiles| + TotalTiles(m.layers, k);
    SpawnMapLayerEntity(o, m, parent, k);
    LayerStorage(m, k, parent, base, p);
    var cell := o'.layers[|o.layers| + k].storage[CellIndex(p, m.mapWidth, m.mapHeight)];
    if cell.Some? {
      SpawnMapTile(o, m, parent, k, cell.value - base);
    }
  }

  /** Tile `j` of layer `k`: its entity belongs to the layer's entity, sits at
      the flipped position, uses the id as texture index, carries the
      collider tag iff the layer is a collider, and carries a copy of its
      attributes iff they are present and non-empty. */
  lemma SpawnMapTile(o: Output, m: SpriteFusionMap, parent: nat, k: nat, j: nat)
    requires MapPlaced(m) && k < |m.layers| && j < |m.layers[k].tiles|
    ensures var o' := SpawnMapSpec(o, m, parent);
      var t := m.layers[k].tiles[j];
      var i := |o.tiles| + TotalTiles(m.layers, k) + j;
      && TilePlaced(m, t)
      && i < |o'.tiles|
      && o'.tiles[i].tilemap == |o.layers| + k
      && o'.tiles[i].position == ResolvePos(m, t)
      && o'.tiles[i].textureIndex == t.TileId()
      && o'.tiles[i].collider == m.layers[k].collider
      && (o'.tiles[i].attributes.Some? <==> t.HasAttributes())
      && (o'.tiles[i].attributes.Some? ==> o'.tiles[i].attributes == t.attributes)
  {
    SpawnMapTileEntity(o, m, parent, k, j);
  }

  lemma SpawnMapTileEntity(o: Output, m: SpriteFusionMap, parent: nat, k: nat, j: nat)
    requires MapPlaced(m) && k < |m.layers| && j < |m.layers[k].tiles|
    ensures var o' := SpawnMapSpec(o, m, parent);
      var i := |o.tiles| + TotalTiles(m.layers, k) + j;
      && i < |o'.tiles|
      && o'.tiles[i] == SpawnTile(m, m.layers[k].collider, m.layers[k].tiles[j], |o.layers| + k)
  {
    MapTilesAt(m, |m.layers|, |o.layers|, k, j);
  }

  // ---------------------------------------------------------------------
  // Properties of one run of the system

  /** Over a run of requests, the layers, tiles and summaries there before
      are kept, and new ones only come after them. */
  lemma {:induction false} TickPrefix(o: Output, rs: seq<Request>, n: nat)
    requires ReadyMapsPlaced(rs) && n <= |rs|
    ensures var o' := TickSpec(o, rs, n);
      && |o.layers| <= |o'.layers| && |o.tiles| <= |o'.tiles| && |o.summaries| <= |o'.summaries|
      && (forall i :: 0 <= i < |o.layers| ==> o'.layers[i] == o.layers[i])
      && (forall i :: 0 <= i < |o.tiles| ==> o'.tiles[i] == o.tiles[i])
      && (forall i :: 0 <= i < |o.summaries| ==> o'.summaries[i] == o.summaries[i])
    decreases n
  {
    if n > 0 {
      TickPrefix(o, rs, n - 1);
      var o1 := TickSpec(o, rs, n - 1);
      if Ready(rs[n - 1]) {
        var m := rs[n - 1].mapAsset.value;
        SpawnMapSummary(o1, m, n - 1);
      }
    }
  }

  /** Every layer entity created over a run of requests is a child of a
      request that was ready. */
  lemma {:induction false} TickParent(o: Output, rs: seq<Request>, n: nat, j: nat)
    requires ReadyMapsPlaced(rs) && n <= |rs|
    requires |o.layers| <= j < |TickSpec(o, rs, n).layers|
    ensures TickSpec(o, rs, n).layers[j].parent < n && Ready(rs[TickSpec(o, rs, n).layers[j].parent])
    decreases n
  {
    var o1 := TickSpec(o, rs, n - 1);
    if Ready(rs[n - 1]) {
      var m := rs[n - 1].mapAsset.value;
      if j < |o1.layers| {
        TickParent(o, rs, n - 1, j);
      } else {
        SpawnMapLayer(o1, m, n - 1, j - |o1.layers|);
      }
    } else {
      TickParent(o, rs, n - 1, j);
    }
  }

  /** Exactly one summary is emitted per ready request, in request order. */
  lemma {:induction false} TickSummaries(o: Output, rs: seq<Request>, n: nat)
    requires ReadyMapsPlaced(rs) && n <= |rs|
    ensures var o' := TickSpec(o, rs, n);
      && |o'.summaries| == |o.summaries| + |ReadyIndices(rs, n)|
      && forall j :: 0 <= j < |ReadyIndices(rs, n)| ==>
           o'.summaries[|o.summaries| + j].entity == ReadyIndices(rs, n)[j]
    decreases n
  {
    if n > 0 {
      TickSummaries(o, rs, n - 1);
      TickSummaryStep(o, rs, n);
      var r1, r := ReadyIndices(rs, n - 1), ReadyIndices(rs, n);
      var s1, s := TickSpec(o, rs, n - 1).summaries, TickSpec(o, rs, n).summaries;
      var k := |o.summaries|;
      forall j | 0 <= j < |r| ensures s[k + j].entity == r[j] {
        if j < |r1| {
          assert r[j] == r1[j];
          assert s[k + j] == s1[k + j];
        }
      }
    }
  }

  /** One request's step adds one summary, naming the request, when it is
      ready, and none otherwise. */
  lemma TickSummaryStep(o: Output, rs: seq<Request>, n: nat)
    requires ReadyMapsPlaced(rs) && 0 < n <= |rs|
    ensures var o1, o' := TickSpec(o, rs, n - 1), TickSpec(o, rs, n);
      && |o'.summaries| == |o1.summaries| + (if Ready(rs[n - 1]) then 1 else 0)
      && (forall i :: 0 <= i < |o1.summaries| ==> o'.summaries[i] == o1.summaries[i])
      && (Ready(rs[n - 1]) ==> o'.summaries[|o1.summaries|].entity == n - 1)
  {
  }

  lemma {:induction false} TickNothingReady(o: Output, rs: seq<Request>, n: nat)
    requires n <= |rs| && forall i :: 0 <= i < |rs| ==> !Ready(rs[i])
    ensures TickSpec(o, rs, n) == o
    decreases n
  {
    if n > 0 {
      TickNothingReady(o, rs, n - 1);
    }
  }

  /** Running the system again on what it left behind changes nothing and
      spawns nothing. */
  lemma TickIdempotent(o: Output, rs: seq<Request>)
    ensures AdvanceAll(AdvanceAll(rs)) == AdvanceAll(rs)
    ensures ReadyMapsPlaced(AdvanceAll(rs))
    ensures TickSpec(o, AdvanceAll(rs), |rs|) == o
  {
    TickNothingReady(o, AdvanceAll(rs), |rs|);
  }
}

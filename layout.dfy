/** Where a tile lands: the editor's top-left origin flipped to the tilemap's
    bottom-left origin in `u32` arithmetic, and the row-major cell of a
    width-by-height grid storage. */
module Layout {
  import opened Wrappers
  import opened Ints
  import opened Types

  /** A grid position (the tilemap's `TilePos`). */
  datatype TilePos = TilePos(x: U32, y: U32)

  /** `(map_height - 1) - tile.y as u32`, both subtractions checked as a debug
      build checks them; `None` is the overflow panic. */
  function FlipY(height: U32, y: I32): (r: Option<U32>)
    ensures r.Some? <==> 1 <= height && AsU32(y) <= height - 1
    ensures r.Some? ==> r.value == height - 1 - AsU32(y)
  {
    match CheckedSub(height, 1)
    case None => None
    case Some(top) => CheckedSub(top, AsU32(y))
  }

  /** The flip fails on an empty map, on a row at or past the height, and on
      any negative row of a map at most 2^31 rows tall (the cast makes the
      row at least 2^31). */
  lemma FlipYUnderflow(height: U32, y: I32)
    ensures height == 0 ==> FlipY(height, y).None?
    ensures 0 <= y && height <= y ==> FlipY(height, y).None?
    ensures y < 0 && height <= 0x8000_0000 ==> FlipY(height, y).None?
  {
  }

  /** Inside the map the flip is defined, stays inside the map, and flipping
      the result again gives the original row back. */
  lemma FlipYInRange(height: U32, y: I32)
    requires 0 <= y < height
    ensures FlipY(height, y).Some?
    ensures FlipY(height, y).value < height
    ensures height - 1 - FlipY(height, y).value == y
  {
  }

  /** A tile lies inside its map's grid. */
  predicate TilePlaced(m: SpriteFusionMap, t: SpriteFusionTile) {
    0 <= t.x < m.mapWidth && 0 <= t.y < m.mapHeight
  }

  predicate TilesPlaced(m: SpriteFusionMap, ts: seq<SpriteFusionTile>) {
    forall i :: 0 <= i < |ts| ==> TilePlaced(m, ts[i])
  }

  /** The tile's position in the tilemap: column `x as u32`, row flipped. */
  function ResolvePos(m: SpriteFusionMap, t: SpriteFusionTile): (p: TilePos)
    requires TilePlaced(m, t)
    ensures p.x == t.x && FlipY(m.mapHeight, t.y) == Some(p.y)
    ensures p.x < m.mapWidth && p.y < m.mapHeight
  {
    TilePos(AsU32(t.x), FlipY(m.mapHeight, t.y).value)
  }

  /** The positions of the first `n` tiles of a run, in order; all inside
      the map's grid. */
  function Positions(m: SpriteFusionMap, ts: seq<SpriteFusionTile>, n: nat): (ps: seq<TilePos>)
    requires TilesPlaced(m, ts) && n <= |ts|
    ensures |ps| == n
    ensures AllInGrid(ps, m.mapWidth, m.mapHeight)
  {
    if n == 0 then []
    else
      var init := Positions(m, ts, n - 1);
      var ps := init + [ResolvePos(m, ts[n - 1])];
      assert forall i :: 0 <= i < n - 1 ==> ps[i] == init[i];
      ps
  }

  lemma {:induction false} PositionsAt(m: SpriteFusionMap, ts: seq<SpriteFusionTile>, n: nat, i: nat)
    requires TilesPlaced(m, ts) && i < n <= |ts|
    ensures Positions(m, ts, n)[i] == ResolvePos(m, ts[i])
    decreases n
  {
    if i < n - 1 {
      PositionsAt(m, ts, n - 1, i);
    }
  }

  predicate InGrid(p: TilePos, width: nat, height: nat) {
    p.x < width && p.y < height
  }

  /** The number of cells of a `width * height` storage, counted row by row;
      it is the product (`AreaIsProduct`), but as a recursive count it keeps
      nonlinear arithmetic out of the grid's proofs. */
  function Area(width: nat, rows: nat): nat {
    if rows == 0 then 0 else Area(width, rows - 1) + width
  }

  lemma {:induction false} AreaIsProduct(width: nat, rows: nat)
    ensures Area(width, rows) == width * rows
    decreases rows
  {
    if rows > 0 {
      AreaIsProduct(width, rows - 1);
    }
  }

  /** A later row starts at least a full row after an earlier one. */
  lemma {:induction false} RowsApart(width: nat, a: nat, b: nat)
    requires a < b
    ensures Area(width, a) + width <= Area(width, b)
    decreases b
  {
    if a < b - 1 {
      RowsApart(width, a, b - 1);
    }
  }

  /** Row-major cell of a position in a `width * height` storage: the cells
      of the rows below it, then its column. */
  function CellIndex(p: TilePos, width: nat, height: nat): (i: nat)
    requires InGrid(p, width, height)
    ensures i < Area(width, height)
  {
    RowsApart(width, p.y, height);
    Area(width, p.y) + p.x
  }

  /** Distinct positions of a grid occupy distinct cells. */
  lemma CellIndexInjective(p: TilePos, q: TilePos, width: nat, height: nat)
    requires InGrid(p, width, height) && InGrid(q, width, height)
    requires CellIndex(p, width, height) == CellIndex(q, width, height)
    ensures p == q
  {
    if p.y < q.y {
      RowsApart(width, p.y, q.y);
    } else if q.y < p.y {
      RowsApart(width, q.y, p.y);
    }
  }

  /** The cell index is the row-major `y * width + x`. */
  lemma CellIndexRowMajor(p: TilePos, width: nat, height: nat)
    requires InGrid(p, width, height)
    ensures CellIndex(p, width, height) == p.y * width + p.x
  {
    AreaIsProduct(width, p.y);
  }

  function EmptyGrid(n: nat): (g: seq<Option<nat>>)
    ensures |g| == n && forall i :: 0 <= i < n ==> g[i].None?
  {
    seq(n, _ => None)
  }

  predicate AllInGrid(ps: seq<TilePos>, width: nat, height: nat) {
    forall i :: 0 <= i < |ps| ==> InGrid(ps[i], width, height)
  }

  /** The storage after writing entity `base + k` at position `ps[k]`, for
      each `k` in order, into an empty `width * height` storage. */
  function Grid(width: nat, height: nat, ps: seq<TilePos>, base: nat): (g: seq<Option<nat>>)
    requires AllInGrid(ps, width, height)
    ensures |g| == Area(width, height)
  {
    if ps == [] then EmptyGrid(Area(width, height))
    else
      Grid(width, height, ps[..|ps| - 1], base)[CellIndex(ps[|ps| - 1], width, height) := Some(base + |ps| - 1)]
  }

  /** Writing the next tile's entity into the storage of the tiles before it
      gives the storage of one more tile. */
  lemma GridStep(m: SpriteFusionMap, ts: seq<SpriteFusionTile>, n: nat, base: nat)
    requires TilesPlaced(m, ts) && n < |ts|
    ensures var w, h := m.mapWidth, m.mapHeight;
      Grid(w, h, Positions(m, ts, n), base)[CellIndex(ResolvePos(m, ts[n]), w, h) := Some(base + n)]
      == Grid(w, h, Positions(m, ts, n + 1), base)
  {
    assert Positions(m, ts, n + 1)[..n] == Positions(m, ts, n);
  }

  /** Last writer wins: a cell holds the entity of the last position in the
      run that resolved to it, and is empty when none did. */
  lemma {:induction false} GridLastWriterWins(width: nat, height: nat, ps: seq<TilePos>, base: nat, p: TilePos)
    requires AllInGrid(ps, width, height) && InGrid(p, width, height)
    ensures var c := Grid(width, height, ps, base)[CellIndex(p, width, height)];
      && (c.None? <==> forall k :: 0 <= k < |ps| ==> ps[k] != p)
      && (c.Some? ==>
            && base <= c.value < base + |ps|
            && ps[c.value - base] == p
            && forall k :: c.value - base < k < |ps| ==> ps[k] != p)
    decreases |ps|
  {
    if ps != [] {
      var n := |ps|;
      var init := ps[..n - 1];
      GridLastWriterWins(width, height, init, base, p);
      if ps[n - 1] != p {
        if CellIndex(ps[n - 1], width, height) == CellIndex(p, width, height) {
          CellIndexInjective(ps[n - 1], p, width, height);
        }
        assert forall k :: 0 <= k < n - 1 ==> ps[k] == init[k];
      }
    }
  }
}

/**
 * editor.py, the grid logic as values: the pixel-to-cell mapping of
 * `getCurrentPos`, the neighbour codes that `checkNeighbors` stores, the
 * effect of a placement and of a removal on the whole store, and the
 * six-layer export that `createGrid` produces.  A `View` is the store with
 * every `CanvasTile` replaced by the value of its fields.
 */
module CanvasGrid {
  import opened Wrappers
  import opened Geometry
  import opened Registry
  import opened Extrema
  import opened Canvas

  datatype Cell = Cell(col: int, row: int)

  type View = map<Cell, TileState>

  /** A non-empty set of cells has an element (stated for `Cell` so that a `:|` choice can use it). */
  lemma CellsInhabited(s: set<Cell>)
    requires s != {}
    ensures exists c :: c in s
  {
    if forall c :: c !in s {
      assert false;
    }
  }

  // ---------------------------------------------------------------- cells

  /**
   * One axis of `getCurrentPos`: the quotient truncated toward zero, minus
   * one when the distance is not positive.  A positive distance lands in
   * its cell with the left edge included; a non-positive one with the
   * right edge included, so 0 maps to -1.
   */
  function CellCoord(d: int): (c: int)
    ensures d > 0 ==> c * TILE_SIZE <= d < (c + 1) * TILE_SIZE
    ensures d <= 0 ==> c * TILE_SIZE < d <= (c + 1) * TILE_SIZE
  {
    if d > 0 then TruncDiv(d, TILE_SIZE) else TruncDiv(d, TILE_SIZE) - 1
  }

  /** Against floor division: the two differ exactly at the non-positive multiples of the tile size. */
  lemma CellCoordAgainstFloor(d: int)
    ensures CellCoord(d) == if d <= 0 && d % TILE_SIZE == 0 then d / TILE_SIZE - 1 else d / TILE_SIZE
  {
  }

  lemma CellCoordExamples()
    ensures CellCoord(1) == 0 && CellCoord(TILE_SIZE) == 1
    ensures CellCoord(0) == -1 && CellCoord(-1) == -1 && CellCoord(-TILE_SIZE) == -2
  {
  }

  /** `getCurrentPos` applied to a distance from the origin. */
  function CellOf(d: Point): Cell
  {
    Cell(CellCoord(d.x), CellCoord(d.y))
  }

  /** The pixel corner of a cell, relative to the origin. */
  function CellCorner(c: Cell): Point
  {
    Point(c.col * TILE_SIZE, c.row * TILE_SIZE)
  }

  /** The offset of a point from the corner of the cell it maps to lies within one tile on each axis. */
  lemma OffsetWithinTile(d: Point)
    ensures var o := d.Minus(CellCorner(CellOf(d)));
      0 <= o.x <= TILE_SIZE && 0 <= o.y <= TILE_SIZE
  {
  }

  /**
   * `createGrid` files an object under the cell `getCurrentPos` finds for
   * its distance minus the origin, but takes its offset from its distance
   * itself: the offset lies within one tile of the origin, not of the cell's
   * corner, so it leaves the tile once the canvas is panned.
   */
  lemma FiledOffsetNearOrigin(a: Anchor, origin: Point)
    ensures var o := AnchorDecoration(a, origin).offset;
      && 0 <= o.x - origin.x <= TILE_SIZE && 0 <= o.y - origin.y <= TILE_SIZE
      && (origin == Point(0, 0) ==> 0 <= o.x <= TILE_SIZE && 0 <= o.y <= TILE_SIZE)
  {
    OffsetWithinTile(a.distance.Minus(origin));
  }

  // ----------------------------------------------------------- neighbours

  function Shift(c: Cell, d: Direction): Cell
  {
    Cell(c.col + d.dx, c.row + d.dy)
  }

  predicate TerrainAt(v: View, c: Cell) { c in v && v[c].hasTerrain }
  predicate WaterAt(v: View, c: Cell) { c in v && v[c].hasWater }

  /** The names appended to `terrainNeighbors` while `dirs` is walked in order. */
  function NeighborCode(v: View, c: Cell, dirs: seq<Direction>): seq<char>
  {
    if dirs == [] then []
    else
      var last := dirs[|dirs| - 1];
      NeighborCode(v, c, dirs[..|dirs| - 1]) + (if TerrainAt(v, Shift(c, last)) then [last.name] else [])
  }

  /** The value `waterOnTop` ends with after `dirs` is walked. */
  function WaterOnTop(v: View, c: Cell, dirs: seq<Direction>): bool
  {
    if dirs == [] then false
    else
      var last := dirs[|dirs| - 1];
      WaterOnTop(v, c, dirs[..|dirs| - 1]) || (last.name == 'A' && WaterAt(v, Shift(c, last)))
  }

  /** A name is in the code exactly when a direction of that name leads to terrain. */
  lemma {:induction false} NeighborCodeSelects(v: View, c: Cell, dirs: seq<Direction>, ch: char)
    ensures |NeighborCode(v, c, dirs)| <= |dirs|
    ensures ch in NeighborCode(v, c, dirs) <==>
      exists i | 0 <= i < |dirs| :: dirs[i].name == ch && TerrainAt(v, Shift(c, dirs[i]))
  {
    if dirs != [] {
      var init := dirs[..|dirs| - 1];
      var last := dirs[|dirs| - 1];
      NeighborCodeSelects(v, c, init, ch);
      assert forall i | 0 <= i < |init| :: init[i] == dirs[i];
    }
  }

  /**
   * The code depends only on which neighbours hold terrain, not on how the
   * store got there (the order of earlier edits, the other fields).
   */
  lemma {:induction false} NeighborCodeDeterministic(v1: View, v2: View, c: Cell, dirs: seq<Direction>)
    requires forall i | 0 <= i < |dirs| :: TerrainAt(v1, Shift(c, dirs[i])) == TerrainAt(v2, Shift(c, dirs[i]))
    ensures NeighborCode(v1, c, dirs) == NeighborCode(v2, c, dirs)
  {
    if dirs != [] {
      var init := dirs[..|dirs| - 1];
      assert forall i | 0 <= i < |init| :: init[i] == dirs[i];
      NeighborCodeDeterministic(v1, v2, c, init);
    }
  }

  /** Terrain above and to the right only gives the code "AC". */
  lemma NorthEastCode(v: View, c: Cell)
    requires forall i | 0 <= i < |NEIGHBOR_DIRECTIONS| ::
      TerrainAt(v, Shift(c, NEIGHBOR_DIRECTIONS[i])) <==> NEIGHBOR_DIRECTIONS[i].name in "AC"
    ensures NeighborCode(v, c, NEIGHBOR_DIRECTIONS) == "AC"
  {
    var D := NEIGHBOR_DIRECTIONS;
    assert TerrainAt(v, Shift(c, D[0])) && !TerrainAt(v, Shift(c, D[1]));
    assert TerrainAt(v, Shift(c, D[2])) && !TerrainAt(v, Shift(c, D[3]));
    assert !TerrainAt(v, Shift(c, D[4])) && !TerrainAt(v, Shift(c, D[5]));
    assert !TerrainAt(v, Shift(c, D[6])) && !TerrainAt(v, Shift(c, D[7]));
    assert D[..1][..0] == [];
    assert D[..2][..1] == D[..1];
    assert D[..3][..2] == D[..2];
    assert D[..4][..3] == D[..3];
    assert D[..5][..4] == D[..4];
    assert D[..6][..5] == D[..5];
    assert D[..7][..6] == D[..6];
    assert D[..8][..7] == D[..7];
    assert NeighborCode(v, c, D[..1]) == "A";
    assert NeighborCode(v, c, D[..2]) == "A";
    assert NeighborCode(v, c, D[..3]) == "AC";
    assert NeighborCode(v, c, D[..4]) == "AC";
    assert NeighborCode(v, c, D[..5]) == "AC";
    assert NeighborCode(v, c, D[..6]) == "AC";
    assert NeighborCode(v, c, D[..7]) == "AC";
    assert D[..8] == D;
  }

  /** With the direction table, `waterOnTop` is exactly "the cell above holds water". */
  lemma WaterOnTopIsCellAbove(v: View, c: Cell)
    ensures WaterOnTop(v, c, NEIGHBOR_DIRECTIONS) == WaterAt(v, Cell(c.col, c.row - 1))
  {
    var D := NEIGHBOR_DIRECTIONS;
    assert D[..1][..0] == [];
    assert D[..2][..1] == D[..1];
    assert D[..3][..2] == D[..2];
    assert D[..4][..3] == D[..3];
    assert D[..5][..4] == D[..4];
    assert D[..6][..5] == D[..5];
    assert D[..7][..6] == D[..6];
    assert D[..8][..7] == D[..7];
    assert WaterOnTop(v, c, D[..1]) == WaterAt(v, Cell(c.col, c.row - 1));
    assert WaterOnTop(v, c, D[..2]) == WaterAt(v, Cell(c.col, c.row - 1));
    assert WaterOnTop(v, c, D[..3]) == WaterAt(v, Cell(c.col, c.row - 1));
    assert WaterOnTop(v, c, D[..4]) == WaterAt(v, Cell(c.col, c.row - 1));
    assert WaterOnTop(v, c, D[..5]) == WaterAt(v, Cell(c.col, c.row - 1));
    assert WaterOnTop(v, c, D[..6]) == WaterAt(v, Cell(c.col, c.row - 1));
    assert WaterOnTop(v, c, D[..7]) == WaterAt(v, Cell(c.col, c.row - 1));
    assert WaterOnTop(v, c, D[..8]) == WaterAt(v, Cell(c.col, c.row - 1));
    assert D[..8] == D;
  }

  /** The nine cells `checkNeighbors` visits, row by row. */
  function LocalCluster(center: Cell): seq<Cell>
  {
    seq(9, k requires 0 <= k < 9 => Cell(center.col + k % 3 - 1, center.row + k / 3 - 1))
  }

  predicate InBlock(center: Cell, c: Cell)
  {
    -1 <= c.col - center.col <= 1 && -1 <= c.row - center.row <= 1
  }

  lemma LocalClusterIsBlock(center: Cell, c: Cell)
    ensures c in LocalCluster(center) <==> InBlock(center, c)
  {
    var L := LocalCluster(center);
    if InBlock(center, c) {
      var k := (c.row - center.row + 1) * 3 + (c.col - center.col + 1);
      assert L[k] == c;
    }
  }

  /** A cell's tile with its neighbour fields recomputed from `v`. */
  function Refreshed(v: View, c: Cell): TileState
    requires c in v
  {
    v[c].(terrainNeighbors := NeighborCode(v, c, NEIGHBOR_DIRECTIONS),
          waterOnTop := WaterOnTop(v, c, NEIGHBOR_DIRECTIONS))
  }

  /** The store after `checkNeighbors(center)`. */
  function NeighborsChecked(v: View, center: Cell): View
  {
    map c | c in v :: if InBlock(center, c) then Refreshed(v, c) else v[c]
  }

  /** The store midway through `checkNeighbors`: the tiles of `cells` are refreshed from `v`, the others are as in `v`. */
  function PartlyChecked(v: View, cells: seq<Cell>): View
  {
    map c | c in v :: if c in cells then Refreshed(v, c) else v[c]
  }

  /** Refreshing one more cell (again, if it was refreshed before) takes `checkNeighbors` one step further. */
  lemma PartlyCheckedStep(v: View, cells: seq<Cell>, k: int)
    requires 0 <= k < |cells|
    ensures var w, c := PartlyChecked(v, cells[..k]), cells[k];
      PartlyChecked(v, cells[..k + 1]) ==
        if c in w then w[c := w[c].(terrainNeighbors := NeighborCode(v, c, NEIGHBOR_DIRECTIONS), waterOnTop := WaterOnTop(v, c, NEIGHBOR_DIRECTIONS))]
        else w
  {
    assert cells[..k + 1] == cells[..k] + [cells[k]];
  }

  /** Refreshing the cells of the local cluster is `checkNeighbors`. */
  lemma ClusterChecksBlock(v: View, center: Cell)
    ensures PartlyChecked(v, LocalCluster(center)) == NeighborsChecked(v, center)
  {
    forall c | c in v
      ensures c in LocalCluster(center) <==> InBlock(center, c)
    {
      LocalClusterIsBlock(center, c);
    }
  }

  /**
   * `checkNeighbors` keeps every key and every content field, touches the
   * 3x3 block only, and there leaves exactly the terrain neighbours' names
   * and "water above".
   */
  lemma NeighborsCheckedIsLocal(v: View, center: Cell, c: Cell, ch: char)
    requires c in v
    ensures NeighborsChecked(v, center).Keys == v.Keys
    ensures var r := NeighborsChecked(v, center)[c];
      && r.(terrainNeighbors := v[c].terrainNeighbors, waterOnTop := v[c].waterOnTop) == v[c]
      && (!InBlock(center, c) ==> r == v[c])
      && (InBlock(center, c) ==>
            (r.waterOnTop <==> WaterAt(v, Cell(c.col, c.row - 1))) &&
            (ch in r.terrainNeighbors <==> exists i | 0 <= i < |NEIGHBOR_DIRECTIONS| ::
               NEIGHBOR_DIRECTIONS[i].name == ch && TerrainAt(v, Shift(c, NEIGHBOR_DIRECTIONS[i]))))
  {
    if InBlock(center, c) {
      WaterOnTopIsCellAbove(v, c);
      NeighborCodeSelects(v, c, NEIGHBOR_DIRECTIONS, ch);
    }
  }

  /** Every stored tile still holds something. */
  predicate NoEmptyTile(v: View)
  {
    forall c | c in v :: !v[c].isEmpty
  }

  /** `checkNeighbors` keeps every key and never marks a tile empty. */
  lemma NeighborsCheckedKeepsTiles(v: View, center: Cell)
    requires NoEmptyTile(v)
    ensures NeighborsChecked(v, center).Keys == v.Keys
    ensures NoEmptyTile(NeighborsChecked(v, center))
  {
    forall c | c in v
      ensures !NeighborsChecked(v, center)[c].isEmpty
    {
      NeighborsCheckedIsLocal(v, center, c, 'A');
    }
  }

  // ------------------------------------------------- placement and removal

  /** The store after `canvasAdd` places the tile id `tileId` at `cell`, before neighbours are checked. */
  function Placed(v: View, cell: Cell, tileId: int): View
    requires IsId(tileId)
  {
    v[cell := AddIdTo(if cell in v then v[cell] else BLANK, tileId, Zero)]
  }

  /** The store after `canvaseRemove` removes `tileId` at `cell`, before neighbours are checked. */
  function Removed(v: View, cell: Cell, tileId: int): View
    requires IsId(tileId) && cell in v
  {
    var t := CheckedContent(RemoveIdFrom(v[cell], tileId));
    if t.isEmpty then v - {cell} else v[cell := t]
  }

  /**
   * A removal evicts the tile exactly when terrain, water, coin and enemy
   * are all gone; the decorations it may still hold do not keep it.
   */
  lemma RemovedEvictsExactlyWhenEmpty(v: View, cell: Cell, tileId: int)
    requires IsId(tileId) && cell in v && !v[cell].isEmpty
    ensures var t := RemoveIdFrom(v[cell], tileId);
      && (cell !in Removed(v, cell, tileId) <==> t.NoContent())
      && (cell in Removed(v, cell, tileId) ==> Removed(v, cell, tileId)[cell] == t && !t.isEmpty)
      && Removed(v, cell, tileId).Keys <= v.Keys
      && forall c | c in v && c != cell :: c in Removed(v, cell, tileId) && Removed(v, cell, tileId)[c] == v[c]
  {
  }

  /** A tile holding only decorations, as `createGrid` may leave one, is deleted by the first removal at its cell. */
  lemma DecorationOnlyTileEvicted(v: View, cell: Cell, tileId: int)
    requires IsId(tileId) && cell in v && v[cell].NoContent()
    ensures cell !in Removed(v, cell, tileId)
    ensures forall c | c in v && c != cell :: c in Removed(v, cell, tileId) && Removed(v, cell, tileId)[c] == v[c]
  {
  }

  /** Placing never makes a tile report empty, and the placed content is present. */
  lemma PlacedIsPresent(v: View, cell: Cell, tileId: int)
    requires IsId(tileId) && !IsObjectStyle(StyleOf(tileId))
    requires cell in v ==> !v[cell].isEmpty
    ensures var r := Placed(v, cell, tileId);
      && r.Keys == v.Keys + {cell}
      && !r[cell].isEmpty && !r[cell].NoContent()
      && forall c | c in v && c != cell :: r[c] == v[c]
  {
    match StyleOf(tileId) {
      case TerrainStyle =>
      case WaterStyle =>
      case CoinStyle =>
      case EnemyStyle =>
    }
  }

  // ------------------------------------------------- objects into the grid

  /** What `createGrid` reads of a free object: its type id and its distance from the origin. */
  datatype Anchor = Anchor(id: int, distance: Point)

  /**
   * The cell an object is filed under.  `getCurrentPos(obj)` subtracts the
   * origin from the object's distance to the origin, so the cell depends
   * on the current pan.
   */
  function AnchorCell(a: Anchor, origin: Point): Cell
  {
    CellOf(a.distance.Minus(origin))
  }

  /** The decoration an object becomes: its offset is its distance minus the corner of its cell. */
  function AnchorDecoration(a: Anchor, origin: Point): Decoration
  {
    Decoration(a.id, a.distance.Minus(CellCorner(AnchorCell(a, origin))))
  }

  /** The tiles with their decoration lists emptied (the first loop of `createGrid`). */
  function Cleared(v: View): View
  {
    map c | c in v :: v[c].(objects := [])
  }

  /** The store midway through the first loop of `createGrid`: the tiles outside `todo` are cleared. */
  function ClearedExcept(v: View, todo: set<Cell>): View
  {
    map c | c in v :: if c in todo then v[c] else v[c].(objects := [])
  }

  /** Clearing one more tile takes the first loop of `createGrid` one step further. */
  lemma ClearedExceptStep(v: View, todo: set<Cell>, cell: Cell)
    requires cell in todo && cell in v
    ensures var w := ClearedExcept(v, todo); ClearedExcept(v, todo - {cell}) == w[cell := w[cell].(objects := [])]
  {
  }

  /** The store after one object has been filed: `addId` on its cell's tile, or a new tile there. */
  function FileObject(w: View, a: Anchor, origin: Point): View
    requires IsId(a.id)
  {
    var cell := AnchorCell(a, origin);
    var d := AnchorDecoration(a, origin);
    w[cell := AddIdTo(if cell in w then w[cell] else BLANK, d.id, d.offset)]
  }

  /** The store after every object in `objs` has been filed in order (the second loop of `createGrid`). */
  function AttachAll(v: View, objs: seq<Anchor>, origin: Point): View
    requires forall i | 0 <= i < |objs| :: IsId(objs[i].id)
  {
    if objs == [] then v
    else FileObject(AttachAll(v, objs[..|objs| - 1], origin), objs[|objs| - 1], origin)
  }

  /**
   * Filing one object touches its own cell only; there it keeps every
   * other field and every earlier decoration, adds its own, and does not
   * mark the tile empty.
   */
  lemma FileObjectEffect(w: View, a: Anchor, origin: Point)
    requires IsId(a.id) && IsObjectStyle(StyleOf(a.id))
    ensures var r, cell := FileObject(w, a, origin), AnchorCell(a, origin);
      var t := if cell in w then w[cell] else BLANK;
      && r.Keys == w.Keys + {cell}
      && (forall c | c in w && c != cell :: r[c] == w[c])
      && r[cell].(objects := t.objects) == t
      && (forall d | d in t.objects :: d in r[cell].objects)
      && AnchorDecoration(a, origin) in r[cell].objects
  {
    var cell := AnchorCell(a, origin);
    var d := AnchorDecoration(a, origin);
    AddIdAppendsDecoration(if cell in w then w[cell] else BLANK, d.id, d.offset);
  }

  /** Filing objects keeps every tile and adds exactly the objects' cells. */
  lemma {:induction false} AttachAllKeys(v: View, objs: seq<Anchor>, origin: Point)
    requires forall i | 0 <= i < |objs| :: IsId(objs[i].id)
    ensures AttachAll(v, objs, origin).Keys == v.Keys + (set i | 0 <= i < |objs| :: AnchorCell(objs[i], origin))
  {
    if objs != [] {
      var init := objs[..|objs| - 1];
      AttachAllKeys(v, init, origin);
      assert forall i | 0 <= i < |init| :: init[i] == objs[i];
      assert (set i | 0 <= i < |objs| :: AnchorCell(objs[i], origin))
          == (set i | 0 <= i < |init| :: AnchorCell(init[i], origin)) + {AnchorCell(objs[|objs| - 1], origin)};
    }
  }

  /**
   * Filing objects leaves the grid-snapped contents and neighbour fields of
   * every tile alone and never marks a tile empty.
   */
  lemma {:induction false} AttachAllKeepsContent(v: View, objs: seq<Anchor>, origin: Point)
    requires forall i | 0 <= i < |objs| :: IsId(objs[i].id) && IsObjectStyle(StyleOf(objs[i].id))
    requires NoEmptyTile(v)
    ensures NoEmptyTile(AttachAll(v, objs, origin))
    ensures forall c | c in v ::
      (c in AttachAll(v, objs, origin) && AttachAll(v, objs, origin)[c].(objects := v[c].objects) == v[c])
  {
    if objs != [] {
      var init := objs[..|objs| - 1];
      AttachAllKeepsContent(v, init, origin);
      var w, a := AttachAll(v, init, origin), objs[|objs| - 1];
      FileObjectEffect(w, a, origin);
      var cell := AnchorCell(a, origin);
      if cell in w {
        assert !w[cell].isEmpty;
      }
    }
  }

  /** After filing, each object's decoration is in the tile of its cell. */
  lemma {:induction false} AttachAllHoldsDecorations(v: View, objs: seq<Anchor>, origin: Point, k: int)
    requires forall i | 0 <= i < |objs| :: IsId(objs[i].id) && IsObjectStyle(StyleOf(objs[i].id))
    requires 0 <= k < |objs|
    ensures var r := AttachAll(v, objs, origin);
      AnchorCell(objs[k], origin) in r && AnchorDecoration(objs[k], origin) in r[AnchorCell(objs[k], origin)].objects
  {
    var init := objs[..|objs| - 1];
    FileObjectEffect(AttachAll(v, init, origin), objs[|objs| - 1], origin);
    if k < |init| {
      assert init[k] == objs[k];
      AttachAllHoldsDecorations(v, init, origin, k);
    }
  }

  /**
   * Whatever cell an object is filed under, its decoration is exported at
   * its distance from the origin shifted by the grid offset: the export
   * does not depend on the pan.
   */
  lemma DecorationLandsAtDistance(a: Anchor, origin: Point, left: int, top: int)
    ensures DecorationPos(AnchorCell(a, origin), AnchorDecoration(a, origin), left, top)
         == a.distance.Minus(Point(left * TILE_SIZE, top * TILE_SIZE))
  {
  }

  // ---------------------------------------------------------------- export

  /** The exported layers; each maps a normalised pixel position to its payload. */
  datatype Grid = Grid(
    water: map<Point, string>,
    bgPalms: map<Point, int>,
    terrain: map<Point, string>,
    enemies: map<Point, int>,
    coins: map<Point, int>,
    fgObjects: map<Point, int>)

  function Cols(v: View): set<int> { set c | c in v :: c.col }
  function Rows(v: View): set<int> { set c | c in v :: c.row }

  lemma ColsRowsNonEmpty(v: View)
    requires v.Keys != {}
    ensures Cols(v) != {} && Rows(v) != {}
  {
    CellsInhabited(v.Keys);
    var c :| c in v.Keys;
    assert c.col in Cols(v) && c.row in Rows(v);
  }

  /** The least occupied column (`left` in `createGrid`). */
  function MinCol(v: View): int
    requires v.Keys != {}
  {
    ColsRowsNonEmpty(v);
    Least(Cols(v))
  }

  /** The least occupied row (`top` in `createGrid`). */
  function MinRow(v: View): int
    requires v.Keys != {}
  {
    ColsRowsNonEmpty(v);
    Least(Rows(v))
  }

  /** Where a cell lands in the export. */
  function ExportPos(c: Cell, left: int, top: int): Point
  {
    Point((c.col - left) * TILE_SIZE, (c.row - top) * TILE_SIZE)
  }

  /** Where a decoration lands in the export. */
  function DecorationPos(c: Cell, d: Decoration, left: int, top: int): Point
  {
    ExportPos(c, left, top).Plus(d.offset)
  }

  /** Coins are exported at the middle of their cell. */
  const COIN_SHIFT := Point(TILE_SIZE / 2, TILE_SIZE / 2)

  /**
   * A grid-snapped layer: every tile of `cells` whose payload is present
   * contributes one entry at its exported position shifted by `shift`.
   */
  function CellLayer<T>(v: View, cells: set<Cell>, left: int, top: int, shift: Point, payload: TileState -> Option<T>): map<Point, T>
  {
    map c | c in cells && c in v && payload(v[c]).Some? :: ExportPos(c, left, top).Plus(shift) := payload(v[c]).value
  }

  function WaterPayload(t: TileState): Option<string>
  {
    if t.hasWater then Some(t.GetWater()) else None
  }

  /** The terrain variant: the neighbour code, or "X" when no land tile has that name. */
  function TerrainPayload(t: TileState, landTiles: set<string>): Option<string>
  {
    if !t.hasTerrain then None
    else if t.GetTerrain() in landTiles then Some(t.GetTerrain())
    else Some("X")
  }

  function CoinPayload(t: TileState): Option<int> { t.coin }
  function EnemyPayload(t: TileState): Option<int> { t.enemy }

  /** Filing one more cell adds at most its own entry and changes no other. */
  lemma CellLayerStep<T>(v: View, cells: set<Cell>, c: Cell, left: int, top: int, shift: Point, payload: TileState -> Option<T>)
    requires c in v && c !in cells
    ensures CellLayer(v, cells + {c}, left, top, shift, payload)
         == if payload(v[c]).Some?
            then CellLayer(v, cells, left, top, shift, payload)[ExportPos(c, left, top).Plus(shift) := payload(v[c]).value]
            else CellLayer(v, cells, left, top, shift, payload)
  {
    var before := CellLayer(v, cells, left, top, shift, payload);
    var after := CellLayer(v, cells + {c}, left, top, shift, payload);
    var p := ExportPos(c, left, top).Plus(shift);
    forall q | q in before
      ensures q != p || payload(v[c]).None?
    {
      var e :| e in cells && e in v && payload(v[e]).Some? && ExportPos(e, left, top).Plus(shift) == q;
      assert e != c;
    }
  }

  /** A tile's decorations of the chosen layer (palm backgrounds, or everything else), later ones winning. */
  function TileDecorations(c: Cell, ds: seq<Decoration>, left: int, top: int, bg: bool): map<Point, int>
  {
    if ds == [] then map[]
    else
      var d := ds[|ds| - 1];
      var rest := TileDecorations(c, ds[..|ds| - 1], left, top, bg);
      if IsBackgroundPalm(d.id) == bg then rest[DecorationPos(c, d, left, top) := d.id] else rest
  }

  /** A decoration layer after the tiles of `order` have been visited in that order. */
  function DecorationLayer(v: View, order: seq<Cell>, left: int, top: int, bg: bool): map<Point, int>
    requires forall i | 0 <= i < |order| :: order[i] in v
  {
    if order == [] then map[]
    else
      var c := order[|order| - 1];
      DecorationLayer(v, order[..|order| - 1], left, top, bg) + TileDecorations(c, v[c].objects, left, top, bg)
  }

  /** Every decoration of the layer's kind has an entry at its position. */
  lemma {:induction false} TileDecorationsCover(c: Cell, ds: seq<Decoration>, left: int, top: int, bg: bool, d: Decoration)
    requires d in ds && IsBackgroundPalm(d.id) == bg
    ensures DecorationPos(c, d, left, top) in TileDecorations(c, ds, left, top, bg)
  {
    var init := ds[..|ds| - 1];
    if d != ds[|ds| - 1] {
      assert d in init by {
        var i :| 0 <= i < |ds| && ds[i] == d;
        assert init[i] == d;
      }
      TileDecorationsCover(c, init, left, top, bg, d);
    }
  }

  /** Every entry comes from a decoration of the layer's kind at that position, carrying its id. */
  lemma {:induction false} TileDecorationsSource(c: Cell, ds: seq<Decoration>, left: int, top: int, bg: bool, p: Point)
    returns (d: Decoration)
    requires p in TileDecorations(c, ds, left, top, bg)
    ensures d in ds && IsBackgroundPalm(d.id) == bg
    ensures DecorationPos(c, d, left, top) == p && d.id == TileDecorations(c, ds, left, top, bg)[p]
  {
    var init := ds[..|ds| - 1];
    var last := ds[|ds| - 1];
    if IsBackgroundPalm(last.id) == bg && DecorationPos(c, last, left, top) == p {
      d := last;
    } else {
      d := TileDecorationsSource(c, init, left, top, bg, p);
      assert d in ds by {
        var i :| 0 <= i < |init| && init[i] == d;
        assert ds[i] == d;
      }
    }
  }

  /** Every decoration of the layer's kind in a visited tile has an entry at its position. */
  lemma {:induction false} DecorationLayerCovers(v: View, order: seq<Cell>, left: int, top: int, bg: bool, k: int, d: Decoration)
    requires forall i | 0 <= i < |order| :: order[i] in v
    requires 0 <= k < |order| && d in v[order[k]].objects && IsBackgroundPalm(d.id) == bg
    ensures DecorationPos(order[k], d, left, top) in DecorationLayer(v, order, left, top, bg)
  {
    var init := order[..|order| - 1];
    if k == |order| - 1 {
      TileDecorationsCover(order[k], v[order[k]].objects, left, top, bg, d);
    } else {
      assert init[k] == order[k];
      DecorationLayerCovers(v, init, left, top, bg, k, d);
    }
  }

  /** Every entry of a decoration layer comes from a decoration of its kind in a visited tile. */
  lemma {:induction false} DecorationLayerSource(v: View, order: seq<Cell>, left: int, top: int, bg: bool, p: Point)
    returns (k: int, d: Decoration)
    requires forall i | 0 <= i < |order| :: order[i] in v
    requires p in DecorationLayer(v, order, left, top, bg)
    ensures 0 <= k < |order| && d in v[order[k]].objects && IsBackgroundPalm(d.id) == bg
    ensures DecorationPos(order[k], d, left, top) == p && d.id == DecorationLayer(v, order, left, top, bg)[p]
  {
    var init := order[..|order| - 1];
    var c := order[|order| - 1];
    if p in TileDecorations(c, v[c].objects, left, top, bg) {
      k := |order| - 1;
      d := TileDecorationsSource(c, v[c].objects, left, top, bg, p);
    } else {
      k, d := DecorationLayerSource(v, init, left, top, bg, p);
      assert order[k] == init[k];
    }
  }

  /** The layers once the tiles of `done` have been visited, in the order `order`. */
  function PartialExport(v: View, done: set<Cell>, order: seq<Cell>, left: int, top: int, landTiles: set<string>): Grid
    requires forall i | 0 <= i < |order| :: order[i] in v
  {
    Grid(
      CellLayer(v, done, left, top, Zero, WaterPayload),
      DecorationLayer(v, order, left, top, true),
      CellLayer(v, done, left, top, Zero, t => TerrainPayload(t, landTiles)),
      CellLayer(v, done, left, top, Zero, EnemyPayload),
      CellLayer(v, done, left, top, COIN_SHIFT, CoinPayload),
      DecorationLayer(v, order, left, top, false))
  }

  /** The six layers `createGrid` returns for a store `v` whose tiles were visited in `order`. */
  function ExportOf(v: View, order: seq<Cell>, landTiles: set<string>): Grid
    requires v.Keys != {}
    requires forall i | 0 <= i < |order| :: order[i] in v
  {
    PartialExport(v, v.Keys, order, MinCol(v), MinRow(v), landTiles)
  }

  /**
   * Visiting one more tile `c` sets its water tag, its terrain variant,
   * its enemy and its coin (half a tile further in) at its exported
   * position when it has them; nothing else in those layers changes.
   */
  lemma VisitTileCells(v: View, done: set<Cell>, order: seq<Cell>, c: Cell, left: int, top: int, landTiles: set<string>)
    requires forall i | 0 <= i < |order| :: order[i] in v
    requires c in v && c !in done
    ensures forall i | 0 <= i < |order + [c]| :: (order + [c])[i] in v
    ensures var g0, g1, t, pos := PartialExport(v, done, order, left, top, landTiles),
                                 PartialExport(v, done + {c}, order + [c], left, top, landTiles),
                                 v[c], ExportPos(c, left, top);
      && g1.water == (if t.hasWater then g0.water[pos := t.GetWater()] else g0.water)
      && g1.terrain == (if t.hasTerrain then g0.terrain[pos := if t.GetTerrain() in landTiles then t.GetTerrain() else "X"] else g0.terrain)
      && g1.coins == (if t.coin.Some? then g0.coins[pos.Plus(COIN_SHIFT) := t.coin.value] else g0.coins)
      && g1.enemies == (if t.enemy.Some? then g0.enemies[pos := t.enemy.value] else g0.enemies)
  {
    var pos := ExportPos(c, left, top);
    assert pos.Plus(Zero) == pos;
    CellLayerStep(v, done, c, left, top, Zero, WaterPayload);
    CellLayerStep(v, done, c, left, top, Zero, t => TerrainPayload(t, landTiles));
    CellLayerStep(v, done, c, left, top, COIN_SHIFT, CoinPayload);
    CellLayerStep(v, done, c, left, top, Zero, EnemyPayload);
  }

  /** Visiting one more tile `c` adds its decorations to the two decoration layers, later ones winning. */
  lemma VisitTileDecorations(v: View, done: set<Cell>, order: seq<Cell>, c: Cell, left: int, top: int, landTiles: set<string>)
    requires forall i | 0 <= i < |order| :: order[i] in v
    requires c in v
    ensures forall i | 0 <= i < |order + [c]| :: (order + [c])[i] in v
    ensures var g0, g1 := PartialExport(v, done, order, left, top, landTiles),
                          PartialExport(v, done + {c}, order + [c], left, top, landTiles);
      && g1.bgPalms == g0.bgPalms + TileDecorations(c, v[c].objects, left, top, true)
      && g1.fgObjects == g0.fgObjects + TileDecorations(c, v[c].objects, left, top, false)
  {
    assert (order + [c])[..|order|] == order;
  }

  /**
   * Normalisation: every exported cell position is non-negative on both
   * axes, and the least column and the least row are exported at 0.
   */
  lemma ExportIsNormalised(v: View)
    requires v.Keys != {}
    ensures forall c | c in v :: ExportPos(c, MinCol(v), MinRow(v)).x >= 0 && ExportPos(c, MinCol(v), MinRow(v)).y >= 0
    ensures exists c :: c in v && ExportPos(c, MinCol(v), MinRow(v)).x == 0
    ensures exists c :: c in v && ExportPos(c, MinCol(v), MinRow(v)).y == 0
  {
    var left, top := MinCol(v), MinRow(v);
    forall c | c in v
      ensures ExportPos(c, left, top).x >= 0 && ExportPos(c, left, top).y >= 0
    {
      assert c.col in Cols(v) && c.row in Rows(v);
    }
    var a :| a in v && a.col == left;
    assert ExportPos(a, left, top).x == 0;
    var b :| b in v && b.row == top;
    assert ExportPos(b, left, top).y == 0;
  }

  /** A tile of `cells` has an entry in a grid-snapped layer exactly when its payload is present, and the entry is that payload. */
  lemma CellLayerAt<T>(v: View, cells: set<Cell>, left: int, top: int, shift: Point, payload: TileState -> Option<T>, c: Cell)
    requires c in cells && c in v
    ensures var p := ExportPos(c, left, top).Plus(shift);
      && (p in CellLayer(v, cells, left, top, shift, payload) <==> payload(v[c]).Some?)
      && (payload(v[c]).Some? ==> CellLayer(v, cells, left, top, shift, payload)[p] == payload(v[c]).value)
  {
    var p := ExportPos(c, left, top).Plus(shift);
    if p in CellLayer(v, cells, left, top, shift, payload) {
      var e :| e in cells && e in v && payload(v[e]).Some? && ExportPos(e, left, top).Plus(shift) == p;
      assert e == c;
    }
  }

  /** With the least column and row as the offset, every entry of a grid-snapped layer lies at or beyond its shift. */
  lemma CellLayerNonNegative<T>(v: View, shift: Point, payload: TileState -> Option<T>)
    requires v.Keys != {}
    ensures forall p | p in CellLayer(v, v.Keys, MinCol(v), MinRow(v), shift, payload) :: p.x >= shift.x && p.y >= shift.y
  {
    ExportIsNormalised(v);
  }

  /**
   * The grid-snapped layers of an export hold exactly the tiles with that
   * content, water is tagged by `getWater`, and terrain variants are land
   * tile names or "X".
   */
  lemma ExportCellLayers(v: View, order: seq<Cell>, landTiles: set<string>, c: Cell)
    requires v.Keys != {}
    requires forall i | 0 <= i < |order| :: order[i] in v
    requires c in v
    ensures var g, left, top := ExportOf(v, order, landTiles), MinCol(v), MinRow(v);
      && (ExportPos(c, left, top) in g.water <==> v[c].hasWater)
      && (ExportPos(c, left, top) in g.terrain <==> v[c].hasTerrain)
      && (ExportPos(c, left, top) in g.enemies <==> v[c].enemy.Some?)
      && (ExportPos(c, left, top).Plus(COIN_SHIFT) in g.coins <==> v[c].coin.Some?)
      && (v[c].hasWater ==> g.water[ExportPos(c, left, top)] == v[c].GetWater())
      && (v[c].hasTerrain ==> g.terrain[ExportPos(c, left, top)] in landTiles + {"X"})
  {
    var left, top := MinCol(v), MinRow(v);
    assert ExportPos(c, left, top).Plus(Zero) == ExportPos(c, left, top);
    CellLayerAt(v, v.Keys, left, top, Zero, WaterPayload, c);
    CellLayerAt(v, v.Keys, left, top, Zero, t => TerrainPayload(t, landTiles), c);
    CellLayerAt(v, v.Keys, left, top, Zero, EnemyPayload, c);
    CellLayerAt(v, v.Keys, left, top, COIN_SHIFT, CoinPayload, c);
  }

  /** Every position in the grid-snapped layers of an export is non-negative; coins are half a tile further in. */
  lemma ExportCellLayersNonNegative(v: View, order: seq<Cell>, landTiles: set<string>)
    requires v.Keys != {}
    requires forall i | 0 <= i < |order| :: order[i] in v
    ensures var g := ExportOf(v, order, landTiles);
      && (forall p | p in g.water :: p.x >= 0 && p.y >= 0)
      && (forall p | p in g.terrain :: p.x >= 0 && p.y >= 0)
      && (forall p | p in g.enemies :: p.x >= 0 && p.y >= 0)
      && (forall p | p in g.coins :: p.x >= TILE_SIZE / 2 && p.y >= TILE_SIZE / 2)
  {
    CellLayerNonNegative(v, Zero, WaterPayload);
    CellLayerNonNegative(v, Zero, t => TerrainPayload(t, landTiles));
    CellLayerNonNegative(v, Zero, EnemyPayload);
    CellLayerNonNegative(v, COIN_SHIFT, CoinPayload);
  }

  /**
   * The export of a filed store holds every object: in the palm-background
   * layer or the foreground layer, by its type, at its distance from the
   * origin less the grid offset.  Where an object lands does not depend on
   * the pan at the time of the export.
   */
  lemma ExportHoldsObjects(v: View, objs: seq<Anchor>, origin: Point, order: seq<Cell>, landTiles: set<string>, k: int)
    requires forall i | 0 <= i < |objs| :: IsId(objs[i].id) && IsObjectStyle(StyleOf(objs[i].id))
    requires 0 <= k < |objs|
    requires forall c :: c in order <==> c in AttachAll(v, objs, origin)
    ensures var w := AttachAll(v, objs, origin);
      && w.Keys != {}
      && (forall i | 0 <= i < |order| :: order[i] in w)
      && var g, offset := ExportOf(w, order, landTiles), Point(MinCol(w) * TILE_SIZE, MinRow(w) * TILE_SIZE);
         objs[k].distance.Minus(offset) in (if IsBackgroundPalm(objs[k].id) then g.bgPalms else g.fgObjects)
  {
    var w := AttachAll(v, objs, origin);
    var a := objs[k];
    var cell, d := AnchorCell(a, origin), AnchorDecoration(a, origin);
    AttachAllHoldsDecorations(v, objs, origin, k);
    assert cell in order;
    var i :| 0 <= i < |order| && order[i] == cell;
    DecorationLayerCovers(w, order, MinCol(w), MinRow(w), IsBackgroundPalm(a.id), i, d);
    DecorationLandsAtDistance(a, origin, MinCol(w), MinRow(w));
  }
}

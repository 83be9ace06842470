/**
 * editor.py, the `Editor`: the sparse store of grid cells (`canvasData`),
 * the free objects (`canvasGroup`), the pan origin, the selected type, and
 * the input handlers that change them.  Mouse and keyboard state, which
 * the source reads from pygame, is passed in: the event, the buttons held,
 * the mouse position and the current tick.
 */
module Editing {
  import opened Wrappers
  import opened Geometry
  import opened Registry
  import opened Timers
  import opened Canvas
  import opened CanvasGrid
  import opened Menus

  datatype Key = RightKey | LeftKey | ReturnKey | OtherKey

  /** The pygame events the handlers look at. */
  datatype Event = KeyDown(key: Key) | MouseButtonDown | MouseButtonUp | MouseWheel(y: int) | OtherEvent

  /** `pygame.mouse.get_pressed()`. */
  datatype MouseButtons = MouseButtons(left: bool, middle: bool, right: bool)

  /** Pixels the origin moves per wheel notch. */
  const WHEEL_STEP := 20
  /** Milliseconds between two object placements while the button is held. */
  const PLACE_COOLDOWN := 400
  const FIRST_SELECTABLE := 2

  /** `selectionHotKeys` for one key press: step right or left, then clamp to the selectable ids. */
  function NextSelection(index: int, key: Key): (r: int)
    ensures FIRST_SELECTABLE <= r <= LAST_ID
    ensures FIRST_SELECTABLE <= index <= LAST_ID ==>
      r == (if key == RightKey && index < LAST_ID then index + 1
            else if key == LeftKey && index > FIRST_SELECTABLE then index - 1
            else index)
  {
    var stepped := if key == RightKey then index + 1 else if key == LeftKey then index - 1 else index;
    Max(FIRST_SELECTABLE, Min(stepped, LAST_ID))
  }

  /** The selectable ids are exactly the registry entries that are neither the player nor the sky. */
  lemma SelectableIds(id: int)
    ensures FIRST_SELECTABLE <= id <= LAST_ID <==> IsId(id) && StyleOf(id) != PlayerStyle && StyleOf(id) != SkyStyle
  {
  }

  /** The place of the first object in `objs` whose rectangle holds `p`, or `|objs|` when there is none. */
  function FirstUnder(objs: seq<CanvasObject>, p: Point): (k: int)
    reads objs
    ensures 0 <= k <= |objs|
    ensures forall j | 0 <= j < k :: !objs[j].rect.ContainsPoint(p)
    ensures k < |objs| ==> objs[k].rect.ContainsPoint(p)
  {
    if objs == [] then 0
    else if objs[0].rect.ContainsPoint(p) then 0
    else 1 + FirstUnder(objs[1..], p)
  }

  /** The place of the first selected object in `objs`, or `|objs|` when none is selected. */
  function FirstSelected(objs: seq<CanvasObject>): (k: int)
    reads objs
    ensures 0 <= k <= |objs|
    ensures forall j | 0 <= j < k :: !objs[j].selected
    ensures k < |objs| ==> objs[k].selected
  {
    if objs == [] then 0
    else if objs[0].selected then 0
    else 1 + FirstSelected(objs[1..])
  }

  /** A sequence with its element at `k` removed (`kill` of the object at that place). */
  function RemoveAt<T>(s: seq<T>, k: int): (r: seq<T>)
    requires 0 <= k < |s|
    ensures |r| == |s| - 1
    ensures forall j | 0 <= j < |r| :: r[j] == if j < k then s[j] else s[j + 1]
  {
    s[..k] + s[k + 1..]
  }

  /** `FirstUnder` is the only place that is under `p` with nothing under `p` before it. */
  lemma {:induction false} FirstUnderIsFirst(objs: seq<CanvasObject>, p: Point, k: int)
    requires 0 <= k <= |objs|
    requires forall j | 0 <= j < k :: !objs[j].rect.ContainsPoint(p)
    requires k < |objs| ==> objs[k].rect.ContainsPoint(p)
    ensures k == FirstUnder(objs, p)
    decreases |objs|
  {
    if objs != [] && !objs[0].rect.ContainsPoint(p) {
      assert 0 < k;
      forall j | 0 <= j < k - 1
        ensures !objs[1..][j].rect.ContainsPoint(p)
      {
        assert objs[1..][j] == objs[j + 1];
      }
      FirstUnderIsFirst(objs[1..], p, k - 1);
    }
  }

  /** `canvaseRemove` acts: the right button is held outside the menu. */
  predicate RemoveActive(buttons: MouseButtons, mouse: Point)
  {
    buttons.right && !MENU_RECT.ContainsPoint(mouse)
  }

  /** The origin after a wheel event: the wheel moves it by 20 pixels a notch, vertically while Ctrl is held. */
  function WheelShifted(origin: Point, ev: Event, ctrl: bool): (r: Point)
    ensures !ev.MouseWheel? ==> r == origin
    ensures ev.MouseWheel? && ctrl ==> r.x == origin.x && origin.y - r.y == ev.y * WHEEL_STEP
    ensures ev.MouseWheel? && !ctrl ==> r.y == origin.y && origin.x - r.x == ev.y * WHEEL_STEP
  {
    match ev
    case MouseWheel(y) =>
      if ctrl then Point(origin.x, origin.y - y * WHEEL_STEP) else Point(origin.x - y * WHEEL_STEP, origin.y)
    case _ => origin
  }

  /** No element occurs twice. */
  predicate Distinct<T(==)>(s: seq<T>)
  {
    forall i, j | 0 <= i < j < |s| :: s[i] != s[j]
  }

  /** Removing the element at `k` keeps every other element, adds none and keeps them distinct. */
  lemma RemoveAtKeepsOthers<T>(s: seq<T>, k: int)
    requires 0 <= k < |s|
    ensures forall x | x in RemoveAt(s, k) :: x in s
    ensures forall x | x in s && x != s[k] :: x in RemoveAt(s, k)
    ensures Distinct(s) ==> Distinct(RemoveAt(s, k))
  {
    var r := RemoveAt(s, k);
    forall x | x in s && x != s[k]
      ensures x in r
    {
      var i :| 0 <= i < |s| && s[i] == x;
      if i < k {
        assert r[i] == x;
      } else {
        assert r[i - 1] == x;
      }
    }
    forall x | x in r
      ensures x in s
    {
      var i :| 0 <= i < |r| && r[i] == x;
      assert x == if i < k then s[i] else s[i + 1];
    }
  }

  /**
   * The inner loop of `checkNeighbors` for one cell of `v`: the names of
   * the directions that lead to terrain, in table order, and whether the
   * cell above holds water.  `checkNeighbors` never changes a flag, so
   * scanning the store as it was at the start reads what the loop reads.
   */
  method ScanNeighbors(v: View, cell: Cell) returns (names: seq<char>, waterAbove: bool)
    ensures names == NeighborCode(v, cell, NEIGHBOR_DIRECTIONS)
    ensures waterAbove == WaterOnTop(v, cell, NEIGHBOR_DIRECTIONS)
  {
    names, waterAbove := [], false;
    var j := 0;
    while j < |NEIGHBOR_DIRECTIONS|
      invariant 0 <= j <= |NEIGHBOR_DIRECTIONS|
      invariant names == NeighborCode(v, cell, NEIGHBOR_DIRECTIONS[..j])
      invariant waterAbove == WaterOnTop(v, cell, NEIGHBOR_DIRECTIONS[..j])
    {
      var d := NEIGHBOR_DIRECTIONS[j];
      var next := Cell(cell.col + d.dx, cell.row + d.dy);
      assert NEIGHBOR_DIRECTIONS[..j + 1][..j] == NEIGHBOR_DIRECTIONS[..j];
      if next in v {
        if v[next].hasTerrain {
          names := names + [d.name];
        }
        if v[next].hasWater && d.name == 'A' {
          waterAbove := true;
        }
      }
      j := j + 1;
    }
    assert NEIGHBOR_DIRECTIONS[..j] == NEIGHBOR_DIRECTIONS;
  }

  /** What `createGrid` reads of some free objects. */
  function AnchorsOf(objs: seq<CanvasObject>): (r: seq<Anchor>)
    reads objs
    ensures |r| == |objs|
    ensures forall i | 0 <= i < |objs| :: r[i] == Anchor(objs[i].tileId, objs[i].distanceToOrigin)
  {
    if objs == [] then [] else AnchorsOf(objs[..|objs| - 1]) + [Anchor(objs[|objs| - 1].tileId, objs[|objs| - 1].distanceToOrigin)]
  }

  /** The anchors of objects whose ids are object styles carry those ids. */
  lemma AnchorsAreObjects(objs: seq<CanvasObject>)
    requires forall o | o in objs :: IsId(o.tileId) && IsObjectStyle(StyleOf(o.tileId))
    ensures forall j | 0 <= j < |AnchorsOf(objs)| :: IsId(AnchorsOf(objs)[j].id) && IsObjectStyle(StyleOf(AnchorsOf(objs)[j].id))
  {
    forall j | 0 <= j < |objs|
      ensures IsId(AnchorsOf(objs)[j].id) && IsObjectStyle(StyleOf(AnchorsOf(objs)[j].id))
    {
      assert objs[j] in objs;
    }
  }

  /**
   * The inner loop of the third loop of `createGrid`: a tile's decorations
   * go, in order, into the palm-background layer or the foreground layer,
   * a later one at the same position replacing an earlier one.
   */
  method AddDecorations(c: Cell, ds: seq<Decoration>, left: int, top: int, bg0: map<Point, int>, fg0: map<Point, int>)
    returns (bg: map<Point, int>, fg: map<Point, int>)
    ensures bg == bg0 + TileDecorations(c, ds, left, top, true)
    ensures fg == fg0 + TileDecorations(c, ds, left, top, false)
  {
    bg, fg := bg0, fg0;
    var k := 0;
    while k < |ds|
      invariant 0 <= k <= |ds|
      invariant bg == bg0 + TileDecorations(c, ds[..k], left, top, true)
      invariant fg == fg0 + TileDecorations(c, ds[..k], left, top, false)
    {
      var d := ds[k];
      var p := DecorationPos(c, d, left, top);
      assert ds[..k + 1][..k] == ds[..k];
      if IsBackgroundPalm(d.id) {
        assert bg[p := d.id] == bg0 + TileDecorations(c, ds[..k], left, top, true)[p := d.id];
        bg := bg[p := d.id];
      } else {
        assert fg[p := d.id] == fg0 + TileDecorations(c, ds[..k], left, top, false)[p := d.id];
        fg := fg[p := d.id];
      }
      k := k + 1;
    }
    assert ds[..k] == ds;
  }

  /**
   * The third loop of `createGrid`: the tiles of the store `v` are
   * visited once each, in some order (`order`, the dictionary's order,
   * which the model does not fix), and each adds its water, terrain,
   * coin and enemy entries and its decorations to the layers, with the
   * least column and row moved to 0.
   */
  method FillLayers(v: View, landTiles: set<string>) returns (grid: Grid, ghost order: seq<Cell>)
    requires v.Keys != {}
    ensures Distinct(order) && forall c :: c in order <==> c in v
    ensures grid == ExportOf(v, order, landTiles)
  {
    var left, top := MinCol(v), MinRow(v);
    var water: map<Point, string>, bgPalms: map<Point, int>, terrain: map<Point, string> := map[], map[], map[];
    var enemies: map<Point, int>, coins: map<Point, int>, fgObjects: map<Point, int> := map[], map[], map[];
    var todo := v.Keys;
    ghost var done: set<Cell> := {};
    order := [];
    while todo != {}
      invariant todo <= v.Keys && done == v.Keys - todo
      invariant Distinct(order) && forall c :: c in order <==> c in done
      invariant forall i | 0 <= i < |order| :: order[i] in v
      invariant Grid(water, bgPalms, terrain, enemies, coins, fgObjects) == PartialExport(v, done, order, left, top, landTiles)
      decreases todo
    {
      CellsInhabited(todo);
      var c :| c in todo;
      VisitTileCells(v, done, order, c, left, top, landTiles);
      VisitTileDecorations(v, done, order, c, left, top, landTiles);
      var tile := v[c];
      var pos := ExportPos(c, left, top);
      if tile.hasWater {
        water := water[pos := tile.GetWater()];
      }
      if tile.hasTerrain {
        terrain := terrain[pos := if tile.GetTerrain() in landTiles then tile.GetTerrain() else "X"];
      }
      if tile.coin.Some? {
        coins := coins[pos.Plus(COIN_SHIFT) := tile.coin.value];
      }
      if tile.enemy.Some? {
        enemies := enemies[pos := tile.enemy.value];
      }
      bgPalms, fgObjects := AddDecorations(c, tile.objects, left, top, bgPalms, fgObjects);
      order := order + [c];
      done := done + {c};
      todo := todo - {c};
    }
    assert done == v.Keys;
    grid := Grid(water, bgPalms, terrain, enemies, coins, fgObjects);
    assert grid == PartialExport(v, v.Keys, order, left, top, landTiles);
  }

  class Editor {
    var canvasData: map<Cell, CanvasTile>
    var origin: Point
    var panOffset: Point
    var panActive: bool
    var selectionIndex: int
    var lastSelectedCell: Option<Cell>
    /** The free objects, in the order they were added. */
    var canvasGroup: seq<CanvasObject>
    var activeDragObject: bool
    const timerObject: Timer
    const menu: Menu
    /** The names of the land tile graphics. */
    const landTiles: set<string>
    const skyHandle: CanvasObject
    /** The player's start marker; the source keeps it only in the groups. */
    ghost const player: CanvasObject

    /** The store as values. */
    function View(): View
      reads this`canvasData, canvasData.Values
    {
      map c | c in canvasData :: canvasData[c].State()
    }

    /** No tile object is filed under two cells. */
    ghost predicate TilesDistinct()
      reads this`canvasData
    {
      forall a, b | a in canvasData && b in canvasData && a != b :: canvasData[a] != canvasData[b]
    }


    /** Every filed tile is its own object and none reports empty (empty tiles are evicted at once). */
    ghost predicate TilesValid()
      reads this`canvasData, canvasData.Values
    {
      TilesDistinct() && NoEmptyTile(View())
    }

    /** The player's start and the sky handle are always present; every object has a decoration type and is present once. */
    ghost predicate ObjectsValid()
      reads this`canvasGroup
    {
      && player in canvasGroup && player.tileId == 0
      && skyHandle in canvasGroup && skyHandle.tileId == 1
      && (forall o | o in canvasGroup :: IsId(o.tileId) && IsObjectStyle(StyleOf(o.tileId)))
      && Distinct(canvasGroup)
    }

    /** Everything but the tile store: the objects, the selection, the cooldown timer and the menu. */
    ghost predicate PartsValid()
      reads this`canvasGroup, this`selectionIndex, timerObject, menu, menu.buttons
    {
      && ObjectsValid()
      && FIRST_SELECTABLE <= selectionIndex <= LAST_ID
      && timerObject.Valid() && timerObject.duration == PLACE_COOLDOWN
      && menu.Valid()
    }

    ghost predicate Valid()
      reads this, canvasData.Values, timerObject, menu, menu.buttons
    {
      TilesValid() && PartsValid()
    }

    /** A fresh editor: an empty store, the player's start and the sky handle as its only objects. */
    constructor (landTiles: set<string>, playerSize: Size, skyHandleSize: Size)
      ensures Valid()
      ensures View() == map[] && origin == Zero && selectionIndex == FIRST_SELECTABLE
      ensures lastSelectedCell.None? && !panActive && !activeDragObject && !timerObject.active
      ensures canvasGroup == [player, skyHandle] && this.landTiles == landTiles
      ensures player.rect == RectCenteredAt(Point(200, WINDOW_HEIGHT / 2), playerSize)
      ensures skyHandle.rect == RectCenteredAt(Point(WINDOW_WIDTH / 2, WINDOW_HEIGHT / 2), skyHandleSize)
    {
      canvasData := map[];
      origin := Zero;
      panOffset := Zero;
      panActive := false;
      selectionIndex := FIRST_SELECTABLE;
      lastSelectedCell := None;
      activeDragObject := false;
      timerObject := new Timer(PLACE_COOLDOWN);
      menu := new Menu();
      this.landTiles := landTiles;
      var p := new CanvasObject(Point(200, WINDOW_HEIGHT / 2), playerSize, 0, Zero);
      var s := new CanvasObject(Point(WINDOW_WIDTH / 2, WINDOW_HEIGHT / 2), skyHandleSize, 1, Zero);
      player := p;
      skyHandle := s;
      canvasGroup := [p, s];
    }

    /** `getCurrentPos()`: the cell under the mouse. */
    function CellAt(mouse: Point): Cell
      reads this`origin
    {
      CellOf(mouse.Minus(origin))
    }

    /**
     * One existing cell of `checkNeighbors`: its neighbour fields are
     * rebuilt from the flags of `V0`, the store as `checkNeighbors` found
     * it; no other tile changes.
     */
    method RefreshTile(cell: Cell, V0: View)
      requires cell in canvasData && TilesDistinct()
      modifies canvasData[cell]
      ensures View() == old(View())[cell := old(View())[cell].(
        terrainNeighbors := NeighborCode(V0, cell, NEIGHBOR_DIRECTIONS),
        waterOnTop := WaterOnTop(V0, cell, NEIGHBOR_DIRECTIONS))]
    {
      var names, waterAbove := ScanNeighbors(V0, cell);
      ghost var v := View();
      var tile := canvasData[cell];
      tile.terrainNeighbors := names;
      tile.waterOnTop := waterAbove;
      forall c | c in canvasData && c != cell
        ensures canvasData[c].State() == v[c]
      {
        assert canvasData[c] != tile;
      }
      ViewIs(v[cell := v[cell].(terrainNeighbors := names, waterOnTop := waterAbove)]);
    }

    /** The loop of `checkNeighbors`: refresh, in order, each listed cell present in the store, reading neighbours from `V0`. */
    method RefreshCells(cells: seq<Cell>, V0: View)
      requires TilesDistinct() && View() == V0
      modifies canvasData.Values
      ensures View() == PartlyChecked(V0, cells)
    {
      var k := 0;
      assert cells[..0] == [];
      while k < |cells|
        invariant 0 <= k <= |cells|
        invariant TilesDistinct()
        invariant View() == PartlyChecked(V0, cells[..k])
      {
        RefreshStep(cells, k, V0);
        k := k + 1;
      }
      assert cells[..k] == cells;
    }

    /** One pass of that loop: the `k`-th listed cell is refreshed when it is in the store. */
    method RefreshStep(cells: seq<Cell>, k: int, V0: View)
      requires 0 <= k < |cells|
      requires TilesDistinct() && View() == PartlyChecked(V0, cells[..k])
      modifies canvasData.Values
      ensures TilesDistinct() && View() == PartlyChecked(V0, cells[..k + 1])
    {
      PartlyCheckedStep(V0, cells, k);
      if cells[k] in canvasData {
        RefreshTile(cells[k], V0);
      }
    }

    /** `checkNeighbors`: recompute the neighbour fields of the existing cells of the 3x3 block around `center`. */
    method CheckNeighbors(center: Cell)
      requires TilesDistinct()
      modifies canvasData.Values
      ensures View() == NeighborsChecked(old(View()), center)
    {
      var V0 := View();
      RefreshCells(LocalCluster(center), V0);
      ClusterChecksBlock(V0, center);
    }

    /**
     * The step `canvasAdd` and `createGrid` share: `addId` on the tile of
     * `cell`, or a new tile filed under `cell` when there is none.
     */
    method StoreId(cell: Cell, tileId: int, offset: Point)
      requires TilesDistinct() && IsId(tileId)
      modifies this`canvasData, canvasData.Values
      ensures TilesDistinct()
      ensures View() == old(View())[cell := AddIdTo(if cell in old(View()) then old(View())[cell] else BLANK, tileId, offset)]
      ensures canvasData.Keys == old(canvasData.Keys) + {cell}
      ensures forall c | c in old(canvasData) :: canvasData[c] == old(canvasData[c])
      ensures cell !in old(canvasData) ==> fresh(canvasData[cell])
      ensures forall t | t in canvasData.Values :: t in old(canvasData.Values) || fresh(t)
    {
      if cell in canvasData {
        AddIdHere(cell, tileId, offset);
      } else {
        NewTileAt(cell, tileId, offset);
      }
    }

    /** `addId` on the tile already filed under `cell`; no other tile changes. */
    method AddIdHere(cell: Cell, tileId: int, offset: Point)
      requires TilesDistinct() && cell in canvasData && IsId(tileId)
      modifies canvasData[cell]
      ensures View() == old(View())[cell := AddIdTo(old(View())[cell], tileId, offset)]
    {
      var t := canvasData[cell];
      ghost var v0 := View();
      t.AddId(tileId, offset);
      forall c | c in canvasData && c != cell
        ensures canvasData[c].State() == v0[c]
      {
        assert canvasData[c] != t;
      }
      ViewIs(v0[cell := AddIdTo(v0[cell], tileId, offset)]);
    }

    /** A new tile for `tileId` is filed under the free cell `cell`. */
    method NewTileAt(cell: Cell, tileId: int, offset: Point)
      requires TilesDistinct() && cell !in canvasData && IsId(tileId)
      modifies this`canvasData
      ensures TilesDistinct()
      ensures View() == old(View())[cell := AddIdTo(BLANK, tileId, offset)]
      ensures cell in canvasData && canvasData == old(canvasData)[cell := canvasData[cell]] && fresh(canvasData[cell])
    {
      ghost var v0 := View();
      var t := new CanvasTile(tileId, offset);
      canvasData := canvasData[cell := t];
      ViewIs(v0[cell := AddIdTo(BLANK, tileId, offset)]);
    }

    /** `canvasAdd` acts: the left button is held outside the menu and no object is being dragged. */
    predicate AddActive(buttons: MouseButtons, mouse: Point)
      reads this`activeDragObject
    {
      buttons.left && !MENU_RECT.ContainsPoint(mouse) && !activeDragObject
    }

    /** `canvasAdd` places a tile: a tile type is selected and the cell under the mouse is not the last one placed into. */
    predicate PlacesTile(buttons: MouseButtons, mouse: Point)
      reads this`activeDragObject, this`selectionIndex, this`lastSelectedCell, this`origin
    {
      AddActive(buttons, mouse) && IsId(selectionIndex) && PlacementOf(selectionIndex) == TileType && lastSelectedCell != Some(CellAt(mouse))
    }

    /** `canvasAdd` places an object: an object type is selected and the placement cooldown is not running. */
    predicate PlacesObject(buttons: MouseButtons, mouse: Point)
      reads this`activeDragObject, this`selectionIndex, timerObject
    {
      AddActive(buttons, mouse) && IsId(selectionIndex) && PlacementOf(selectionIndex) == ObjectType && !timerObject.active
    }

    /**
     * `canvasAdd`.  A tile type is placed in the cell under the mouse and
     * the block around it is re-checked; an object type adds a new object
     * centred on the mouse and starts the placement cooldown.
     */
    method CanvasAdd(buttons: MouseButtons, mouse: Point, now: int, frameSize: Size)
      requires Valid()
      modifies this`canvasData, this`lastSelectedCell, this`canvasGroup, canvasData.Values, timerObject
      ensures Valid()
      ensures old(PlacesTile(buttons, mouse)) ==>
        View() == NeighborsChecked(Placed(old(View()), CellAt(mouse), selectionIndex), CellAt(mouse)) &&
        lastSelectedCell == Some(CellAt(mouse))
      ensures !old(PlacesTile(buttons, mouse)) ==> View() == old(View()) && lastSelectedCell == old(lastSelectedCell)
      ensures old(PlacesObject(buttons, mouse)) ==>
        && |canvasGroup| == |old(canvasGroup)| + 1 && canvasGroup[..|old(canvasGroup)|] == old(canvasGroup)
        && fresh(canvasGroup[|old(canvasGroup)|])
        && canvasGroup[|old(canvasGroup)|].tileId == selectionIndex
        && canvasGroup[|old(canvasGroup)|].rect == RectCenteredAt(mouse, frameSize)
        && canvasGroup[|old(canvasGroup)|].distanceToOrigin == RectCenteredAt(mouse, frameSize).TopLeft().Minus(origin)
        && timerObject.active && timerObject.startTime == now
      ensures !old(PlacesObject(buttons, mouse)) ==>
        canvasGroup == old(canvasGroup) && timerObject.active == old(timerObject.active) &&
        timerObject.startTime == old(timerObject.startTime)
    {
      if buttons.left && !MENU_RECT.ContainsPoint(mouse) && !activeDragObject {
        var cell := CellAt(mouse);
        if PlacementOf(selectionIndex) == TileType {
          if lastSelectedCell != Some(cell) {
            AddTileAt(cell);
          }
        } else {
          if !timerObject.active {
            AddObjectAt(mouse, now, frameSize);
          }
        }
      }
    }

    /** A tile of type `tileId` is placed at `cell` and the block around it is re-checked. */
    method PlaceTileAt(cell: Cell, tileId: int)
      requires TilesValid() && IsId(tileId) && PlacementOf(tileId) == TileType
      modifies this`canvasData, canvasData.Values
      ensures TilesValid()
      ensures View() == NeighborsChecked(Placed(old(View()), cell, tileId), cell)
    {
      ghost var v0 := View();
      StoreId(cell, tileId, Zero);
      PlacedIsPresent(v0, cell, tileId);
      ghost var v1 := View();
      CheckNeighbors(cell);
      NeighborsCheckedKeepsTiles(v1, center := cell);
    }

    /** The tile branch of `canvasAdd`: the selected type is placed at `cell`, which becomes the last cell placed into. */
    method AddTileAt(cell: Cell)
      requires Valid() && PlacementOf(selectionIndex) == TileType
      modifies this`canvasData, this`lastSelectedCell, canvasData.Values
      ensures Valid()
      ensures View() == NeighborsChecked(Placed(old(View()), cell, selectionIndex), cell)
      ensures lastSelectedCell == Some(cell)
    {
      // Placing does not read `lastSelectedCell`, so it is recorded first.
      ghost var v0 := View();
      lastSelectedCell := Some(cell);
      assert View() == v0;
      PlaceTileAt(cell, selectionIndex);
    }

    /** A new object of the selected type is centred on the mouse and the placement cooldown starts. */
    method AddObjectAt(mouse: Point, now: int, frameSize: Size)
      requires Valid() && PlacementOf(selectionIndex) == ObjectType
      modifies this`canvasGroup, timerObject
      ensures Valid() && View() == old(View())
      ensures |canvasGroup| == |old(canvasGroup)| + 1 && canvasGroup[..|old(canvasGroup)|] == old(canvasGroup)
      ensures fresh(canvasGroup[|old(canvasGroup)|])
      ensures canvasGroup[|old(canvasGroup)|].tileId == selectionIndex
      ensures canvasGroup[|old(canvasGroup)|].rect == RectCenteredAt(mouse, frameSize)
      ensures canvasGroup[|old(canvasGroup)|].distanceToOrigin == RectCenteredAt(mouse, frameSize).TopLeft().Minus(origin)
      ensures timerObject.active && timerObject.startTime == now
    {
      PushObject(mouse, frameSize);
      StartCooldown(now);
    }

    /** A new object of the selected type, centred on the mouse, joins the end of the group. */
    method PushObject(mouse: Point, frameSize: Size)
      requires Valid() && PlacementOf(selectionIndex) == ObjectType
      modifies this`canvasGroup
      ensures Valid() && View() == old(View())
      ensures |canvasGroup| == |old(canvasGroup)| + 1 && canvasGroup[..|old(canvasGroup)|] == old(canvasGroup)
      ensures fresh(canvasGroup[|old(canvasGroup)|])
      ensures canvasGroup[|old(canvasGroup)|].tileId == selectionIndex
      ensures canvasGroup[|old(canvasGroup)|].rect == RectCenteredAt(mouse, frameSize)
      ensures canvasGroup[|old(canvasGroup)|].distanceToOrigin == RectCenteredAt(mouse, frameSize).TopLeft().Minus(origin)
    {
      ghost var v0 := View();
      var o := new CanvasObject(mouse, frameSize, selectionIndex, origin);
      assert View() == v0;
      canvasGroup := canvasGroup + [o];
      assert TilesValid();
      assert Distinct(canvasGroup) by {
        forall i, j | 0 <= i < j < |canvasGroup| ensures canvasGroup[i] != canvasGroup[j] {
          if j == |canvasGroup| - 1 {
            assert canvasGroup[i] in old(canvasGroup);
          } else {
            assert canvasGroup[i] == old(canvasGroup)[i] && canvasGroup[j] == old(canvasGroup)[j];
          }
        }
      }
      assert ObjectsValid();
      assert PartsValid();
    }

    /** The placement cooldown starts at `now`. */
    method StartCooldown(now: int)
      requires Valid()
      modifies timerObject
      ensures Valid() && View() == old(View())
      ensures timerObject.active && timerObject.startTime == now
    {
      timerObject.Activate(now);
    }

    /** `mouseOnObject`: the place in the group of the first object under the mouse, or the group's length when there is none. */
    method MouseOnObject(mouse: Point) returns (k: int)
      ensures k == FirstUnder(canvasGroup, mouse)
    {
      k := 0;
      while k < |canvasGroup| && !canvasGroup[k].rect.ContainsPoint(mouse)
        invariant 0 <= k <= |canvasGroup|
        invariant forall j | 0 <= j < k :: !canvasGroup[j].rect.ContainsPoint(mouse)
      {
        k := k + 1;
      }
      FirstUnderIsFirst(canvasGroup, mouse, k);
    }

    /** The tile part of `canvaseRemove`: `removeId` on the cell's tile, eviction when it reports empty, then the block re-checked. */
    method RemoveTileAt(cell: Cell, tileId: int)
      requires TilesValid() && cell in canvasData && IsId(tileId)
      modifies this`canvasData, canvasData.Values
      ensures TilesValid()
      ensures View() == NeighborsChecked(Removed(old(View()), cell, tileId), cell)
    {
      ghost var v0 := View();
      RemovedEvictsExactlyWhenEmpty(v0, cell, tileId);
      RemoveAndEvict(cell, tileId);
      ghost var v1 := View();
      CheckNeighbors(cell);
      NeighborsCheckedKeepsTiles(v1, cell);
    }

    /** `removeId` on the tile at `cell`, which is evicted when it then reports empty. */
    method RemoveAndEvict(cell: Cell, tileId: int)
      requires TilesDistinct() && cell in canvasData && IsId(tileId)
      modifies this`canvasData, canvasData[cell]
      ensures TilesDistinct() && canvasData.Values <= old(canvasData.Values)
      ensures View() == Removed(old(View()), cell, tileId)
    {
      var t := canvasData[cell];
      ghost var v0 := View();
      ghost var nt := CheckedContent(RemoveIdFrom(v0[cell], tileId));
      t.RemoveId(tileId);
      forall c | c in canvasData && c != cell
        ensures canvasData[c].State() == v0[c]
      {
        assert canvasData[c] != t;
      }
      if t.isEmpty {
        canvasData := canvasData - {cell};
        ViewIs(v0 - {cell});
      } else {
        ViewIs(v0[cell := nt]);
      }
    }

    /** The store is `w` when it has the same cells and each tile holds what `w` says. */
    lemma ViewIs(w: View)
      requires canvasData.Keys == w.Keys
      requires forall c | c in canvasData :: canvasData[c].State() == w[c]
      ensures View() == w
    {
    }

    /** The object `canvaseRemove` deletes: the first one under the mouse, unless it is the player or the sky handle. */
    predicate KillsObject(buttons: MouseButtons, mouse: Point)
      reads this`canvasGroup, canvasGroup
    {
      var k := FirstUnder(canvasGroup, mouse);
      RemoveActive(buttons, mouse) && k < |canvasGroup| && canvasGroup[k].tileId != 0 && canvasGroup[k].tileId != 1
    }

    /**
     * The tile half of `canvaseRemove`: with the right button held outside
     * the menu, the selected type is removed from the tile under the mouse;
     * the tile is evicted when it reports empty and the block around it is
     * re-checked.
     */
    method CanvasRemoveTile(buttons: MouseButtons, mouse: Point)
      requires Valid()
      modifies this`canvasData, canvasData.Values
      ensures Valid()
      ensures old(RemoveActive(buttons, mouse) && CellAt(mouse) in canvasData) ==>
        View() == NeighborsChecked(Removed(old(View()), CellAt(mouse), selectionIndex), CellAt(mouse))
      ensures !old(RemoveActive(buttons, mouse) && CellAt(mouse) in canvasData) ==> View() == old(View())
    {
      if RemoveActive(buttons, mouse) {
        var cell := CellAt(mouse);
        if cell in canvasData {
          RemoveTileAt(cell, selectionIndex);
        }
      }
    }

    /** `kill` of the object at `k`: it leaves the group and the others keep their order. */
    method KillObjectAt(k: int)
      requires Valid() && 0 <= k < |canvasGroup| && canvasGroup[k].tileId != 0 && canvasGroup[k].tileId != 1
      modifies this`canvasGroup
      ensures Valid() && View() == old(View())
      ensures canvasGroup == RemoveAt(old(canvasGroup), k)
    {
      RemoveAtKeepsOthers(canvasGroup, k);
      canvasGroup := RemoveAt(canvasGroup, k);
    }

    /**
     * The object half of `canvaseRemove`, which runs after the tile half
     * and does not depend on it: the first object under the mouse is
     * deleted unless it is the player or the sky handle.
     */
    method CanvasRemoveObject(buttons: MouseButtons, mouse: Point)
      requires Valid()
      modifies this`canvasGroup
      ensures Valid() && View() == old(View())
      ensures canvasGroup ==
        if old(KillsObject(buttons, mouse)) then RemoveAt(old(canvasGroup), old(FirstUnder(canvasGroup, mouse)))
        else old(canvasGroup)
    {
      if RemoveActive(buttons, mouse) {
        var k := MouseOnObject(mouse);
        if k < |canvasGroup| && canvasGroup[k].tileId != 0 && canvasGroup[k].tileId != 1 {
          KillObjectAt(k);
        }
      }
    }

    /**
     * `canvaseRemove`.  The source runs the tile half first; the halves
     * share no state (one reads and writes the store, the other the
     * objects), so running the object half first has the same effect.
     */
    method CanvasRemove(buttons: MouseButtons, mouse: Point)
      requires Valid()
      modifies this`canvasData, this`canvasGroup, canvasData.Values
      ensures Valid()
      ensures old(RemoveActive(buttons, mouse) && CellAt(mouse) in canvasData) ==>
        View() == NeighborsChecked(Removed(old(View()), CellAt(mouse), selectionIndex), CellAt(mouse))
      ensures !old(RemoveActive(buttons, mouse) && CellAt(mouse) in canvasData) ==> View() == old(View())
      ensures canvasGroup ==
        if old(KillsObject(buttons, mouse)) then RemoveAt(old(canvasGroup), old(FirstUnder(canvasGroup, mouse)))
        else old(canvasGroup)
    {
      CanvasRemoveObject(buttons, mouse);
      CanvasRemoveTile(buttons, mouse);
    }

    /** `selectionHotKeys`: a key press steps the selection right or left and clamps it to the selectable ids. */
    method SelectionHotKeys(ev: Event)
      requires Valid()
      modifies this`selectionIndex
      ensures Valid()
      ensures selectionIndex == if ev.KeyDown? then NextSelection(old(selectionIndex), ev.key) else old(selectionIndex)
    {
      if ev.KeyDown? {
        selectionIndex := NextSelection(selectionIndex, ev.key);
      }
    }

    /**
     * `menuClick`: a mouse press inside the menu clicks it, and the id of
     * the button hit (`hit` is its place, 4 when none is) becomes the
     * selection.
     */
    method MenuClick(ev: Event, buttons: MouseButtons, mouse: Point) returns (ghost hit: int)
      requires Valid()
      modifies this`selectionIndex, menu.buttons
      ensures Valid()
      ensures 0 <= hit <= 4
      ensures hit < 4 ==> ev.MouseButtonDown? && menu.buttons[hit].rect.ContainsPoint(mouse)
      ensures ev.MouseButtonDown? && MENU_RECT.ContainsPoint(mouse) ==> forall k | 0 <= k < hit :: !menu.buttons[k].rect.ContainsPoint(mouse)
      ensures selectionIndex == if hit < 4 then menu.buttons[hit].GetId() else old(selectionIndex)
      ensures !(ev.MouseButtonDown? && MENU_RECT.ContainsPoint(mouse)) ==> hit == 4
      ensures forall k | 0 <= k < 4 && k != hit ::
        menu.buttons[k].index == old(menu.buttons[k].index) && menu.buttons[k].mainActive == old(menu.buttons[k].mainActive)
      ensures hit < 4 ==>
        var b := menu.buttons[hit];
        && b.mainActive == (if buttons.middle then b.alt.None? || !old(b.mainActive) else old(b.mainActive))
        && b.index == (if buttons.right then NextIndex(old(b.index), |b.Items()|) else old(b.index))
    {
      hit := 4;
      if ev.MouseButtonDown? && MENU_RECT.ContainsPoint(mouse) {
        var r;
        r, hit := menu.Click(mouse, buttons.middle, buttons.right);
        assert TilesValid() && ObjectsValid();
        if r.Some? && r.value != 0 {
          selectionIndex := r.value;
        }
      }
    }

    /** Every object under the mouse is grabbed; `grabbed` says whether any was (the press half of `selectObject`). */
    method GrabUnder(mouse: Point) returns (grabbed: bool)
      requires Distinct(canvasGroup)
      modifies canvasGroup
      ensures View() == old(View())
      ensures grabbed == (old(FirstUnder(canvasGroup, mouse)) < |canvasGroup|)
      ensures forall j | 0 <= j < |canvasGroup| :: canvasGroup[j].State() == Grabbed(old(canvasGroup[j].State()), mouse)
    {
      ghost var first := FirstUnder(canvasGroup, mouse);
      grabbed := false;
      var i := 0;
      while i < |canvasGroup|
        invariant 0 <= i <= |canvasGroup|
        invariant grabbed == (first < i)
        invariant forall j | 0 <= j < |canvasGroup| ::
          canvasGroup[j].State() == if j < i then Grabbed(old(canvasGroup[j].State()), mouse) else old(canvasGroup[j].State())
      {
        var o := canvasGroup[i];
        if o.rect.ContainsPoint(mouse) {
          grabbed := true;
          o.StartDrag(mouse);
        }
        i := i + 1;
      }
    }

    /** The first selected object is dropped; `dragging` says whether none was (the release half of `selectObject`). */
    method DropFirstSelected() returns (dragging: bool)
      requires Distinct(canvasGroup)
      modifies canvasGroup
      ensures View() == old(View())
      ensures var k := old(FirstSelected(canvasGroup));
        && dragging == (k == |canvasGroup|)
        && forall j | 0 <= j < |canvasGroup| ::
             canvasGroup[j].State() == if j == k then Dropped(old(canvasGroup[j].State()), origin) else old(canvasGroup[j].State())
    {
      ghost var k := FirstSelected(canvasGroup);
      dragging := true;
      var i := 0;
      while i < |canvasGroup|
        invariant 0 <= i <= |canvasGroup|
        invariant dragging == (k >= i)
        invariant forall j | 0 <= j < |canvasGroup| ::
          canvasGroup[j].State() == if j == k && j < i then Dropped(old(canvasGroup[j].State()), origin) else old(canvasGroup[j].State())
      {
        var o := canvasGroup[i];
        if dragging && o.selected {
          o.EndDrag(origin);
          dragging := false;
        }
        i := i + 1;
      }
    }

    method SetDragging(b: bool)
      modifies this`activeDragObject
      ensures View() == old(View()) && activeDragObject == b
    {
      activeDragObject := b;
    }

    /**
     * `selectObject`: a left press grabs every object under the mouse; a
     * release during a drag drops the first selected object.  Nothing else
     * changes, and the store is not touched.
     */
    method SelectObject(ev: Event, buttons: MouseButtons, mouse: Point)
      requires Valid()
      modifies this`activeDragObject, canvasGroup
      ensures Valid() && View() == old(View())
      ensures ev.MouseButtonDown? && buttons.left ==>
        && activeDragObject == (old(activeDragObject) || old(FirstUnder(canvasGroup, mouse)) < |canvasGroup|)
        && forall j | 0 <= j < |canvasGroup| :: canvasGroup[j].State() == Grabbed(old(canvasGroup[j].State()), mouse)
      ensures ev.MouseButtonUp? && old(activeDragObject) ==>
        var k := old(FirstSelected(canvasGroup));
        && activeDragObject == (k == |canvasGroup|)
        && forall j | 0 <= j < |canvasGroup| ::
             canvasGroup[j].State() == if j == k then Dropped(old(canvasGroup[j].State()), origin) else old(canvasGroup[j].State())
      ensures !(ev.MouseButtonDown? && buttons.left) && !(ev.MouseButtonUp? && old(activeDragObject)) ==>
        && activeDragObject == old(activeDragObject)
        && forall j | 0 <= j < |canvasGroup| :: canvasGroup[j].State() == old(canvasGroup[j].State())
    {
      if ev.MouseButtonDown? && buttons.left {
        var grabbed := GrabUnder(mouse);
        SetDragging(activeDragObject || grabbed);
      } else if ev.MouseButtonUp? && activeDragObject {
        var dragging := DropFirstSelected();
        SetDragging(dragging);
      }
    }

    /** The origin becomes `to` and `panPos` puts every object back at its distance from it. */
    method MoveOrigin(to: Point)
      requires Distinct(canvasGroup)
      modifies this`origin, canvasGroup
      ensures View() == old(View()) && origin == to
      ensures forall j | 0 <= j < |canvasGroup| :: canvasGroup[j].State() == Panned(old(canvasGroup[j].State()), to)
    {
      origin := to;
      var i := 0;
      while i < |canvasGroup|
        invariant 0 <= i <= |canvasGroup|
        modifies canvasGroup
        invariant forall j | 0 <= j < |canvasGroup| ::
          canvasGroup[j].State() == if j < i then Panned(old(canvasGroup[j].State()), to) else old(canvasGroup[j].State())
      {
        canvasGroup[i].PanPos(origin);
        i := i + 1;
      }
    }

    /** The button half of `panInput`: a middle press starts panning from the mouse's place relative to the origin, and letting the middle button go stops it. */
    method PanButtons(ev: Event, buttons: MouseButtons, mouse: Point)
      modifies this`panActive, this`panOffset
      ensures View() == old(View())
      ensures panActive == (buttons.middle && (ev.MouseButtonDown? || old(panActive)))
      ensures panOffset == if ev.MouseButtonDown? && buttons.middle then mouse.Minus(origin) else old(panOffset)
    {
      if ev.MouseButtonDown? && buttons.middle {
        panActive := true;
        panOffset := mouse.Minus(origin);
      }
      if !buttons.middle {
        panActive := false;
      }
    }

    /**
     * `panInput`: the buttons start or stop panning; the wheel shifts the
     * origin; while panning the origin follows the mouse.  Whenever the
     * origin moved, every object is put back at its distance from the new
     * origin.  A wheel event while panning makes the source move the
     * origin and the objects twice; the second move wins, and since
     * panning never changes the stored distances (`PannedTwice`) the
     * objects are moved once here, to the final origin.
     */
    method PanInput(ev: Event, buttons: MouseButtons, ctrl: bool, mouse: Point)
      requires Valid()
      modifies this`panActive, this`panOffset, this`origin, canvasGroup
      ensures Valid() && View() == old(View())
      ensures panActive == (buttons.middle && (ev.MouseButtonDown? || old(panActive)))
      ensures panOffset == if ev.MouseButtonDown? && buttons.middle then mouse.Minus(old(origin)) else old(panOffset)
      ensures origin == if panActive then mouse.Minus(panOffset) else WheelShifted(old(origin), ev, ctrl)
      ensures ev.MouseButtonDown? && buttons.middle ==> origin == old(origin)
      ensures forall j | 0 <= j < |canvasGroup| ::
        canvasGroup[j].State() == if ev.MouseWheel? || panActive then Panned(old(canvasGroup[j].State()), origin) else old(canvasGroup[j].State())
    {
      PanButtons(ev, buttons, mouse);
      if ev.MouseWheel? || panActive {
        MoveOrigin(if panActive then mouse.Minus(panOffset) else WheelShifted(origin, ev, ctrl));
      }
    }

    /** `drag` on every object: the selected ones follow the mouse. */
    method DragAll(mouse: Point)
      requires Distinct(canvasGroup)
      modifies canvasGroup
      ensures View() == old(View())
      ensures forall j | 0 <= j < |canvasGroup| :: canvasGroup[j].State() == Dragged(old(canvasGroup[j].State()), mouse)
    {
      var i := 0;
      while i < |canvasGroup|
        invariant 0 <= i <= |canvasGroup|
        invariant forall j | 0 <= j < |canvasGroup| ::
          canvasGroup[j].State() == if j < i then Dragged(old(canvasGroup[j].State()), mouse) else old(canvasGroup[j].State())
      {
        canvasGroup[i].Drag(mouse);
        i := i + 1;
      }
    }

    /** `canvasGroup.update`: the selected objects follow the mouse; nothing else changes. */
    method UpdateObjects(mouse: Point)
      requires Valid()
      modifies canvasGroup
      ensures Valid() && View() == old(View())
      ensures forall j | 0 <= j < |canvasGroup| :: canvasGroup[j].State() == Dragged(old(canvasGroup[j].State()), mouse)
    {
      DragAll(mouse);
    }

    /** One step of the first loop of `createGrid`: the tile at `cell` loses its decorations. */
    method ClearTile(cell: Cell)
      requires cell in canvasData && TilesDistinct()
      modifies canvasData[cell]
      ensures View() == old(View())[cell := old(View())[cell].(objects := [])]
    {
      var t := canvasData[cell];
      ghost var v0 := View();
      t.objects := [];
      forall c | c in canvasData && c != cell
        ensures canvasData[c].State() == v0[c]
      {
        assert canvasData[c] != t;
      }
      ViewIs(v0[cell := v0[cell].(objects := [])]);
    }

    /** The first loop of `createGrid`: every tile's decoration list is emptied. */
    method ClearObjects()
      requires TilesValid()
      modifies canvasData.Values
      ensures TilesValid()
      ensures View() == Cleared(old(View()))
    {
      ghost var V0 := View();
      var todo := canvasData.Keys;
      assert ClearedExcept(V0, todo) == V0;
      while todo != {}
        invariant todo <= canvasData.Keys && TilesDistinct()
        invariant View() == ClearedExcept(V0, todo)
        decreases todo
      {
        CellsInhabited(todo);
        var c :| c in todo;
        ClearTile(c);
        ClearedExceptStep(V0, todo, c);
        todo := todo - {c};
      }
      assert ClearedExcept(V0, {}) == Cleared(V0);
    }

    /**
     * The second loop of `createGrid`: every object, in order, is filed
     * under the cell its distance from the origin falls in, as a decoration
     * at its offset from that cell's corner.  `anchors` is what the loop
     * reads of the objects (`AnchorsOf`); filing changes no object.
     */
    method AttachObjects(anchors: seq<Anchor>)
      requires TilesValid()
      requires forall j | 0 <= j < |anchors| :: IsId(anchors[j].id) && IsObjectStyle(StyleOf(anchors[j].id))
      modifies this`canvasData, canvasData.Values
      ensures TilesValid()
      ensures View() == AttachAll(old(View()), anchors, origin)
    {
      ghost var V0 := View();
      var i := 0;
      while i < |anchors|
        invariant 0 <= i <= |anchors|
        invariant TilesDistinct()
        invariant forall t | t in canvasData.Values :: t in old(canvasData.Values) || fresh(t)
        invariant View() == AttachAll(V0, anchors[..i], origin)
      {
        // `getCurrentPos(obj)` and the offset from that cell's corner
        var cell := AnchorCell(anchors[i], origin);
        var decoration := AnchorDecoration(anchors[i], origin);
        StoreId(cell, decoration.id, decoration.offset);
        assert anchors[..i + 1][..i] == anchors[..i];
        i := i + 1;
      }
      assert anchors[..i] == anchors;
      AttachAllKeepsContent(V0, anchors, origin);
    }

    /**
     * The store part of `createGrid`: the decorations of every tile are
     * cleared and every object is filed into the tile of its cell.  The
     * player's start is always among the objects, so the store is not
     * empty afterwards.
     */
    method FileObjects()
      requires Valid()
      modifies this`canvasData, canvasData.Values
      ensures Valid()
      ensures View() == AttachAll(Cleared(old(View())), old(AnchorsOf(canvasGroup)), origin)
      ensures View().Keys != {}
    {
      var anchors := AnchorsOf(canvasGroup);
      AnchorsAreObjects(canvasGroup);
      ghost var k :| 0 <= k < |canvasGroup| && canvasGroup[k] == player;
      RefileObjects(anchors, k);
    }

    /** The two store loops of `createGrid`; the object at `k` guarantees a non-empty store. */
    method RefileObjects(anchors: seq<Anchor>, ghost k: int)
      requires TilesValid() && PartsValid() && 0 <= k < |anchors|
      requires forall j | 0 <= j < |anchors| :: IsId(anchors[j].id) && IsObjectStyle(StyleOf(anchors[j].id))
      modifies this`canvasData, canvasData.Values
      ensures TilesValid() && PartsValid()
      ensures View() == AttachAll(Cleared(old(View())), anchors, origin)
      ensures View().Keys != {}
    {
      ClearObjects();
      ghost var cleared := View();
      AttachObjects(anchors);
      AttachAllHoldsDecorations(cleared, anchors, origin, k);
    }

    /** `createGrid`: the objects are filed into the store, and the store is exported as six layers. */
    method CreateGrid() returns (grid: Grid, ghost order: seq<Cell>)
      requires Valid()
      modifies this`canvasData, canvasData.Values
      ensures Valid()
      ensures View() == AttachAll(Cleared(old(View())), old(AnchorsOf(canvasGroup)), origin)
      ensures View().Keys != {}
      ensures Distinct(order) && forall c :: c in order <==> c in View()
      ensures grid == ExportOf(View(), order, landTiles)
    {
      FileObjects();
      grid, order := Export();
    }

    /** The last loop of `createGrid`: the store is exported as six layers and stays as it is. */
    method Export() returns (grid: Grid, ghost order: seq<Cell>)
      requires Valid() && View().Keys != {}
      ensures Valid() && View() == old(View())
      ensures Distinct(order) && forall c :: c in order <==> c in View()
      ensures grid == ExportOf(View(), order, landTiles)
    {
      var v := View();
      grid, order := FillLayers(v, landTiles);
      assert View() == v;
      assert PartsValid();
    }
  }
}

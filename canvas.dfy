/**
 * editor.py, the cell and the free object: `CanvasTile`, one cell of the
 * editor's sparse grid, and `CanvasObject`, a placed object that is not
 * snapped to the grid and keeps its position relative to the origin.
 */
module Canvas {
  import opened Wrappers
  import opened Geometry
  import opened Registry

  /** A decoration anchored in a cell: a type id and a pixel offset from the cell's corner. */
  datatype Decoration = Decoration(id: int, offset: Point)

  /** The value of a `CanvasTile`'s fields. */
  datatype TileState = TileState(
    hasTerrain: bool,
    terrainNeighbors: seq<char>,
    hasWater: bool,
    waterOnTop: bool,
    coin: Option<int>,
    enemy: Option<int>,
    objects: seq<Decoration>,
    isEmpty: bool)
  {
    /** None of the four grid-snapped contents is present (decorations do not count). */
    predicate NoContent()
    {
      !hasTerrain && !hasWater && coin.None? && enemy.None?
    }

    /** `getWater`: the export tag of a water cell. */
    function GetWater(): string
    {
      if waterOnTop then "bottom" else "top"
    }

    /** `getTerrain`: the neighbour names joined; every name is one letter. */
    function GetTerrain(): string
    {
      terrainNeighbors
    }
  }

  /** The fields a new tile has before its first id is added. */
  const BLANK := TileState(false, [], false, false, None, None, [], false)

  /** What `addId` does to a tile. */
  function AddIdTo(t: TileState, tileId: int, offset: Point): TileState
    requires IsId(tileId)
  {
    match StyleOf(tileId)
    case TerrainStyle => t.(hasTerrain := true)
    case WaterStyle => t.(hasWater := true)
    case CoinStyle => t.(coin := Some(tileId))
    case EnemyStyle => t.(enemy := Some(tileId))
    case _ =>
      if Decoration(tileId, offset) in t.objects then t
      else t.(objects := t.objects + [Decoration(tileId, offset)])
  }

  /** What `removeId` does before it calls `checkContent`. */
  function RemoveIdFrom(t: TileState, tileId: int): TileState
    requires IsId(tileId)
  {
    match StyleOf(tileId)
    case TerrainStyle => t.(hasTerrain := false)
    case WaterStyle => t.(hasWater := false)
    case CoinStyle => t.(coin := None)
    case EnemyStyle => t.(enemy := None)
    case _ => t
  }

  /** What `checkContent` does: it can set `isEmpty`, never clear it. */
  function CheckedContent(t: TileState): TileState
  {
    if t.NoContent() then t.(isEmpty := true) else t
  }

  /** `addId` by style: one flag or slot, or one decoration, changes and nothing else. */
  lemma AddIdChangesOneField(t: TileState, tileId: int, offset: Point)
    requires IsId(tileId)
    ensures var r := AddIdTo(t, tileId, offset);
      && r.terrainNeighbors == t.terrainNeighbors && r.waterOnTop == t.waterOnTop && r.isEmpty == t.isEmpty
      && r.hasTerrain == (t.hasTerrain || StyleOf(tileId) == TerrainStyle)
      && r.hasWater == (t.hasWater || StyleOf(tileId) == WaterStyle)
      && r.coin == (if StyleOf(tileId) == CoinStyle then Some(tileId) else t.coin)
      && r.enemy == (if StyleOf(tileId) == EnemyStyle then Some(tileId) else t.enemy)
      && (!IsObjectStyle(StyleOf(tileId)) ==> r.objects == t.objects)
  {
    match StyleOf(tileId) {
      case TerrainStyle =>
      case WaterStyle =>
      case CoinStyle =>
      case EnemyStyle =>
      case _ =>
    }
  }

  /** A decoration id appends its pair only when the pair is absent. */
  lemma AddIdAppendsDecoration(t: TileState, tileId: int, offset: Point)
    requires IsId(tileId) && IsObjectStyle(StyleOf(tileId))
    ensures var r := AddIdTo(t, tileId, offset);
      && r.(objects := t.objects) == t
      && r.objects == (if Decoration(tileId, offset) in t.objects then t.objects else t.objects + [Decoration(tileId, offset)])
      && Decoration(tileId, offset) in r.objects
  {
  }

  /** Adding the same id and offset twice is the same as adding it once. */
  lemma AddIdIdempotent(t: TileState, tileId: int, offset: Point)
    requires IsId(tileId)
    ensures AddIdTo(AddIdTo(t, tileId, offset), tileId, offset) == AddIdTo(t, tileId, offset)
  {
    match StyleOf(tileId) {
      case TerrainStyle =>
      case WaterStyle =>
      case CoinStyle =>
      case EnemyStyle =>
      case _ =>
    }
  }

  /** A decoration list built by `addId` holds no pair twice. */
  lemma AddIdKeepsDecorationsDistinct(t: TileState, tileId: int, offset: Point)
    requires IsId(tileId)
    requires forall i, j | 0 <= i < j < |t.objects| :: t.objects[i] != t.objects[j]
    ensures var r := AddIdTo(t, tileId, offset).objects;
      forall i, j | 0 <= i < j < |r| :: r[i] != r[j]
  {
  }

  /** `removeId` clears the slot of the id's style only, and never touches the decorations. */
  lemma RemoveIdChangesOneField(t: TileState, tileId: int)
    requires IsId(tileId)
    ensures var r := CheckedContent(RemoveIdFrom(t, tileId));
      && r.objects == t.objects && r.terrainNeighbors == t.terrainNeighbors && r.waterOnTop == t.waterOnTop
      && r.hasTerrain == (t.hasTerrain && StyleOf(tileId) != TerrainStyle)
      && r.hasWater == (t.hasWater && StyleOf(tileId) != WaterStyle)
      && r.coin == (if StyleOf(tileId) == CoinStyle then None else t.coin)
      && r.enemy == (if StyleOf(tileId) == EnemyStyle then None else t.enemy)
      && r.isEmpty == (t.isEmpty || r.NoContent())
  {
    match StyleOf(tileId) {
      case TerrainStyle =>
      case WaterStyle =>
      case CoinStyle =>
      case EnemyStyle =>
      case _ =>
    }
  }

  /** A new tile never reports empty, whatever it holds. */
  lemma NewTileNotEmpty(tileId: int, offset: Point)
    requires IsId(tileId)
    ensures !AddIdTo(BLANK, tileId, offset).isEmpty
    ensures AddIdTo(BLANK, tileId, offset).NoContent() <==> IsObjectStyle(StyleOf(tileId))
  {
  }

  /** The export tag of water: `"bottom"` under other water, `"top"` otherwise. */
  lemma WaterTag(t: TileState)
    ensures t.GetWater() in {"top", "bottom"}
    ensures t.GetWater() == "bottom" <==> t.waterOnTop
  {
  }

  class CanvasTile {
    var hasTerrain: bool
    var terrainNeighbors: seq<char>
    var hasWater: bool
    var waterOnTop: bool
    var coin: Option<int>
    var enemy: Option<int>
    var objects: seq<Decoration>
    var isEmpty: bool

    function State(): TileState
      reads this
    {
      TileState(hasTerrain, terrainNeighbors, hasWater, waterOnTop, coin, enemy, objects, isEmpty)
    }

    /** A tile created for its first id. */
    constructor (tileId: int, offset: Point)
      requires IsId(tileId)
      ensures State() == AddIdTo(BLANK, tileId, offset)
      ensures !isEmpty
    {
      hasTerrain := false;
      terrainNeighbors := [];
      hasWater := false;
      waterOnTop := false;
      coin := None;
      enemy := None;
      objects := [];
      isEmpty := false;
      new;
      AddId(tileId, offset);
      isEmpty := false;
    }

    method AddId(tileId: int, offset: Point)
      requires IsId(tileId)
      modifies this
      ensures State() == AddIdTo(old(State()), tileId, offset)
    {
      match StyleOf(tileId)
      case TerrainStyle => hasTerrain := true;
      case WaterStyle => hasWater := true;
      case CoinStyle => coin := Some(tileId);
      case EnemyStyle => enemy := Some(tileId);
      case _ =>
        if Decoration(tileId, offset) !in objects {
          objects := objects + [Decoration(tileId, offset)];
        }
    }

    method RemoveId(tileId: int)
      requires IsId(tileId)
      modifies this
      ensures State() == CheckedContent(RemoveIdFrom(old(State()), tileId))
    {
      match StyleOf(tileId) {
        case TerrainStyle => hasTerrain := false;
        case WaterStyle => hasWater := false;
        case CoinStyle => coin := None;
        case EnemyStyle => enemy := None;
        case _ =>
      }
      CheckContent();
    }

    method CheckContent()
      modifies this
      ensures State() == CheckedContent(old(State()))
    {
      if !hasTerrain && !hasWater && coin.None? && enemy.None? {
        isEmpty := true;
      }
    }
  }

  /** The movable state of a free object: where it is, where it is relative to the origin, and its drag state. */
  datatype ObjectState = ObjectState(rect: Rect, distanceToOrigin: Point, selected: bool, mouseOffset: Point)

  /** `startDrag`, when the object is under `mouse`: it is selected and remembers where it was grabbed. */
  function Grabbed(s: ObjectState, mouse: Point): ObjectState
  {
    if s.rect.ContainsPoint(mouse) then s.(selected := true, mouseOffset := mouse.Minus(s.rect.TopLeft())) else s
  }

  /** `drag`: a selected object's corner follows the mouse at the grab offset. */
  function Dragged(s: ObjectState, mouse: Point): ObjectState
  {
    if s.selected then s.(rect := s.rect.WithTopLeft(mouse.Minus(s.mouseOffset))) else s
  }

  /** `endDrag`: the object is released and its place is stored relative to the origin. */
  function Dropped(s: ObjectState, origin: Point): ObjectState
  {
    s.(selected := false, distanceToOrigin := s.rect.TopLeft().Minus(origin))
  }

  /** `panPos`: the corner is put at the origin plus the stored distance. */
  function Panned(s: ObjectState, origin: Point): ObjectState
  {
    s.(rect := s.rect.WithTopLeft(origin.Plus(s.distanceToOrigin)))
  }

  /** Panning to the origin an object was dropped at leaves it where it was dropped. */
  lemma DropThenPanKeepsPlace(s: ObjectState, origin: Point)
    ensures Panned(Dropped(s, origin), origin).rect == s.rect
    ensures Panned(Dropped(s, origin), origin) == Dropped(s, origin)
  {
  }

  /** Panning moves the corner to the origin plus the distance, keeps the size, and never changes the distance. */
  lemma PannedPlacesAtDistance(s: ObjectState, origin: Point)
    ensures var r := Panned(s, origin);
      && r.rect.TopLeft() == origin.Plus(s.distanceToOrigin)
      && r.rect.w == s.rect.w && r.rect.h == s.rect.h
      && r.distanceToOrigin == s.distanceToOrigin && r.selected == s.selected
  {
  }

  /** Panning twice is panning once to the second origin: the stored distance is never disturbed. */
  lemma PannedTwice(s: ObjectState, o1: Point, o2: Point)
    ensures Panned(Panned(s, o1), o2) == Panned(s, o2)
  {
  }

  /** An object grabbed at `m0` and dragged to `m1` moves by exactly the mouse's displacement. */
  lemma DragFollowsMouse(s: ObjectState, m0: Point, m1: Point)
    requires s.rect.ContainsPoint(m0)
    ensures Dragged(Grabbed(s, m0), m1).rect.TopLeft() == s.rect.TopLeft().Plus(m1.Minus(m0))
    ensures Dragged(Grabbed(s, m0), m1).rect.w == s.rect.w && Dragged(Grabbed(s, m0), m1).rect.h == s.rect.h
  {
  }

  /**
   * A free object.  `distanceToOrigin` is its top-left corner relative to
   * the origin, so that panning moves `rect` without touching it.  The
   * frame animation, which swaps `rect` for one of another frame's size,
   * is not modelled: `rect` keeps the size it was created with.
   */
  class CanvasObject {
    const tileId: int
    var rect: Rect
    var distanceToOrigin: Point
    var selected: bool
    var mouseOffset: Point

    function State(): ObjectState
      reads this
    {
      ObjectState(rect, distanceToOrigin, selected, mouseOffset)
    }

    /** Where `panPos(origin)` puts the top-left corner. */
    function PannedTopLeft(origin: Point): Point
      reads this
    {
      origin.Plus(distanceToOrigin)
    }

    /** Created centred on `pos`, with the size of its first frame. */
    constructor (pos: Point, size: Size, tileId: int, origin: Point)
      ensures this.tileId == tileId
      ensures rect == RectCenteredAt(pos, size)
      ensures distanceToOrigin == rect.TopLeft().Minus(origin)
      ensures PannedTopLeft(origin) == rect.TopLeft()
      ensures !selected && mouseOffset == Zero
    {
      this.tileId := tileId;
      rect := RectCenteredAt(pos, size);
      distanceToOrigin := RectCenteredAt(pos, size).TopLeft().Minus(origin);
      selected := false;
      mouseOffset := Zero;
    }

    /** Grabbing the object under the mouse selects it and records the grab offset. */
    method StartDrag(mouse: Point)
      modifies this
      ensures selected && mouseOffset == mouse.Minus(rect.TopLeft())
      ensures rect == old(rect) && distanceToOrigin == old(distanceToOrigin)
      ensures old(rect).ContainsPoint(mouse) ==> State() == Grabbed(old(State()), mouse)
    {
      selected := true;
      mouseOffset := mouse.Minus(rect.TopLeft());
    }

    /** While selected, the corner follows the mouse at the offset taken by `StartDrag`. */
    method Drag(mouse: Point)
      modifies this
      ensures State() == Dragged(old(State()), mouse)
    {
      if selected {
        rect := rect.WithTopLeft(mouse.Minus(mouseOffset));
      }
    }

    /** Dropping the object stores where it now is, relative to `origin`. */
    method EndDrag(origin: Point)
      modifies this
      ensures State() == Dropped(old(State()), origin)
      ensures PannedTopLeft(origin) == rect.TopLeft()
    {
      selected := false;
      distanceToOrigin := rect.TopLeft().Minus(origin);
    }

    method PanPos(origin: Point)
      modifies this
      ensures State() == Panned(old(State()), origin)
    {
      rect := rect.WithTopLeft(origin.Plus(distanceToOrigin));
    }
  }
}

/**
 * The static configuration the editor and the runtime read: the tile size,
 * the window size, the type registry (`EDITOR_DATA`) and the table of
 * neighbour directions (`NEIGHBOR_DIRECTIONS`).  Their home, settings.py,
 * is not part of this model; the values below are the ones the code relies
 * on (ids 0 and 1 are the player and the sky, 2..18 the selectable types,
 * laid out as `Level.buildGrid` dispatches them).
 */
module Registry {
  import opened Wrappers

  /** Edge length of one editor cell, in pixels. */
  const TILE_SIZE: int := 64
  const WINDOW_WIDTH: int := 1280
  const WINDOW_HEIGHT: int := 720

  /** The `style` field of a registry entry. */
  datatype Style = PlayerStyle | SkyStyle | TerrainStyle | WaterStyle | CoinStyle | EnemyStyle | PalmFg | PalmBg

  /** The `type` field: tiles snap to cells, objects float freely. */
  datatype Placement = TileType | ObjectType

  /** One registry entry, without its graphics. */
  datatype Entry = Entry(id: int, style: Style, placement: Placement, menu: Option<string>)

  const FIRST_ID := 0
  const LAST_ID := 18

  predicate IsId(id: int) { FIRST_ID <= id <= LAST_ID }

  function StyleOf(id: int): Style
    requires IsId(id)
  {
    if id == 0 then PlayerStyle
    else if id == 1 then SkyStyle
    else if id == 2 then TerrainStyle
    else if id == 3 then WaterStyle
    else if id <= 6 then CoinStyle
    else if id <= 10 then EnemyStyle
    else if id <= 14 then PalmFg
    else PalmBg
  }

  function PlacementOf(id: int): Placement
    requires IsId(id)
  {
    if 2 <= id <= 10 then TileType else ObjectType
  }

  function MenuOf(id: int): Option<string>
    requires IsId(id)
  {
    match StyleOf(id)
    case TerrainStyle => Some("terrain")
    case WaterStyle => Some("terrain")
    case CoinStyle => Some("coin")
    case EnemyStyle => Some("enemy")
    case PalmFg => Some("palm fg")
    case PalmBg => Some("palm bg")
    case _ => None
  }

  /** `EDITOR_DATA`, in key order. */
  const EDITOR_DATA: seq<Entry> :=
    seq(LAST_ID + 1, i requires 0 <= i <= LAST_ID => Entry(i, StyleOf(i), PlacementOf(i), MenuOf(i)))

  /** A grid-snapped style keeps its own flag or slot in a cell; the others are decorations. */
  predicate IsObjectStyle(s: Style)
  {
    s == PlayerStyle || s == SkyStyle || s == PalmFg || s == PalmBg
  }

  /** The ids the export files under "bg palms"; every other decoration goes under "fg objects". */
  predicate IsBackgroundPalm(id: int)
  {
    IsId(id) && StyleOf(id) == PalmBg
  }

  /** One entry of `NEIGHBOR_DIRECTIONS`: a one-letter name and a cell offset. */
  datatype Direction = Direction(name: char, dx: int, dy: int)

  /** `'A'` is the cell above; the others follow clockwise. */
  const NEIGHBOR_DIRECTIONS: seq<Direction> := [
    Direction('A', 0, -1), Direction('B', 1, -1), Direction('C', 1, 0), Direction('D', 1, 1),
    Direction('E', 0, 1), Direction('F', -1, 1), Direction('G', -1, 0), Direction('H', -1, -1)
  ]
}

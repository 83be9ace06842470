# game_maker core in Dafny

A model of the integer grid and rectangle logic of a pygame level editor and
platformer.

**The editor (`editor.py`).** The editor keeps a sparse store of grid cells (`canvasData`). Each cell is a `CanvasTile` with:
- terrain and water flags;
- one coin slot and one enemy slot;
- a list of decorations.

The editor also keeps free-floating objects (`CanvasObject`) that can be dragged and panned. `createGrid` exports the whole canvas as six normalised layers.

**The runtime (`lavel.py`, `sprites.py`).** The runtime turns those layers back into sprites. From them it builds:
- the player, with axis-separated collision resolution, a floor probe and a status machine;
- teeth that turn at ledges and walls;
- shells that fire one pearl per animation cycle;
- coins, which are collected into particles;
- palm trunks that join the collision group.

**The smaller parts.** A polling countdown `Timer` (`timer.py`) and the editor's `Menu` of cycling buttons (`menu.py`) are modelled as well.

**Style of the model.** It keeps the source's form:
- an object whose fields the source updates is a `class` whose methods modify those fields;
- every loop of the source is a `while` loop;
- each method is proved against a specification function on values.

For example, `checkNeighbors` is proved against `NeighborsChecked` on the value of the store, and `createGrid` against `ExportOf`. `buildGrid` is proved against a fold `AbsorbAll` over the walked entries, and `Player.move` against `Moved`. The properties the source relies on are lemmas about those functions.

**Files:**
- `geometry.dfy` and `registry.dfy`: pygame's `Rect` with C-truncating division (`inflate`, `colliderect`, `collidepoint`), and the settings constants.
- `extrema.dfy`: least and greatest elements (the source's `sorted(...)[0]` and `[-1]`).
- `timer.dfy`, `menu.dfy`, `canvas.dfy` (`CanvasTile`, `CanvasObject`), `grid.dfy` (the store as values and the export), `editor.dfy` (the `Editor`), `sprites.dfy` and `level.dfy`.

**Inputs from outside.** What the source reads from pygame is passed in as parameters:
- the tick count of `pygame.time.get_ticks`;
- the mouse position and buttons;
- the pressed keys;
- the event;
- the integer step a delta-time motion produces;
- the image sizes and animation lengths (`Assets`);
- the random first direction of a tooth.

## Model

| member | source | states |
|---|---|---|
| Timers.Timer.constructor | timer.py:5-8 | a new timer has the given duration, is inactive and has start time 0 |
| Timers.Timer.Activate | timer.py:10-12 | arming sets `active` and records the current tick as the start |
| Timers.Timer.Deactivate | timer.py:14-16 | disarming clears `active` and resets the start time to 0 |
| Timers.Timer.Update | timer.py:18-21 | the timer is disarmed iff `now - startTime >= duration`, otherwise nothing changes; an inactive timer stays inactive; the invariant "inactive means start 0" is kept |
| Menus.CreateData | menu.py:13-23 | the loop groups the registry by menu name: the keys are exactly the menu names present, each group is non-empty and equals `IdsInMenu` |
| Menus.IdsInMenuMembers | menu.py:16-23 | an id is in a menu's group iff a registry entry with that id names that menu (entries without a menu are skipped) |
| Menus.IdsInMenuOrdered | menu.py:16-23 | with keys in increasing order, each group is strictly increasing: registry order is preserved |
| Menus.EditorMenuNames | menu.py:16-23 | the registry names exactly the five menus terrain, coin, enemy, palm fg, palm bg |
| Menus.EditorGroups | menu.py:44-48 | the five groups of the registry are [2,3], [4,5,6], [7..10], [11..14], [15..18] |
| Menus.MenuGroups | menu.py:44-48 | `createData` run on the registry yields exactly those five groups |
| Menus.NextIndex | menu.py:100-104 | `switch`'s index is the successor modulo the length, and stays in [0, len) |
| Menus.SwitchCycles | menu.py:100-104 | k switches advance the index by k with one wrap; len switches return to the start |
| Menus.Button.constructor | menu.py:80-88 | a button starts at index 0 with its main group active |
| Menus.Button.GetId | menu.py:97-98 | `get_id` returns an id of the main group when it is active, otherwise of the alt group |
| Menus.Button.Switch | menu.py:100-104 | the index moves to `NextIndex` within the active group; the active group is unchanged |
| Menus.Button.Toggle | menu.py:58-59 | a middle click flips `mainActive` when an alt group exists and sets it to true otherwise; the index is kept |
| Menus.MenuLayout | menu.py:25-41 | the menu is the 180x180 square at (1094, 534); the four buttons are its quadrants shrunk by 5, lie inside it and are pairwise disjoint, so no point is in two buttons |
| Menus.Menu.constructor | menu.py:43-48 | the four buttons show terrain, coin, enemy and palm fg, in that order; only the palm button has an alt group (palm bg) |
| Menus.Menu.Click | menu.py:55-62 | the first button containing the point gets the middle/right-click effects and its `get_id` is returned; no button before it contains the point, the others are untouched, and nothing is returned when no button contains it |
| Geometry.TruncDiv | editor.py:77-79 | division truncating toward zero: it agrees with Euclidean division on non-negative numbers and rounds toward zero on negative ones |
| Geometry.RectCenteredAt | editor.py:552 | `get_rect(center=p)` gives a rectangle whose centre is `p` |
| Extrema.Least | editor.py:151-152 | the least element of a non-empty set, the source's `sorted(...)[0]` |
| Extrema.Greatest | lavel.py:29 | the greatest element of a non-empty set, the source's `sorted(...)[-1]` |
| Canvas.AddIdChangesOneField | editor.py:508-514 | `addId` sets only the flag or slot of the id's style (coin and enemy slots take the id) and leaves every other field alone |
| Canvas.AddIdAppendsDecoration | editor.py:515-517 | a decoration id appends `(id, offset)` only when that pair is absent, and the pair is then present |
| Canvas.AddIdIdempotent | editor.py:508-517 | adding the same id and offset twice equals adding it once |
| Canvas.AddIdKeepsDecorationsDistinct | editor.py:515-517 | the decoration list never holds a pair twice |
| Canvas.RemoveIdChangesOneField | editor.py:519-530 | `removeId` clears only the slot of the id's style and never touches the decorations; afterwards `isEmpty` holds iff it already held or no terrain, water, coin or enemy is left |
| Canvas.NewTileNotEmpty | editor.py:486-506 | a new tile never reports empty, even when it holds only a decoration |
| Canvas.WaterTag | editor.py:532-536 | `getWater` is "bottom" iff `waterOnTop`, otherwise "top" |
| Canvas.CanvasTile.constructor | editor.py:487-506 | a tile is created blank, `addId` is applied to its first id, and it is not empty |
| Canvas.CanvasTile.AddId | editor.py:508-517 | the tile's fields become `AddIdTo` of the old fields |
| Canvas.CanvasTile.RemoveId | editor.py:519-526 | the tile's fields become `removeId` followed by `checkContent` of the old fields |
| Canvas.CanvasTile.CheckContent | editor.py:528-530 | `isEmpty` is set when no grid content is left and is never cleared |
| Canvas.DropThenPanKeepsPlace | editor.py:567-573 | after `endDrag(o)`, `panPos(o)` leaves the object where it was dropped |
| Canvas.PannedPlacesAtDistance | editor.py:571-573 | `panPos` puts the corner at origin plus distance, keeps the size, and changes neither the distance nor the selection |
| Canvas.PannedTwice | editor.py:571-573 | panning twice equals panning once to the second origin |
| Canvas.DragFollowsMouse | editor.py:559-565 | an object grabbed at m0 and dragged to m1 moves by exactly m1 - m0 and keeps its size |
| Canvas.CanvasObject.constructor | editor.py:543-557 | the object is centred on `pos`, unselected, and stores its corner relative to the origin, so panning to that origin keeps it in place |
| Canvas.CanvasObject.StartDrag | editor.py:559-561 | the object is selected and records the mouse's offset from its corner, without moving |
| Canvas.CanvasObject.Drag | editor.py:563-565 | a selected object's corner follows the mouse at the recorded offset; an unselected one does not move |
| Canvas.CanvasObject.EndDrag | editor.py:567-569 | the object is released and stores its place relative to the origin |
| Canvas.CanvasObject.PanPos | editor.py:571-573 | the object's state becomes `Panned`: its corner is at origin plus its distance |
| CanvasGrid.CellCoord | editor.py:76-84 | a positive distance lands in its cell with the left edge included; a non-positive one lands in its cell with the right edge included |
| CanvasGrid.CellCoordAgainstFloor | editor.py:76-84 | `getCurrentPos` agrees with floor division except at the non-positive multiples of 64, which go one cell lower |
| CanvasGrid.CellCoordExamples | editor.py:76-84 | 1 maps to 0, 64 to 1, 0 to -1, -1 to -1, -64 to -2 |
| CanvasGrid.OffsetWithinTile | editor.py:72-86 | a distance lies within one tile of the corner of the cell `getCurrentPos` maps it to, on each axis |
| CanvasGrid.FiledOffsetNearOrigin | editor.py:140-143 | a filed object's offset minus the origin lies within one tile on each axis, so it is within the tile only while the origin is at (0, 0) |
| CanvasGrid.NeighborCodeSelects | editor.py:103-109 | a letter is in the neighbour code iff the neighbour in that direction exists and has terrain |
| CanvasGrid.NeighborCodeDeterministic | editor.py:103-109 | the code depends only on which neighbours have terrain |
| CanvasGrid.NorthEastCode | editor.py:103-109 | terrain only above and to the right gives the code "AC": letters come in direction order |
| CanvasGrid.WaterOnTopIsCellAbove | editor.py:111-113 | `waterOnTop` is true iff the cell above exists and has water |
| CanvasGrid.LocalClusterIsBlock | editor.py:90-96 | the local cluster is exactly the 3x3 block around the cell |
| CanvasGrid.NeighborsCheckedIsLocal | editor.py:88-113 | `checkNeighbors` keeps the keys, changes only the neighbour fields, only of cells in the 3x3 block, and sets them to the terrain code and the water-above flag |
| CanvasGrid.NeighborsCheckedKeepsTiles | editor.py:88-113 | `checkNeighbors` keeps every key and never makes a tile report empty |
| CanvasGrid.RemovedEvictsExactlyWhenEmpty | editor.py:283-290 | after a removal the cell is deleted from the store iff no terrain, water, coin or enemy is left; every other cell is untouched |
| CanvasGrid.DecorationOnlyTileEvicted | editor.py:283-288 | a tile with decorations but no terrain, water, coin or enemy is deleted by the first removal at its cell, because `checkContent` ignores decorations; other cells are untouched |
| CanvasGrid.PlacedIsPresent | editor.py:214-222 | a placed tile id is present in its cell, whether the tile already existed or was created, and no other cell changes |
| CanvasGrid.FileObjectEffect | editor.py:140-148 | filing an object adds its decoration to its cell's tile (created if absent), keeps that tile's other fields and earlier decorations, and changes no other cell |
| CanvasGrid.AttachAllKeys | editor.py:140-148 | after filing, the store's cells are the old ones plus the objects' cells |
| CanvasGrid.AttachAllKeepsContent | editor.py:137-148 | filing objects changes only decorations and never makes a tile report empty |
| CanvasGrid.AttachAllHoldsDecorations | editor.py:140-148 | every object's decoration ends up in the tile of its cell |
| CanvasGrid.DecorationLandsAtDistance | editor.py:142-188 | a decoration is exported at the object's distance from the origin minus the grid's corner |
| CanvasGrid.TileDecorationsCover | editor.py:181-188 | each decoration of a tile of the chosen kind has an entry at its position |
| CanvasGrid.TileDecorationsSource | editor.py:181-188 | each entry comes from a decoration of that kind at that position and carries its id |
| CanvasGrid.DecorationLayerCovers | editor.py:165-188 | every decoration of a visited tile is exported in its layer (bg palms or fg objects) |
| CanvasGrid.DecorationLayerSource | editor.py:165-188 | every entry of a decoration layer comes from some decoration of that kind |
| CanvasGrid.VisitTileCells | editor.py:165-180 | visiting one tile adds exactly its water tag, its terrain code (or "X"), its coin at the half-tile shift and its enemy |
| CanvasGrid.VisitTileDecorations | editor.py:181-188 | visiting one tile adds its decorations to the two decoration layers, later ones winning |
| CanvasGrid.ExportIsNormalised | editor.py:151-169 | with the least column and row as offset, every exported cell position is >= 0 and some cell lands on x = 0 and some on y = 0 |
| CanvasGrid.CellLayerAt | editor.py:165-180 | a cell has an entry in a grid-snapped layer iff it carries that payload, and the entry is the payload |
| CanvasGrid.CellLayerNonNegative | editor.py:151-178 | every entry of a grid-snapped layer lies at or beyond its shift |
| CanvasGrid.ExportCellLayers | editor.py:165-180 | in the export, a cell has a water, terrain, enemy or (half-tile shifted) coin entry iff the tile has that content; water is the `getWater` tag and terrain a land tile name or "X" |
| CanvasGrid.ExportCellLayersNonNegative | editor.py:151-178 | all grid-snapped positions are >= 0, and coins are at least half a tile in |
| CanvasGrid.ExportHoldsObjects | editor.py:136-190 | every free object appears in the export, in bg palms or fg objects by its style, at its distance minus the grid's offset |
| Editing.NextSelection | editor.py:261-268 | a key press steps the selection by one and clamps it to [2, 18] |
| Editing.SelectableIds | editor.py:268 | [2, 18] is exactly the set of registry ids other than the player and the sky |
| Editing.FirstUnder | editor.py:275-278 | the index of the first object whose rectangle holds the point, or the length when there is none |
| Editing.FirstUnderIsFirst | editor.py:275-278 | that index is the only one satisfying the first-hit property |
| Editing.FirstSelected | editor.py:303-306 | the index of the first selected object, or the length when none is selected |
| Editing.RemoveAt | editor.py:293-295 | `kill` removes exactly the element at k and keeps the others in order |
| Editing.RemoveAtKeepsOthers | editor.py:293-295 | removal adds nothing, keeps every other element and keeps the group duplicate-free |
| Editing.WheelShifted | editor.py:246-250 | a wheel event moves the origin by 20 pixels a notch, vertically while Ctrl is held and horizontally otherwise; other events leave it alone |
| Editing.AnchorsOf | editor.py:140-142 | what `createGrid` reads of each object: its id and its distance to the origin |
| Editing.AddDecorations | editor.py:181-188 | the decoration loop adds exactly `TileDecorations` to each of the two layers |
| Editing.FillLayers | editor.py:150-190 | the export loop visits each tile once and returns exactly `ExportOf` the store |
| Editing.Editor.constructor | editor.py:15-64 | a new editor has an empty store, origin 0 and selection 2; its only objects are the player's start centred at (200, 360) and the sky handle centred at (640, 360) |
| Editing.ScanNeighbors | editor.py:102-113 | the code lists, in table order, the directions whose neighbour has terrain, and the flag says whether the cell above has water (`NeighborCode`, `WaterOnTop`) |
| Editing.Editor.RefreshTile | editor.py:99-113 | only this cell's neighbour code and water flag change, and they become those computed from the snapshot store; every other tile is unchanged |
| Editing.Editor.RefreshStep | editor.py:99-113 | one pass of the cluster loop: the refreshed prefix grows by one cell |
| Editing.Editor.RefreshCells | editor.py:98-113 | after the loop, exactly the listed cells present in the store are refreshed (`PartlyChecked`) |
| Editing.Editor.CheckNeighbors | editor.py:88-113 | the store becomes `NeighborsChecked` of the old store |
| Editing.Editor.StoreId | editor.py:216-220 | `addId` on the cell's tile, or a new tile there; other cells keep their tile objects |
| Editing.Editor.AddIdHere | editor.py:216-217 | the existing tile at the cell takes the id (`AddIdTo`); every other tile is unchanged |
| Editing.Editor.NewTileAt | editor.py:218-220 | a fresh tile holding only the id is stored at the new cell; every other entry is kept |
| Editing.Editor.CanvasAdd | editor.py:211-235 | a tile selection places the tile at the cell under the mouse and re-checks its block, unless that cell was the last one placed into; an object selection creates an object centred on the mouse and starts the 400 ms cooldown, unless the cooldown is running; otherwise nothing changes |
| Editing.Editor.PlaceTileAt | editor.py:214-222 | the store becomes `Placed`, then `NeighborsChecked`, and the editor invariant holds |
| Editing.Editor.AddTileAt | editor.py:214-223 | the same, and the cell becomes the last cell placed into |
| Editing.Editor.AddObjectAt | editor.py:224-235 | a new object of the selected type is appended centred on the mouse, and the cooldown is armed at `now` |
| Editing.Editor.PushObject | editor.py:226-233 | a fresh object of the selected type, centred on the mouse and at its distance from the origin, is appended to the group; the store and the editor invariant are kept |
| Editing.Editor.StartCooldown | editor.py:235 | the cooldown timer is armed at `now`; the store and the editor invariant are kept |
| Editing.Editor.MouseOnObject | editor.py:275-278 | returns `FirstUnder` of the group |
| Editing.Editor.RemoveTileAt | editor.py:283-290 | the store becomes `Removed` (an empty tile is evicted), then `NeighborsChecked` |
| Editing.Editor.RemoveAndEvict | editor.py:286-288 | the store becomes `Removed` of the old store, with no new tile objects |
| Editing.Editor.CanvasRemoveTile | editor.py:280-290 | with the right button held outside the menu and a tile under the mouse, the selected id is removed there; otherwise the store is unchanged |
| Editing.Editor.KillObjectAt | editor.py:293-295 | the object at k leaves the group, which is otherwise unchanged |
| Editing.Editor.CanvasRemoveObject | editor.py:292-295 | the first object under the mouse is deleted unless it is the player or the sky handle |
| Editing.Editor.CanvasRemove | editor.py:280-295 | both halves of `canvaseRemove`, as above |
| Editing.Editor.SelectionHotKeys | editor.py:261-268 | a key press sets the selection to `NextSelection`, which stays in [2, 18]; other events keep it |
| Editing.Editor.MenuClick | editor.py:270-273 | a press inside the menu hits the first button under the mouse; that button is toggled by a middle click (flipped when it has an alternative group, otherwise main) and switched to `NextIndex` by a right click, and the selection becomes its new id; every other button, and every button when nothing is hit or the press is not in the menu, keeps its index and group, and the selection is kept |
| Editing.Editor.GrabUnder | editor.py:298-301 | every object under the mouse is grabbed; reports whether any was |
| Editing.Editor.DropFirstSelected | editor.py:303-306 | only the first selected object is dropped; reports whether dragging continues |
| Editing.Editor.SelectObject | editor.py:297-306 | a left press grabs the objects under the mouse and starts a drag if one was hit; a release during a drag drops the first selected object; otherwise nothing changes |
| Editing.Editor.MoveOrigin | editor.py:251-259 | the origin moves and every object is panned to it |
| Editing.Editor.PanButtons | editor.py:238-243 | a middle press starts panning from the mouse's offset to the origin; releasing the middle button stops it |
| Editing.Editor.PanInput | editor.py:237-259 | panning state as above; while panning the origin is mouse minus offset, otherwise it is the wheel-shifted origin; the objects are panned whenever the origin may have moved |
| Editing.Editor.DragAll | editor.py:563-565 | `drag` on every object |
| Editing.Editor.UpdateObjects | editor.py:582-584 | the selected objects follow the mouse; nothing else changes |
| Editing.Editor.ClearTile | editor.py:139 | the tile at the cell loses its decorations; every other tile is unchanged |
| Editing.Editor.ClearObjects | editor.py:138-139 | every tile's decoration list is emptied |
| Editing.Editor.AttachObjects | editor.py:140-148 | the store becomes `AttachAll` of the objects, in group order |
| Editing.Editor.FileObjects | editor.py:137-148 | the store becomes `AttachAll(Cleared(store))` and is non-empty, since the player's start is always filed |
| Editing.Editor.RefileObjects | editor.py:137-148 | the store becomes `AttachAll(Cleared(store))` of the given objects, and is non-empty when one of them is |
| Editing.Editor.Export | editor.py:150-190 | the store and the editor's invariant are kept, and the grid is `ExportOf` the store for an order listing each cell once |
| Editing.Editor.CreateGrid | editor.py:136-190 | the store is refiled, and the returned grid is `ExportOf` the new store for a visiting order that lists each cell once |
| Sprites.FindColliding | sprites.py:152-154 | the comprehension is non-empty iff some collision rectangle overlaps the probe |
| Sprites.FindContaining | sprites.py:224 | the comprehension is non-empty iff some collision rectangle contains the point |
| Sprites.HitBoxOf | sprites.py:83 | the hit box is 25 pixels in from each side and just as tall, with the same centre for sprites at least 50 wide |
| Sprites.StatusOf | sprites.py:96-102 | jump iff `direction.y < 0`; fall iff `direction.y > 0` and off the floor; otherwise run iff `direction.x != 0`, else idle |
| Sprites.ResolveHorizontalStep | sprites.py:159-162 | against an overlapping block, moving right puts the hit box's right edge on the block's left edge, and moving left the reverse; `rect.centerx` and `pos.x` follow the hit box |
| Sprites.ResolveVerticalStep | sprites.py:163-167 | moving up puts the hit box's top on the block's bottom, and moving down the reverse; `rect.centery` and `pos.y` follow and `direction.y` becomes 0 |
| Sprites.ResolveStepSeparates | sprites.py:156-167 | after a moving hit box is pushed out of a block, the two no longer overlap |
| Sprites.ResolveKeepsShape | sprites.py:156-167 | resolution against any blocks keeps both sizes, the shared centre and the horizontal input |
| Sprites.ResolveFree | sprites.py:156-158 | a hit box that overlaps no block is left unchanged |
| Sprites.ResolveVerticalSpeed | sprites.py:163-167 | horizontal resolution keeps `direction.y`; vertical resolution keeps it or zeroes it |
| Sprites.MovedKeepsCentred | sprites.py:132-143 | a move keeps the rect, the hit box and `pos` on one centre and keeps the sizes |
| Sprites.Player.constructor | sprites.py:65-86 | the player starts at rest, idle, facing right and off the floor, with its hit box and `pos` on the rectangle's centre and a 200 ms invulnerability timer |
| Sprites.Player.Damage | sprites.py:91-94 | only a player who is not invulnerable is hit: the timer is armed and `direction.y` drops by 1.5; otherwise nothing changes |
| Sprites.Player.Input | sprites.py:117-129 | right wins over left for the horizontal input and the orientation; a jump sets `direction.y` to -2 only on the floor |
| Sprites.Player.CheckOnFloor | sprites.py:149-154 | `onFloor` holds iff some collision rectangle overlaps the 2-pixel strip under the hit box |
| Sprites.Player.CheckCollision | sprites.py:156-167 | the player's body becomes `Resolve` over the collision group in group order |
| Sprites.Player.Move | sprites.py:132-143 | the body becomes `Moved`: step and resolve horizontally, then vertically |
| Sprites.Player.GetStatus | sprites.py:96-102 | the status becomes `StatusOf(direction, onFloor)` |
| Sprites.ToothRect | sprites.py:211-213 | a tooth's or a shell's rectangle is placed at `pos` with its bottom one tile below `pos.y` |
| Sprites.TurnedDirection | sprites.py:228-248 | moving right, a tooth turns left iff no block holds `bottomright + (1,1)` or some block holds `midright + (1,0)`; the same holds for moving left |
| Sprites.KeepsGoingOnOpenGround | sprites.py:233-240 | with ground ahead and no wall, the tooth keeps its direction |
| Sprites.Tooth.constructor | sprites.py:207-225 | the first direction is the random choice; the tooth is alive iff some collision rectangle holds the point 10 pixels below its mid-bottom |
| Sprites.Tooth.Move | sprites.py:227-251 | the direction becomes `TurnedDirection`, and the tooth then steps that way |
| Sprites.NextFrameIndex | sprites.py:31-35 | the advanced index wraps to 0 at the end, so the frame shown is always one of the frames |
| Sprites.Animated.constructor | sprites.py:25-29 | an animated sprite starts at frame 0 |
| Sprites.Animated.Animate | sprites.py:31-35 | the index becomes `NextFrameIndex` and the frame shown stays in range |
| Sprites.Particle.constructor | sprites.py:188-190 | a particle is alive, at frame 0, centred on `pos` |
| Sprites.Particle.Animate | sprites.py:192-197 | the index advances without wrapping, and the particle dies once it passes the last frame |
| Sprites.Cloud.constructor | sprites.py:42-49 | a cloud is alive with its level limit |
| Sprites.Cloud.RemoveCloud | sprites.py:55-57 | a cloud at or past the left limit is killed |
| Sprites.ShellStatusOf | sprites.py:306-310 | attack iff the player is within 500 pixels horizontally and the cooldown is inactive |
| Sprites.CycleAdvance | sprites.py:286-304 | one `animate` wraps iff the index passes the end; a pearl fires iff the shell attacks, the frame is 2 and it has not shot in this cycle; firing sets `hasShot`, and a wrap clears it |
| Sprites.OnePearlPerCycle | sprites.py:286-304 | over any run of frames, pearls fired <= wraps of the animation (+1 when it starts without having shot): at most one pearl per cycle |
| Sprites.Pearl.constructor | sprites.py:319-329 | a pearl is placed at `pos`, alive, with its 6 s timer armed at `now` |
| Sprites.Pearl.Update | sprites.py:333-340 | a pearl steps along its direction and dies exactly when 6 s have passed since it was shot |
| Sprites.Shell.constructor | sprites.py:267-284 | a shell starts idle at frame 0, has not shot, and its 2 s cooldown is inactive |
| Sprites.Shell.GetStatus | sprites.py:306-310 | the status becomes `ShellStatusOf` the player's and the shell's centres |
| Sprites.Shell.Animate | sprites.py:286-304 | the cycle state becomes `CycleAdvance`; a pearl is created iff it fires, at the centre plus the orientation's offset (-50 or +20, and -10) and flying the shell's way; a wrap after a shot arms the cooldown at `now` |
| Sprites.Shell.Update | sprites.py:312-315 | the status is `ShellStatusOf` the cooldown before the call; the cycle is `CycleAdvance`; a pearl is returned iff it fires, fresh, valid, alive, at the shell's centre plus the orientation's offset and flying the shell's way; the cooldown runs from `now` after a wrap that follows a shot, and otherwise the poll at `now` stops it iff 2000 ticks have passed since it was armed |
| Levels.LevelLimits | lavel.py:27-30 | left is -1280; right is the greatest terrain x plus 500 |
| Levels.Layers | lavel.py:83-84 | the six layers are walked in the order water, bg palms, terrain, enemies, coins, fg objects |
| Levels.BuildCollision | lavel.py:85-138 | a rectangle is in the collision group iff it comes from a terrain entry, a shell (9, 10) or the trunk of a foreground palm (11 to 14, shifted 50 right for 14); water and background palms never collide |
| Levels.BuildCoins | lavel.py:106-109 | the coins are exactly those of the entries 4, 5 and 6 (gold, silver, diamond), centred on their positions |
| Levels.ShellsCollide | lavel.py:114-119 | every shell is also in the collision group |
| Levels.GroundedToothKept | lavel.py:85-113 | a tooth walked after a land entry whose rectangle holds its ground point is kept |
| Levels.HorizonFromSky | lavel.py:101-104 | the horizon is set iff there is a sky entry, and then to the y of the last one walked |
| Levels.LastSky | lavel.py:101-104 | over the entries alone: the horizon a walk leaves is set iff some entry is the sky, and then by the last one |
| Levels.TakenKeptSplit | lavel.py:155-157 | the coins split into those the player overlaps and the rest, with nothing lost or duplicated |
| Levels.OrderCoversLayers | lavel.py:83-84 | the walk visits exactly the entries of the six layers |
| Levels.ToothOnTerrainKept | lavel.py:83-113 | terrain is walked before the enemies, so a tooth whose ground point lies on a terrain tile is kept, whatever order each layer is walked in |
| Levels.Level.constructor | lavel.py:10-45 | the limits are `LevelLimits`; the level built is `AbsorbAll` of the walk; the walk is the six layers' walks one after the other, each listing its layer's entries once; every shell holds the player; the shells and teeth are valid and as their constructors left them |
| Levels.Level.Place | lavel.py:85-143 | one entry changes the level as `Absorb`: terrain, water, player, sky, coins, spikes, tooth (kept only on ground), shells, palms |
| Levels.Level.PlaceScenery | lavel.py:89-112 | water and spikes add a standing sprite and nothing else |
| Levels.Level.PlaceSky | lavel.py:102-104 | entry 1 sets the horizon to its y |
| Levels.Level.PlaceCoin | lavel.py:106-109 | entries 4 to 6 add a coin of their kind centred on the entry |
| Levels.Level.PlaceLand | lavel.py:85-87 | a terrain entry adds a land sprite and its collision rectangle |
| Levels.Level.PlacePlayer | lavel.py:99 | entry 0 creates the player at `pos`, colliding with the level's group |
| Levels.Level.PlaceTooth | lavel.py:113 | entry 8 adds a tooth iff it finds ground in the collision group as it stands |
| Levels.Level.PlaceShell | lavel.py:114-119 | entries 9 and 10 add a left- or right-facing shell that is also a collision sprite |
| Levels.Level.PlacePalm | lavel.py:121-143 | palms 11 to 18 add a sprite; only 11 to 14 add a 76x50 trunk block |
| Levels.Level.BuildLayer | lavel.py:84-143 | the inner loop walks each entry of a layer once and builds `AbsorbAll` over that walk |
| Levels.Level.PlaceNext | lavel.py:84-143 | one pass of the inner loop: the level built grows by `Absorb` of the entry placed |
| Levels.Level.BuildLayers | lavel.py:83-143 | the outer loop walks the six layers in order |
| Levels.Level.HandPlayer | lavel.py:145-146 | every shell is handed the player; no other field of a shell changes, so the shells stay ready and the level built is unchanged |
| Levels.Level.BuildGrid | lavel.py:82-146 | the level built is `AbsorbAll` of the walk; the walk is the six layers' walks in `Layers` order, each listing its layer's entries once; every shell holds the player; shells and teeth stay ready |
| Levels.Level.BuildFrom | lavel.py:82-146 | the same over any sequence of layers |
| Levels.Level.BuildAndRecord | lavel.py:83-143 | the two loops, with the per-layer walks and their concatenation recorded |
| Levels.Level.GetCoin | lavel.py:155-161 | the coins the player overlaps leave the group; exactly one new live particle per collected coin is appended, in order and centred on it |
| Levels.Level.SpawnParticles | lavel.py:158-161 | one fresh, live particle per coin, centred on it |

## Left out

- Drawing, surfaces, images, masks, audio and music are not modelled: `drawTileLines`, `drawLevel`, `preview`, `displaySky`, `displayClouds`, `highlightIndicator`, `Button.update`, `CameraGroup`. These are rendering calls.
- Cloud spawning and drifting (`createClouds`, `startClouds`, `removeClouds`, `createCloud`, `startUpClouds`, `Cloud.move`) are random and purely visual. Only the removal rule `Cloud.removeCloud` is modelled.
- The event loops (`eventLoop`, `run`) and the reading of pygame's mouse, keyboard and clock are not modelled: the values they read are parameters of the handlers.
- `Level.getDamage` is not modelled: it uses per-pixel mask collision, which has no integer-rectangle model.
- `Player.update` and `applyGravity` are not modelled: they are the per-frame sequencing and the floating-point gravity, driven by delta time.
- `Player.animate`, `Tooth.animate` and `CanvasObject.animate` are not modelled: they choose images. `Player.animate` compares its index with `>`, so it has no frame bound to state.
- `Editor.animationUpdate` and `imports` are not modelled: they manage assets.
- settings.py, support.py and main.py are not part of this model. The settings constants are reconstructed in `registry.dfy`:
  - `TILE_SIZE` 64 and a 1280x720 window;
  - registry ids 0 to 18 with their styles and menus;
  - the eight neighbour directions A to H, clockwise from the cell above.
- Sprites.Player.Move: the two steps (`direction * speed * deltaTime` rounded) are integer parameters. Floating-point positions and pygame's `round` are not modelled.
- Sprites.Tooth.Move: the step `speed * deltaTime`, rounded, is an integer parameter.
- Sprites.Pearl.Update: the same; the pearl's `pos` is not kept apart from its rectangle.
- Sprites.Animated.Animate: the advance `ANIMATION_SPEED * deltaTime` is a non-negative real parameter. This also applies to `Particle.Animate`, `Shell.Animate` and `Shell.Update`.
- Sprites.Tooth.constructor: `random.choice((1, -1))` is the parameter `startRight`. A tooth that kills itself at spawn is not kept by the level (`Levels.Level.PlaceTooth`).
- Levels.Level.constructor: the grid's dictionary order is not fixed. The walk `order` is a ghost value, with its per-layer parts in `walks`. The contract holds for whatever order each layer's entries are visited in, each exactly once, with the layers one after the other. The same applies to `Editing.Editor.CreateGrid` and `Editing.FillLayers` over `canvasData`.
- Levels.Level.constructor: the asset sizes and animation lengths are the parameter `Assets`.
- Levels.Level.constructor: the random first direction of each tooth is a function `startsRight` of its position.
- Levels.LevelLimits: requires a non-empty terrain layer. On an empty one, `sorted(...)[-1]` raises IndexError.
- Levels.Level.BuildGrid: a grid without a player entry leaves `player` null. The source then raises AttributeError at lavel.py:146 when a shell exists.
- Levels.Level.GetCoin: requires a player.
- Editing.Editor.PanInput: on a wheel event while panning, the source moves the origin and the objects twice. The model moves them once, to the final origin. `Canvas.PannedTwice` shows the effect is the same.
- Editing.Editor.CanvasRemove: runs the object half before the tile half. The halves share no state.
- Editing.Editor.SelectObject: the source sets the drag flag inside its loop. The model computes it from the loop's outcome, to the same value.
- Editing.Editor.RefreshTile: builds a cell's neighbour code in a local (`Editing.ScanNeighbors`) from a snapshot of the store taken when `checkNeighbors` starts, and stores it once instead of appending to the field. The loop reads only the terrain and water flags, which `checkNeighbors` never changes, so the result is the same.
- Editing.Editor.CanvasAdd: creating an object also takes the size of its first frame (`frameSize`) as a parameter.
- Editing.Editor.UpdateObjects: only `drag` is modelled. The `animate` half of `CanvasObject.update` re-anchors the rectangle to a new image's mid-bottom, which depends on image sizes.
- `Editor.getCurrentPos(obj)` subtracts the origin from the object's stored distance to the origin, as written in the source (`CanvasGrid.AnchorCell`). So the cell an object is filed under depends on the current pan.
- `createGrid` takes a filed object's offset from its stored distance, not from that distance minus the origin, as written in the source (`CanvasGrid.AnchorDecoration`). Once the canvas is panned, the offset leaves the tile: `CanvasGrid.FiledOffsetNearOrigin` bounds it relative to the origin.
- `checkContent` ignores the decorations, as written in the source. A tile that holds only decorations, as `createGrid` leaves them, is marked empty by the next `removeId` at its cell, and `canvaseRemove` then deletes it (`CanvasGrid.RemovedEvictsExactlyWhenEmpty`). Only a newly created tile never reports empty (`Canvas.NewTileNotEmpty`).
- pygame `Group` iteration follows insertion order; groups are sequences.

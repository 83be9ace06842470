/**
 * menu.py: the item menu in the bottom-right corner of the editor.  Its
 * four buttons (terrain, coin, enemy, palm) each cycle through one group
 * of registry ids; the palm button also flips between its foreground and
 * background group.  Surfaces and drawing are not modelled: a button item
 * is its registry id.
 */
module Menus {
  import opened Wrappers
  import opened Geometry
  import opened Registry

  // ----------------------------------------------------------- the groups

  /** The menu names that occur in `data`. */
  function MenuNames(data: seq<Entry>): set<string>
  {
    set i | 0 <= i < |data| && data[i].menu.Some? :: data[i].menu.value
  }

  /** The ids listed under menu `m`, in registry order. */
  function IdsInMenu(data: seq<Entry>, m: string): seq<int>
  {
    if data == [] then []
    else
      var last := data[|data| - 1];
      IdsInMenu(data[..|data| - 1], m) + (if last.menu == Some(m) then [last.id] else [])
  }

  /** An id is in a group exactly when an entry with that id names that menu. */
  lemma {:induction false} IdsInMenuMembers(data: seq<Entry>, m: string, id: int)
    ensures id in IdsInMenu(data, m) <==> exists i | 0 <= i < |data| :: data[i].id == id && data[i].menu == Some(m)
  {
    if data != [] {
      var init := data[..|data| - 1];
      IdsInMenuMembers(init, m, id);
      assert forall i | 0 <= i < |init| :: init[i] == data[i];
    }
  }

  /** A group lists its ids in the order of the registry: with increasing keys, it is strictly increasing. */
  lemma {:induction false} IdsInMenuOrdered(data: seq<Entry>, m: string)
    requires forall i, j | 0 <= i < j < |data| :: data[i].id < data[j].id
    ensures forall i, j | 0 <= i < j < |IdsInMenu(data, m)| :: IdsInMenu(data, m)[i] < IdsInMenu(data, m)[j]
  {
    if data != [] {
      var init := data[..|data| - 1];
      IdsInMenuOrdered(init, m);
      var g0 := IdsInMenu(init, m);
      forall x | x in g0
        ensures x < data[|data| - 1].id
      {
        IdsInMenuMembers(init, m, x);
        var i :| 0 <= i < |init| && init[i].id == x && init[i].menu == Some(m);
        assert data[i] == init[i];
      }
      var g := IdsInMenu(data, m);
      forall i, j | 0 <= i < j < |g|
        ensures g[i] < g[j]
      {
        if j < |g0| {
          assert g[i] == g0[i] && g[j] == g0[j];
        } else {
          assert g[i] == g0[i] && g0[i] in g0;
          assert g[j] == data[|data| - 1].id;
        }
      }
    }
  }

  /** `createData`: the registry entries grouped by menu name, each group in registry order. */
  method CreateData(data: seq<Entry>) returns (groups: map<string, seq<int>>)
    ensures groups.Keys == MenuNames(data)
    ensures forall m | m in groups :: groups[m] == IdsInMenu(data, m) && groups[m] != []
  {
    groups := map[];
    var i := 0;
    while i < |data|
      invariant 0 <= i <= |data|
      invariant groups.Keys == MenuNames(data[..i])
      invariant forall m | m in groups :: groups[m] == IdsInMenu(data[..i], m) && groups[m] != []
      invariant forall m | m !in groups :: IdsInMenu(data[..i], m) == []
    {
      var e := data[i];
      assert data[..i + 1][..i] == data[..i];
      assert MenuNames(data[..i + 1]) == MenuNames(data[..i]) + (if e.menu.Some? then {e.menu.value} else {}) by {
        assert forall j | 0 <= j < i :: data[..i + 1][j] == data[..i][j];
        assert data[..i + 1][i] == e;
      }
      if e.menu.Some? {
        var m := e.menu.value;
        if m !in groups {
          groups := groups[m := [e.id]];
        } else {
          groups := groups[m := groups[m] + [e.id]];
        }
      }
      i := i + 1;
    }
    assert data[..i] == data;
  }

  /** The ids below `n` whose registry entry names menu `m`. */
  function IdsBelow(n: nat, m: string): seq<int>
    requires n <= LAST_ID + 1
  {
    if n == 0 then [] else IdsBelow(n - 1, m) + (if MenuOf(n - 1) == Some(m) then [n - 1] else [])
  }

  /** The consecutive ids `lo`, ..., `hi - 1`. */
  function Range(lo: int, hi: int): seq<int>
    decreases hi - lo
  {
    if hi <= lo then [] else Range(lo, hi - 1) + [hi - 1]
  }

  lemma {:induction false} IdsInMenuPrefix(n: nat, m: string)
    requires n <= |EDITOR_DATA|
    ensures IdsInMenu(EDITOR_DATA[..n], m) == IdsBelow(n, m)
  {
    if n > 0 {
      assert EDITOR_DATA[..n][..n - 1] == EDITOR_DATA[..n - 1];
      IdsInMenuPrefix(n - 1, m);
    }
  }

  /** A menu whose ids are the consecutive block `lo`, ..., `hi - 1` lists exactly that block. */
  lemma {:induction false} IdsBelowBlock(n: nat, m: string, lo: int, hi: int)
    requires n <= LAST_ID + 1 && 0 <= lo <= hi
    requires forall i | FIRST_ID <= i <= LAST_ID :: MenuOf(i) == Some(m) <==> lo <= i < hi
    ensures IdsBelow(n, m) == Range(lo, Min(n, hi))
  {
    if n > 0 {
      IdsBelowBlock(n - 1, m, lo, hi);
    }
  }

  /** The group of menu `m` in the registry, when its ids are the block `lo`, ..., `hi - 1`. */
  lemma EditorGroup(m: string, lo: int, hi: int)
    requires 0 <= lo <= hi <= LAST_ID + 1
    requires forall i | FIRST_ID <= i <= LAST_ID :: MenuOf(i) == Some(m) <==> lo <= i < hi
    ensures IdsInMenu(EDITOR_DATA, m) == Range(lo, hi)
  {
    assert EDITOR_DATA[..|EDITOR_DATA|] == EDITOR_DATA;
    IdsInMenuPrefix(|EDITOR_DATA|, m);
    IdsBelowBlock(|EDITOR_DATA|, m, lo, hi);
  }

  /** The registry names five menus. */
  lemma EditorMenuNames()
    ensures MenuNames(EDITOR_DATA) == {"terrain", "coin", "enemy", "palm fg", "palm bg"}
  {
    var D := EDITOR_DATA;
    assert D[2].menu == Some("terrain") && D[4].menu == Some("coin") && D[7].menu == Some("enemy");
    assert D[11].menu == Some("palm fg") && D[15].menu == Some("palm bg");
    forall x | x in MenuNames(D)
      ensures x in {"terrain", "coin", "enemy", "palm fg", "palm bg"}
    {
      var i :| 0 <= i < |D| && D[i].menu.Some? && D[i].menu.value == x;
      assert MenuOf(i) == D[i].menu;
    }
  }

  /** The registry's five groups. */
  lemma EditorGroups()
    ensures IdsInMenu(EDITOR_DATA, "terrain") == [2, 3]
    ensures IdsInMenu(EDITOR_DATA, "coin") == [4, 5, 6]
    ensures IdsInMenu(EDITOR_DATA, "enemy") == [7, 8, 9, 10]
    ensures IdsInMenu(EDITOR_DATA, "palm fg") == [11, 12, 13, 14]
    ensures IdsInMenu(EDITOR_DATA, "palm bg") == [15, 16, 17, 18]
  {
    EditorGroup("terrain", 2, 4);
    EditorGroup("coin", 4, 7);
    EditorGroup("enemy", 7, 11);
    EditorGroup("palm fg", 11, 15);
    EditorGroup("palm bg", 15, 19);
  }

  // ------------------------------------------------------------- buttons

  /** `switch`: the next item, wrapping to the first after the last. */
  function NextIndex(i: int, n: int): (r: int)
    requires 0 <= i < n
    ensures 0 <= r < n && r == (i + 1) % n
  {
    if i < n - 1 then i + 1 else 0
  }

  /** The index after `k` switches. */
  function SwitchedTimes(i: int, n: int, k: nat): int
    requires 0 <= i < n
  {
    if k == 0 then i else NextIndex(SwitchedTimes(i, n, k - 1), n)
  }

  /** Up to `n` switches advance the index by one each, wrapping once; `n` switches come back to the start. */
  lemma {:induction false} SwitchCycles(i: int, n: int, k: nat)
    requires 0 <= i < n && k <= n
    ensures SwitchedTimes(i, n, k) == if i + k < n then i + k else i + k - n
    ensures k == n ==> SwitchedTimes(i, n, k) == i
  {
    if k > 0 {
      SwitchCycles(i, n, k - 1);
    }
  }

  class Button {
    const rect: Rect
    const main: seq<int>
    const alt: Option<seq<int>>
    var index: int
    var mainActive: bool

    /** The alternative group, when present, is as long as the main one, so the index fits either. */
    ghost predicate Valid()
      reads this
    {
      |main| > 0 && (alt.Some? ==> |alt.value| == |main|) && (alt.None? ==> mainActive) && 0 <= index < |main|
    }

    /** The group currently shown. */
    function Items(): seq<int>
      reads this
      requires alt.None? ==> mainActive
    {
      if mainActive then main else alt.value
    }

    constructor (rect: Rect, main: seq<int>, alt: Option<seq<int>>)
      requires |main| > 0 && (alt.Some? ==> |alt.value| == |main|)
      ensures this.rect == rect && this.main == main && this.alt == alt
      ensures index == 0 && mainActive
      ensures Valid()
    {
      this.rect := rect;
      this.main := main;
      this.alt := alt;
      index := 0;
      mainActive := true;
    }

    /** `get_id`: the id of the shown item, taken from whichever group is active. */
    function GetId(): (r: int)
      reads this
      requires Valid()
      ensures r in Items()
      ensures mainActive ==> r in main
      ensures !mainActive ==> alt.Some? && r in alt.value
    {
      Items()[index]
    }

    /** `switch` */
    method Switch()
      requires Valid()
      modifies this
      ensures Valid() && mainActive == old(mainActive)
      ensures index == NextIndex(old(index), |Items()|)
    {
      if index < |Items()| - 1 {
        index := index + 1;
      } else {
        index := 0;
      }
    }

    /** A middle click flips between the groups; a button without an alternative stays on its main group. */
    method Toggle()
      requires Valid()
      modifies this
      ensures Valid() && index == old(index)
      ensures mainActive == (alt.None? || !old(mainActive))
    {
      mainActive := if alt.Some? then !mainActive else true;
    }
  }

  // -------------------------------------------------------------- layout

  const MENU_SIZE := 180
  const MENU_MARGIN := 6
  const BUTTON_MARGIN := 5

  /** The menu area: a square in the bottom-right corner of the window. */
  const MENU_RECT := Rect(WINDOW_WIDTH - MENU_SIZE - MENU_MARGIN, WINDOW_HEIGHT - MENU_SIZE - MENU_MARGIN, MENU_SIZE, MENU_SIZE)

  /** The button in quarter (`col`, `row`) of the menu, shrunk by the button margin. */
  function ButtonRect(col: int, row: int): Rect
  {
    Rect(MENU_RECT.x, MENU_RECT.y, MENU_SIZE / 2, MENU_SIZE / 2)
      .Move(col * (MENU_SIZE / 2), row * (MENU_SIZE / 2))
      .Inflate(-BUTTON_MARGIN, -BUTTON_MARGIN)
  }

  /** The button rectangles, in the order `createButtons` builds them: terrain, coin, enemy, palm. */
  const BUTTON_RECTS := [ButtonRect(0, 0), ButtonRect(1, 0), ButtonRect(0, 1), ButtonRect(1, 1)]

  predicate Inside(inner: Rect, outer: Rect)
  {
    outer.Left() <= inner.Left() && inner.Right() <= outer.Right() &&
    outer.Top() <= inner.Top() && inner.Bottom() <= outer.Bottom()
  }

  /** The four buttons lie inside the menu, do not overlap, and no point lies in two of them. */
  lemma MenuLayout()
    ensures MENU_RECT == Rect(1094, 534, 180, 180)
    ensures ButtonRect(0, 0) == Rect(1096, 536, 85, 85)
    ensures forall k | 0 <= k < 4 :: Inside(BUTTON_RECTS[k], MENU_RECT)
    ensures forall j, k | 0 <= j < k < 4 :: !BUTTON_RECTS[j].Collides(BUTTON_RECTS[k])
    ensures forall j, k, p | 0 <= j < k < 4 && BUTTON_RECTS[j].ContainsPoint(p) :: !BUTTON_RECTS[k].ContainsPoint(p)
  {
  }

  /** The groups the four buttons are built from, as `createData` files them from the registry. */
  method MenuGroups() returns (terrain: seq<int>, coin: seq<int>, enemy: seq<int>, fg: seq<int>, bg: seq<int>)
    ensures terrain == [2, 3] && coin == [4, 5, 6] && enemy == [7, 8, 9, 10]
    ensures fg == [11, 12, 13, 14] && bg == [15, 16, 17, 18]
  {
    var groups := CreateData(EDITOR_DATA);
    EditorMenuNames();
    EditorGroups();
    assert "terrain" in groups && "coin" in groups && "enemy" in groups;
    assert "palm fg" in groups && "palm bg" in groups;
    terrain, coin, enemy, fg, bg := groups["terrain"], groups["coin"], groups["enemy"], groups["palm fg"], groups["palm bg"];
  }

  class Menu {
    /** Terrain, coin, enemy and palm, in that order. */
    const buttons: seq<Button>

    ghost predicate Valid()
      reads this, buttons
    {
      && |buttons| == 4
      && (forall j, k | 0 <= j < k < 4 :: buttons[j] != buttons[k])
      && (forall k | 0 <= k < 4 :: buttons[k].Valid() && buttons[k].rect == BUTTON_RECTS[k])
      && (forall k, id | 0 <= k < 4 && id in buttons[k].main :: 2 <= id <= LAST_ID)
      && (forall k, id | 0 <= k < 4 && buttons[k].alt.Some? && id in buttons[k].alt.value :: 2 <= id <= LAST_ID)
    }

    /** `createData` then `createButtons`: the palm button shows the foreground palms, with the background ones as its alternative. */
    constructor ()
      ensures Valid() && fresh(buttons)
      ensures buttons[0].main == [2, 3] && buttons[0].alt.None?
      ensures buttons[1].main == [4, 5, 6] && buttons[1].alt.None?
      ensures buttons[2].main == [7, 8, 9, 10] && buttons[2].alt.None?
      ensures buttons[3].main == [11, 12, 13, 14] && buttons[3].alt == Some([15, 16, 17, 18])
    {
      var terrainIds, coinIds, enemyIds, fgIds, bgIds := MenuGroups();
      var tile := new Button(BUTTON_RECTS[0], terrainIds, None);
      var coin := new Button(BUTTON_RECTS[1], coinIds, None);
      var enemy := new Button(BUTTON_RECTS[2], enemyIds, None);
      var palm := new Button(BUTTON_RECTS[3], fgIds, Some(bgIds));
      var bs := [tile, coin, enemy, palm];
      forall k | 0 <= k < 4
        ensures bs[k].Valid() && bs[k].rect == BUTTON_RECTS[k]
        ensures forall id | id in bs[k].main :: 2 <= id <= LAST_ID
        ensures bs[k].alt.Some? ==> forall id | id in bs[k].alt.value :: 2 <= id <= LAST_ID
      {
      }
      buttons := bs;
    }

    /**
     * `click`: the first button under the mouse (`hit`) is toggled by a
     * middle click and switched by a right click, and its shown id is
     * returned; no button under the mouse returns None.  `hit` is 4 then.
     */
    method Click(mouse: Point, middle: bool, right: bool) returns (r: Option<int>, ghost hit: int)
      requires Valid()
      modifies buttons
      ensures Valid()
      ensures 0 <= hit <= 4
      ensures forall k | 0 <= k < hit :: !buttons[k].rect.ContainsPoint(mouse)
      ensures hit < 4 ==> buttons[hit].rect.ContainsPoint(mouse)
      ensures r.Some? <==> hit < 4
      ensures forall k | 0 <= k < 4 && k != hit :: buttons[k].index == old(buttons[k].index) && buttons[k].mainActive == old(buttons[k].mainActive)
      ensures hit < 4 ==>
        var b := buttons[hit];
        && b.mainActive == (if middle then b.alt.None? || !old(b.mainActive) else old(b.mainActive))
        && b.index == (if right then NextIndex(old(b.index), |b.Items()|) else old(b.index))
        && r.value == b.GetId()
        && 2 <= r.value <= LAST_ID
    {
      var i := 0;
      while i < 4
        invariant 0 <= i <= 4
        invariant forall k | 0 <= k < i :: !buttons[k].rect.ContainsPoint(mouse)
        invariant forall k | 0 <= k < 4 :: buttons[k].index == old(buttons[k].index) && buttons[k].mainActive == old(buttons[k].mainActive)
      {
        var b := buttons[i];
        if b.rect.ContainsPoint(mouse) {
          if middle {
            b.Toggle();
          }
          if right {
            b.Switch();
          }
          r, hit := Some(b.GetId()), i;
          return;
        }
        i := i + 1;
      }
      r, hit := None, 4;
    }
  }
}

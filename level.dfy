/**
 * lavel.py, the level built from an exported grid: `levelLimits`, the
 * `buildGrid` dispatch that turns every `(pos, data)` entry of every layer
 * into sprites and group memberships, and `getCoin`.
 *
 * The sprites that later change (the player, the teeth, the shells, the
 * particles) are objects; the ones that only stand and animate (land, water,
 * spikes, palms) are kept as values, and so are the coins, which the level
 * only collects.
 */
module Levels {
  import opened Wrappers
  import opened Geometry
  import opened Registry
  import opened Extrema
  import opened CanvasGrid
  import opened Sprites

  // -------------------------------------------------------------- limits

  datatype Limits = Limits(left: int, right: int)

  /** The x coordinates of the terrain layer's entries. */
  function TerrainXs(g: Grid): set<int>
  {
    set p | p in g.terrain :: p.x
  }

  /**
   * `levelLimits`: a window width to the left of the origin, and 500 pixels
   * past the rightmost terrain tile.  An empty terrain layer makes the
   * source's `sorted(...)[-1]` fail, hence the precondition.
   */
  function LevelLimits(g: Grid): (l: Limits)
    requires g.terrain != map[]
    ensures l.left == -WINDOW_WIDTH
    ensures exists p | p in g.terrain :: l.right == p.x + 500
    ensures forall p | p in g.terrain :: p.x + 500 <= l.right
  {
    assert forall p | p in g.terrain :: p.x in TerrainXs(g);
    assert TerrainXs(g) != {} by {
      var p :| p in g.terrain;
      assert p.x in TerrainXs(g);
    }
    Limits(-WINDOW_WIDTH, Greatest(TerrainXs(g)) + 500)
  }

  // --------------------------------------------------------------- items

  /** One `(pos, data)` entry of a layer; land and water carry strings, the other layers type ids. */
  datatype Item = LandItem(pos: Point, tile: string) | WaterItem(pos: Point, kind: string) | IdItem(pos: Point, id: int)

  /** Every entry of a layer carries its own position. */
  predicate Keyed(m: map<Point, Item>)
  {
    forall q | q in m :: m[q].pos == q
  }

  /** The layers in the order `createGrid` builds them (and `buildGrid` walks them). */
  function Layers(g: Grid): (ls: seq<map<Point, Item>>)
    ensures |ls| == 6 && forall i | 0 <= i < 6 :: Keyed(ls[i])
  {
    [ map p | p in g.water :: WaterItem(p, g.water[p]),
      map p | p in g.bgPalms :: IdItem(p, g.bgPalms[p]),
      map p | p in g.terrain :: LandItem(p, g.terrain[p]),
      map p | p in g.enemies :: IdItem(p, g.enemies[p]),
      map p | p in g.coins :: IdItem(p, g.coins[p]),
      map p | p in g.fgObjects :: IdItem(p, g.fgObjects[p]) ]
  }

  /** `o` walks the layer `m` once: each entry exactly once, in some order. */
  predicate Lists(m: map<Point, Item>, o: seq<Item>)
  {
    |o| == |m| &&
    (forall i | 0 <= i < |o| :: o[i].pos in m && m[o[i].pos] == o[i]) &&
    (forall p | p in m :: m[p] in o)
  }

  /** `o` has walked the entries of `m` at the positions in `done`, each once. */
  predicate Walked(m: map<Point, Item>, o: seq<Item>, done: set<Point>)
  {
    |o| == |done| &&
    (forall i | 0 <= i < |o| :: o[i].pos in done && o[i].pos in m && m[o[i].pos] == o[i]) &&
    (forall p | p in done :: p in m && m[p] in o)
  }

  lemma WalkedStep(m: map<Point, Item>, o: seq<Item>, done: set<Point>, p: Point)
    requires Walked(m, o, done) && p in m && p !in done
    requires Keyed(m)
    ensures Walked(m, o + [m[p]], done + {p})
  {
    assert |done + {p}| == |done| + 1;
  }

  lemma ListsExtend(layers: seq<map<Point, Item>>, walks: seq<seq<Item>>, o: seq<Item>)
    requires |walks| < |layers|
    requires forall j | 0 <= j < |walks| :: Lists(layers[j], walks[j])
    requires Lists(layers[|walks|], o)
    ensures forall j | 0 <= j < |walks| + 1 :: Lists(layers[j], (walks + [o])[j])
  {
    forall j | 0 <= j < |walks| + 1
      ensures Lists(layers[j], (walks + [o])[j])
    {
      if j < |walks| {
        assert (walks + [o])[j] == walks[j];
      }
    }
  }

  /** The walks of the six layers, one after the other. */
  function Concat(os: seq<seq<Item>>): seq<Item>
  {
    if os == [] then [] else Concat(os[..|os| - 1]) + os[|os| - 1]
  }

  // ------------------------------------------------------------ entities

  datatype CoinKind = Gold | Silver | Diamond

  function CoinKindOf(id: int): CoinKind
  {
    if id == 4 then Gold else if id == 5 then Silver else Diamond
  }

  /** The sprites that only stand and animate. */
  datatype Scenery =
    | LandSprite(pos: Point, tile: string)
    | WaterSprite(pos: Point, animated: bool)
    | SpikesSprite(pos: Point)
    | PalmSprite(pos: Point, id: int, background: bool)

  datatype CoinSprite = CoinSprite(kind: CoinKind, rect: Rect)

  datatype ShellSpawn = ShellSpawn(orientation: Orientation, rect: Rect)

  /** The sizes of the images the sprites take their rectangles from, and the animation lengths. */
  datatype Assets = Assets(
    land: string -> Size,
    player: Size,
    tooth: Size,
    shell: Size,
    coin: CoinKind -> Size,
    particle: Size,
    shellIdleFrames: nat,
    shellAttackFrames: nat,
    particleFrames: nat)

  predicate AssetsValid(a: Assets)
  {
    a.shellIdleFrames > 0 && a.shellAttackFrames > 0 && a.particleFrames > 0
  }

  /** The trunk of a foreground palm: a 76 by 50 block, 50 pixels to the right for the right-leaning palm. */
  function PalmBlock(p: Point, id: int): Rect
  {
    if id == 14 then Rect(p.x + 50, p.y, 76, 50) else Rect(p.x, p.y, 76, 50)
  }

  predicate IsShell(it: Item) { it.IdItem? && (it.id == 9 || it.id == 10) }
  predicate IsPalmFg(it: Item) { it.IdItem? && 11 <= it.id <= 14 }
  predicate IsSky(it: Item) { it.IdItem? && it.id == 1 }
  predicate IsCoin(it: Item) { it.IdItem? && 4 <= it.id <= 6 }

  /** The collision sprites one entry adds: land, shells and the trunks of foreground palms. */
  function CollisionOf(it: Item, a: Assets): seq<Rect>
  {
    match it
    case LandItem(p, tile) => [RectAt(p, a.land(tile))]
    case WaterItem(_, _) => []
    case IdItem(p, id) =>
      if id == 9 || id == 10 then [ToothRect(p, a.shell)]
      else if 11 <= id <= 14 then [PalmBlock(p, id)]
      else []
  }

  function SceneryOf(it: Item): seq<Scenery>
  {
    match it
    case LandItem(p, tile) => [LandSprite(p, tile)]
    case WaterItem(p, kind) => [WaterSprite(p, kind == "top")]
    case IdItem(p, id) =>
      if id == 7 then [SpikesSprite(p)]
      else if 11 <= id <= 18 then [PalmSprite(p, id, id >= 15)]
      else []
  }

  function CoinsOf(it: Item, a: Assets): seq<CoinSprite>
  {
    if IsCoin(it) then [CoinSprite(CoinKindOf(it.id), RectCenteredAt(it.pos, a.coin(CoinKindOf(it.id))))] else []
  }

  function ShellsOfItem(it: Item, a: Assets): seq<ShellSpawn>
  {
    if IsShell(it) then [ShellSpawn(if it.id == 9 then FacingLeft else FacingRight, ToothRect(it.pos, a.shell))] else []
  }

  /** What the level holds, as values: the collision group, the standing sprites, the coins, the horizon, the player's, shells' and teeth's rectangles. */
  datatype Stage = Stage(
    collision: seq<Rect>,
    scenery: seq<Scenery>,
    coins: seq<CoinSprite>,
    horizonY: Option<int>,
    player: Option<Rect>,
    shells: seq<ShellSpawn>,
    teeth: seq<Rect>)

  const EMPTY_STAGE := Stage([], [], [], None, None, [], [])

  /**
   * One entry of `buildGrid`.  A tooth is kept only when it finds ground in
   * the collision group as it stands when the tooth is built; the others
   * kill themselves at once.
   */
  function Absorb(s: Stage, it: Item, a: Assets): Stage
  {
    Stage(
      s.collision + CollisionOf(it, a),
      s.scenery + SceneryOf(it),
      s.coins + CoinsOf(it, a),
      if IsSky(it) then Some(it.pos.y) else s.horizonY,
      if it.IdItem? && it.id == 0 then Some(RectAt(it.pos, a.player)) else s.player,
      s.shells + ShellsOfItem(it, a),
      if it.IdItem? && it.id == 8 && HasGround(ToothRect(it.pos, a.tooth), s.collision)
      then s.teeth + [ToothRect(it.pos, a.tooth)] else s.teeth)
  }

  /** The entries in the order they are walked. */
  function AbsorbAll(s: Stage, items: seq<Item>, a: Assets): Stage
  {
    if items == [] then s else Absorb(AbsorbAll(s, items[..|items| - 1], a), items[|items| - 1], a)
  }

  /** The collision rectangles of a walk, entry by entry. */
  function CollisionOfAll(items: seq<Item>, a: Assets): seq<Rect>
  {
    if items == [] then [] else CollisionOfAll(items[..|items| - 1], a) + CollisionOf(items[|items| - 1], a)
  }

  function CoinsOfAll(items: seq<Item>, a: Assets): seq<CoinSprite>
  {
    if items == [] then [] else CoinsOfAll(items[..|items| - 1], a) + CoinsOf(items[|items| - 1], a)
  }

  function ShellsOfAll(items: seq<Item>, a: Assets): seq<ShellSpawn>
  {
    if items == [] then [] else ShellsOfAll(items[..|items| - 1], a) + ShellsOfItem(items[|items| - 1], a)
  }

  // -------------------------------------------------------------- lemmas

  /** Walking two stretches one after the other is walking their concatenation. */
  lemma {:induction false} AbsorbAllAppend(s: Stage, o1: seq<Item>, o2: seq<Item>, a: Assets)
    ensures AbsorbAll(AbsorbAll(s, o1, a), o2, a) == AbsorbAll(s, o1 + o2, a)
    decreases |o2|
  {
    if o2 == [] {
      assert o1 + o2 == o1;
    } else {
      assert (o1 + o2)[..|o1 + o2| - 1] == o1 + o2[..|o2| - 1];
      assert (o1 + o2)[|o1 + o2| - 1] == o2[|o2| - 1];
      AbsorbAllAppend(s, o1, o2[..|o2| - 1], a);
    }
  }

  /** The collision group of a walk grows entry by entry, each by that entry's share. */
  lemma {:induction false} AbsorbAllCollision(s: Stage, items: seq<Item>, a: Assets)
    ensures AbsorbAll(s, items, a).collision == s.collision + CollisionOfAll(items, a)
  {
    if items != [] {
      AbsorbAllCollision(s, items[..|items| - 1], a);
    }
  }

  /** So do the coins. */
  lemma {:induction false} AbsorbAllCoins(s: Stage, items: seq<Item>, a: Assets)
    ensures AbsorbAll(s, items, a).coins == s.coins + CoinsOfAll(items, a)
  {
    if items != [] {
      AbsorbAllCoins(s, items[..|items| - 1], a);
    }
  }

  /** And the shells. */
  lemma {:induction false} AbsorbAllShells(s: Stage, items: seq<Item>, a: Assets)
    ensures AbsorbAll(s, items, a).shells == s.shells + ShellsOfAll(items, a)
  {
    if items != [] {
      AbsorbAllShells(s, items[..|items| - 1], a);
    }
  }

  /** A rectangle is in the collision rectangles of a walk iff one of its entries contributes it. */
  lemma {:induction false} CollisionOfAllMembers(items: seq<Item>, a: Assets, r: Rect)
    ensures r in CollisionOfAll(items, a) <==> exists k | 0 <= k < |items| :: r in CollisionOf(items[k], a)
  {
    if items != [] {
      var prefix := items[..|items| - 1];
      CollisionOfAllMembers(prefix, a, r);
      if r in CollisionOfAll(items, a) && r !in CollisionOf(items[|items| - 1], a) {
        var k :| 0 <= k < |prefix| && r in CollisionOf(prefix[k], a);
        assert items[k] == prefix[k];
      }
      if exists k | 0 <= k < |items| :: r in CollisionOf(items[k], a) {
        var k :| 0 <= k < |items| && r in CollisionOf(items[k], a);
        if k < |prefix| {
          assert prefix[k] == items[k];
        }
      }
    }
  }

  /** A coin is in the coins of a walk iff one of its entries contributes it. */
  lemma {:induction false} CoinsOfAllMembers(items: seq<Item>, a: Assets, c: CoinSprite)
    ensures c in CoinsOfAll(items, a) <==> exists k | 0 <= k < |items| :: c in CoinsOf(items[k], a)
  {
    if items != [] {
      var prefix := items[..|items| - 1];
      CoinsOfAllMembers(prefix, a, c);
      if c in CoinsOfAll(items, a) && c !in CoinsOf(items[|items| - 1], a) {
        var k :| 0 <= k < |prefix| && c in CoinsOf(prefix[k], a);
        assert items[k] == prefix[k];
      }
      if exists k | 0 <= k < |items| :: c in CoinsOf(items[k], a) {
        var k :| 0 <= k < |items| && c in CoinsOf(items[k], a);
        if k < |prefix| {
          assert prefix[k] == items[k];
        }
      }
    }
  }

  /**
   * The collision group built from an empty level holds exactly: one
   * rectangle per land entry, one per shell, and one trunk block per
   * foreground palm (ids 11 to 14).  Water, coins, enemies other than
   * shells, background palms, the player and the sky add nothing.
   */
  lemma BuildCollision(items: seq<Item>, a: Assets, r: Rect)
    ensures r in AbsorbAll(EMPTY_STAGE, items, a).collision <==>
      exists k | 0 <= k < |items| ::
        || (items[k].LandItem? && r == RectAt(items[k].pos, a.land(items[k].tile)))
        || (IsShell(items[k]) && r == ToothRect(items[k].pos, a.shell))
        || (IsPalmFg(items[k]) && r == PalmBlock(items[k].pos, items[k].id))
  {
    AbsorbAllCollision(EMPTY_STAGE, items, a);
    CollisionOfAllMembers(items, a, r);
    assert AbsorbAll(EMPTY_STAGE, items, a).collision == CollisionOfAll(items, a);
  }

  /** The coins built from an empty level are exactly those of the coin entries (ids 4, 5 and 6), centred on their positions. */
  lemma BuildCoins(items: seq<Item>, a: Assets, c: CoinSprite)
    ensures c in AbsorbAll(EMPTY_STAGE, items, a).coins <==>
      exists k | 0 <= k < |items| ::
        IsCoin(items[k]) && c == CoinSprite(CoinKindOf(items[k].id), RectCenteredAt(items[k].pos, a.coin(CoinKindOf(items[k].id))))
  {
    AbsorbAllCoins(EMPTY_STAGE, items, a);
    CoinsOfAllMembers(items, a, c);
    assert AbsorbAll(EMPTY_STAGE, items, a).coins == CoinsOfAll(items, a);
  }

  /** Every shell of a walk stands in the collision rectangles of the same walk. */
  lemma {:induction false} ShellsCollide(items: seq<Item>, a: Assets, j: int)
    requires 0 <= j < |ShellsOfAll(items, a)|
    ensures ShellsOfAll(items, a)[j].rect in CollisionOfAll(items, a)
  {
    var prefix := items[..|items| - 1];
    var last := items[|items| - 1];
    if j < |ShellsOfAll(prefix, a)| {
      ShellsCollide(prefix, a, j);
    } else {
      assert IsShell(last);
    }
  }

  /** A tooth walked after a land entry that holds its ground point is kept. */
  lemma {:induction false} GroundedToothKept(items: seq<Item>, k: int, i: int, a: Assets)
    requires 0 <= k < i < |items|
    requires items[i] == IdItem(items[i].pos, 8) && items[k].LandItem?
    requires RectAt(items[k].pos, a.land(items[k].tile)).ContainsPoint(ToothRect(items[i].pos, a.tooth).MidBottom().Plus(Point(0, 10)))
    ensures ToothRect(items[i].pos, a.tooth) in AbsorbAll(EMPTY_STAGE, items, a).teeth
  {
    var prefix := items[..|items| - 1];
    if i < |items| - 1 {
      GroundedToothKept(prefix, k, i, a);
    } else {
      var land := RectAt(items[k].pos, a.land(items[k].tile));
      BuildCollision(prefix, a, land);
      assert prefix[k] == items[k];
      var rects := AbsorbAll(EMPTY_STAGE, prefix, a).collision;
      var j :| 0 <= j < |rects| && rects[j] == land;
      assert HasGround(ToothRect(items[i].pos, a.tooth), rects);
    }
  }

  /** The horizon a walk leaves: that of its last sky entry, if any. */
  function HorizonAfter(items: seq<Item>): Option<int>
  {
    if items == [] then None
    else if IsSky(items[|items| - 1]) then Some(items[|items| - 1].pos.y)
    else HorizonAfter(items[..|items| - 1])
  }

  /** Building from an empty level leaves the horizon `HorizonAfter` the walk. */
  lemma {:induction false} AbsorbAllHorizon(items: seq<Item>, a: Assets)
    ensures AbsorbAll(EMPTY_STAGE, items, a).horizonY == HorizonAfter(items)
  {
    if items != [] {
      AbsorbAllHorizon(items[..|items| - 1], a);
    }
  }

  /** The horizon is set iff there is a sky entry, and then by the last one walked. */
  lemma {:induction false} HorizonFromSky(items: seq<Item>, a: Assets)
    ensures var h := AbsorbAll(EMPTY_STAGE, items, a).horizonY;
      && (h.Some? <==> exists k | 0 <= k < |items| :: IsSky(items[k]))
      && (h.Some? ==> exists k | 0 <= k < |items| ::
            && IsSky(items[k]) && items[k].pos.y == h.value
            && forall j | k < j < |items| :: !IsSky(items[j]))
  {
    AbsorbAllHorizon(items, a);
    LastSky(items);
  }

  /** `HorizonAfter` is set iff some entry is a sky entry, and then by the last of them. */
  lemma {:induction false} LastSky(items: seq<Item>)
    ensures var h := HorizonAfter(items);
      && (h.Some? <==> exists k | 0 <= k < |items| :: IsSky(items[k]))
      && (h.Some? ==> exists k | 0 <= k < |items| ::
            && IsSky(items[k]) && items[k].pos.y == h.value
            && forall j | k < j < |items| :: !IsSky(items[j]))
  {
    if items != [] {
      var prefix := items[..|items| - 1];
      var last := |items| - 1;
      var h := HorizonAfter(items);
      LastSky(prefix);
      assert forall k | 0 <= k < |prefix| :: prefix[k] == items[k];
      if IsSky(items[last]) {
        assert IsSky(items[last]) && items[last].pos.y == h.value;
      } else if h.Some? {
        var k :| 0 <= k < |prefix| && IsSky(prefix[k]) && prefix[k].pos.y == h.value
          && forall j | k < j < |prefix| :: !IsSky(prefix[j]);
        assert IsSky(items[k]) && items[k].pos.y == h.value && forall j | k < j < |items| :: !IsSky(items[j]);
      }
    }
  }

  // --------------------------------------------------------------- coins

  /** `spritecollide(player, coinSprites, True)`: the coins the player's rectangle overlaps, in group order. */
  function Taken(cs: seq<CoinSprite>, r: Rect): seq<CoinSprite>
  {
    if cs == [] then [] else Taken(cs[..|cs| - 1], r) + (if r.Collides(cs[|cs| - 1].rect) then [cs[|cs| - 1]] else [])
  }

  /** The coins it leaves in the group. */
  function Kept(cs: seq<CoinSprite>, r: Rect): seq<CoinSprite>
  {
    if cs == [] then [] else Kept(cs[..|cs| - 1], r) + (if r.Collides(cs[|cs| - 1].rect) then [] else [cs[|cs| - 1]])
  }

  /** The collected and the remaining coins split the group: nothing is lost or duplicated. */
  lemma {:induction false} TakenKeptSplit(cs: seq<CoinSprite>, r: Rect)
    ensures multiset(Taken(cs, r)) + multiset(Kept(cs, r)) == multiset(cs)
    ensures forall c | c in Taken(cs, r) :: r.Collides(c.rect)
    ensures forall c | c in Kept(cs, r) :: !r.Collides(c.rect)
  {
    if cs != [] {
      var prefix := cs[..|cs| - 1];
      TakenKeptSplit(prefix, r);
      assert cs == prefix + [cs[|cs| - 1]];
    }
  }

  // --------------------------------------------------------------- level

  function ShellsOf(ss: seq<Shell>): seq<ShellSpawn>
  {
    seq(|ss|, i requires 0 <= i < |ss| => ShellSpawn(ss[i].orientation, ss[i].rect))
  }

  function TeethRects(ts: seq<Tooth>): seq<Rect>
    reads ts
  {
    seq(|ts|, i reads ts requires 0 <= i < |ts| => ts[i].rect)
  }

  /** A particle just spawned for coin `c`: alive, at its first frame, centred on the coin. */
  ghost predicate Sparkles(p: Particle, c: CoinSprite, size: Size)
    reads p
  {
    p.alive && p.Valid() && p.frameIndex == 0.0 && p.rect == RectCenteredAt(c.rect.Center(), size)
  }

  class Level {
    const collision: CollisionGroup
    const limits: Limits
    var scenery: seq<Scenery>
    var coins: seq<CoinSprite>
    var horizonY: Option<int>
    var player: Player?
    var shells: seq<Shell>
    var teeth: seq<Tooth>
    var particles: seq<Particle>
    /** The order `buildGrid` walked the entries in (the dictionaries' iteration order). */
    ghost var order: seq<Item>
    /** That order layer by layer: `order` is their concatenation. */
    ghost var walks: seq<seq<Item>>

    /** The player and the teeth collide with the level's own collision group. */
    ghost predicate Valid()
      reads this`player, this`teeth, player, teeth
    {
      (player != null ==> player.collision == collision) &&
      forall t | t in teeth :: t.collision == collision
    }

    /** The shells and the teeth are as their constructors left them: valid, shells idle at frame 0 with the cooldown off, teeth alive. */
    ghost predicate SpritesReady()
      reads this`shells, this`teeth, shells, set s | s in shells :: s.attackCoolDown, teeth
    {
      (forall s | s in shells ::
        s.Valid() && s.status == ShellIdle && s.frameIndex == 0.0 && !s.hasShot && !s.attackCoolDown.active) &&
      forall t | t in teeth :: t.Valid() && t.alive
    }

    function Built(): Stage
      reads this`scenery, this`coins, this`horizonY, this`player, this`shells, this`teeth, collision, player, teeth
    {
      Stage(collision.rects, scenery, coins, horizonY,
        if player == null then None else Some(player.rect),
        ShellsOf(shells), TeethRects(teeth))
    }

    /** `Level.__init__` without the sounds and the clouds: the limits, then `buildGrid`. */
    constructor (g: Grid, a: Assets, startsRight: Point -> bool)
      requires g.terrain != map[] && AssetsValid(a)
      ensures limits == LevelLimits(g)
      ensures Valid() && SpritesReady() && particles == []
      ensures Built() == AbsorbAll(EMPTY_STAGE, order, a)
      ensures |walks| == 6 && (forall j | 0 <= j < 6 :: Lists(Layers(g)[j], walks[j])) && order == Concat(walks)
      ensures forall it :: it in order <==> exists i | 0 <= i < 6 :: it in Layers(g)[i].Values
      ensures forall s | s in shells :: s.player == player
    {
      limits := LevelLimits(g);
      collision := new CollisionGroup();
      scenery, coins, horizonY, player, shells, teeth, particles := [], [], None, null, [], [], [];
      new;
      assert Built() == EMPTY_STAGE;
      BuildGrid(g, a, startsRight);
    }

    /** One entry of `buildGrid`: its sprites, by layer and by type id. */
    method Place(it: Item, a: Assets, startRight: bool)
      requires Valid() && SpritesReady() && AssetsValid(a)
      modifies this`scenery, this`coins, this`horizonY, this`player, this`shells, this`teeth, collision
      ensures Valid() && SpritesReady()
      ensures Built() == Absorb(old(Built()), it, a)
      ensures forall s | s in shells :: s in old(shells) || fresh(s)
    {
      match it
      case LandItem(p, tile) =>
        PlaceLand(p, tile, a);
      case WaterItem(p, kind) =>
        PlaceScenery(it, a);
      case IdItem(p, id) =>
        if id == 0 {
          PlacePlayer(p, a);
        } else if id == 1 {
          PlaceSky(p, a);
        } else if 4 <= id <= 6 {
          PlaceCoin(p, id, a);
        } else if id == 7 {
          PlaceScenery(it, a);
        } else if id == 8 {
          PlaceTooth(p, a, startRight);
        } else if id == 9 || id == 10 {
          PlaceShell(p, id, a);
        } else if 11 <= id <= 18 {
          PlacePalm(p, id);
        }
    }

    /** Water and spikes: a standing sprite and nothing else. */
    method PlaceScenery(it: Item, a: Assets)
      requires it.WaterItem? || (it.IdItem? && it.id == 7)
      modifies this`scenery
      ensures Built() == Absorb(old(Built()), it, a)
    {
      scenery := scenery + SceneryOf(it);
    }

    /** Data 1: the sky handle sets the horizon. */
    method PlaceSky(p: Point, a: Assets)
      modifies this`horizonY
      ensures Built() == Absorb(old(Built()), IdItem(p, 1), a)
    {
      horizonY := Some(p.y);
    }

    /** Data 4 to 6: a coin centred on the entry's position. */
    method PlaceCoin(p: Point, id: int, a: Assets)
      requires 4 <= id <= 6
      modifies this`coins
      ensures Built() == Absorb(old(Built()), IdItem(p, id), a)
    {
      coins := coins + [CoinSprite(CoinKindOf(id), RectCenteredAt(p, a.coin(CoinKindOf(id))))];
    }

    /** A land tile: a sprite that is also a collision sprite. */
    method PlaceLand(p: Point, tile: string, a: Assets)
      modifies this`scenery, collision
      ensures Built() == Absorb(old(Built()), LandItem(p, tile), a)
    {
      scenery := scenery + [LandSprite(p, tile)];
      collision.Add(RectAt(p, a.land(tile)));
    }

    /** Data 0: a new player, colliding with the level's group. */
    method PlacePlayer(p: Point, a: Assets)
      requires Valid()
      modifies this`player
      ensures Valid()
      ensures Built() == Absorb(old(Built()), IdItem(p, 0), a)
    {
      player := new Player(p, a.player, collision);
    }

    /** Data 8: a tooth, which stays only if it finds ground under it. */
    method PlaceTooth(p: Point, a: Assets, startRight: bool)
      requires Valid() && SpritesReady()
      modifies this`teeth
      ensures Valid() && SpritesReady()
      ensures Built() == Absorb(old(Built()), IdItem(p, 8), a)
    {
      var tooth := new Tooth(p, a.tooth, collision, startRight);
      if tooth.alive {
        teeth := teeth + [tooth];
      }
    }

    /** Data 9 and 10: a shell facing left or right, which is also a collision sprite. */
    method PlaceShell(p: Point, id: int, a: Assets)
      requires AssetsValid(a) && (id == 9 || id == 10) && SpritesReady()
      modifies this`shells, collision
      ensures SpritesReady()
      ensures Built() == Absorb(old(Built()), IdItem(p, id), a)
      ensures forall s | s in shells :: s in old(shells) || fresh(s)
    {
      var shell := new Shell(if id == 9 then FacingLeft else FacingRight, p, a.shell,
                             a.shellIdleFrames, a.shellAttackFrames);
      shells := shells + [shell];
      collision.Add(shell.rect);
    }

    /** Data 11 to 18: a palm; the foreground ones (11 to 14) add a trunk block to the collision group. */
    method PlacePalm(p: Point, id: int)
      requires 11 <= id <= 18
      modifies this`scenery, collision
      ensures forall a: Assets :: Built() == Absorb(old(Built()), IdItem(p, id), a)
    {
      scenery := scenery + [PalmSprite(p, id, id >= 15)];
      if id <= 14 {
        collision.Add(PalmBlock(p, id));
      }
    }

    /** The inner loop of `buildGrid`: every entry of one layer, in the dictionary's order. */
    method BuildLayer(m: map<Point, Item>, a: Assets, startsRight: Point -> bool) returns (ghost o: seq<Item>)
      requires Valid() && SpritesReady() && AssetsValid(a) && Keyed(m)
      modifies this`scenery, this`coins, this`horizonY, this`player, this`shells, this`teeth, collision
      ensures Valid() && SpritesReady()
      ensures Lists(m, o)
      ensures Built() == AbsorbAll(old(Built()), o, a)
      ensures forall s | s in shells :: s in old(shells) || fresh(s)
    {
      var todo := m.Keys;
      o := [];
      ghost var done: set<Point> := {};
      while todo != {}
        invariant Valid() && SpritesReady()
        invariant todo <= m.Keys && done == m.Keys - todo
        invariant Walked(m, o, done)
        invariant Built() == AbsorbAll(old(Built()), o, a)
        invariant forall s | s in shells :: s in old(shells) || fresh(s)
        decreases |todo|
      {
        var p :| p in todo;
        PlaceNext(m[p], a, startsRight(p), old(Built()), o);
        WalkedStep(m, o, done, p);
        o := o + [m[p]];
        todo := todo - {p};
        done := done + {p};
      }
    }

    /** One pass of that loop: the walk so far grows by the entry placed. */
    method PlaceNext(it: Item, a: Assets, startRight: bool, ghost s0: Stage, ghost o: seq<Item>)
      requires Valid() && SpritesReady() && AssetsValid(a)
      requires Built() == AbsorbAll(s0, o, a)
      modifies this`scenery, this`coins, this`horizonY, this`player, this`shells, this`teeth, collision
      ensures Valid() && SpritesReady()
      ensures Built() == AbsorbAll(s0, o + [it], a)
      ensures forall s | s in shells :: s in old(shells) || fresh(s)
    {
      Place(it, a, startRight);
      assert (o + [it])[..|o|] == o;
    }

    /** The outer loop of `buildGrid`: the six layers in export order. */
    method BuildLayers(layers: seq<map<Point, Item>>, a: Assets, startsRight: Point -> bool) returns (ghost walks: seq<seq<Item>>)
      requires Valid() && SpritesReady() && AssetsValid(a) && forall j | 0 <= j < |layers| :: Keyed(layers[j])
      modifies this`scenery, this`coins, this`horizonY, this`player, this`shells, this`teeth, collision
      ensures Valid() && SpritesReady()
      ensures |walks| == |layers| && forall j | 0 <= j < |layers| :: Lists(layers[j], walks[j])
      ensures Built() == AbsorbAll(old(Built()), Concat(walks), a)
      ensures forall s | s in shells :: s in old(shells) || fresh(s)
    {
      walks := [];
      var i := 0;
      while i < |layers|
        invariant 0 <= i <= |layers| && |walks| == i
        invariant Valid() && SpritesReady()
        invariant forall j | 0 <= j < i :: Lists(layers[j], walks[j])
        invariant Built() == AbsorbAll(old(Built()), Concat(walks), a)
        invariant forall s | s in shells :: s in old(shells) || fresh(s)
      {
        var o := BuildLayer(layers[i], a, startsRight);
        AbsorbAllAppend(old(Built()), Concat(walks), o, a);
        ListsExtend(layers, walks, o);
        assert (walks + [o])[..i] == walks;
        walks := walks + [o];
        i := i + 1;
      }
    }

    /** The last loop of `buildGrid`: every shell is handed the player. */
    method HandPlayer()
      requires Valid() && SpritesReady()
      modifies shells
      ensures Valid() && SpritesReady() && Built() == old(Built())
      ensures forall s | s in shells :: s.player == player
      ensures forall s | s in shells ::
        s.status == old(s.status) && s.frameIndex == old(s.frameIndex) && s.frame == old(s.frame) && s.hasShot == old(s.hasShot)
    {
      var k := 0;
      while k < |shells|
        invariant 0 <= k <= |shells|
        invariant forall j | 0 <= j < k :: shells[j].player == player
        invariant forall s | s in shells ::
          s.status == old(s.status) && s.frameIndex == old(s.frameIndex) && s.frame == old(s.frame) && s.hasShot == old(s.hasShot)
      {
        shells[k].player := player;
        k := k + 1;
      }
    }

    /** `buildGrid`: the layers, then the shells' player. */
    method BuildGrid(g: Grid, a: Assets, startsRight: Point -> bool)
      requires Valid() && SpritesReady() && AssetsValid(a)
      modifies this, collision, shells
      ensures Valid() && SpritesReady()
      ensures Built() == AbsorbAll(old(Built()), order, a)
      ensures |walks| == 6 && (forall j | 0 <= j < 6 :: Lists(Layers(g)[j], walks[j])) && order == Concat(walks)
      ensures forall it :: it in order <==> exists i | 0 <= i < 6 :: it in Layers(g)[i].Values
      ensures forall s | s in shells :: s.player == player
      ensures particles == old(particles)
    {
      BuildFrom(Layers(g), a, startsRight);
    }

    /** The body of `buildGrid` over the six layers as given. */
    method BuildFrom(layers: seq<map<Point, Item>>, a: Assets, startsRight: Point -> bool)
      requires Valid() && SpritesReady() && AssetsValid(a)
      requires forall j | 0 <= j < |layers| :: Keyed(layers[j])
      modifies this, collision, shells
      ensures Valid() && SpritesReady()
      ensures Built() == AbsorbAll(old(Built()), order, a)
      ensures |walks| == |layers| && (forall j | 0 <= j < |layers| :: Lists(layers[j], walks[j])) && order == Concat(walks)
      ensures forall it :: it in order <==> exists i | 0 <= i < |layers| :: it in layers[i].Values
      ensures forall s | s in shells :: s.player == player
      ensures particles == old(particles)
    {
      BuildAndRecord(layers, a, startsRight);
      assert forall i | 0 <= i < |shells| :: shells[i] in old(shells) || fresh(shells[i]);
      HandPlayer();
    }

    /** The two loops of `buildGrid`, with the walk they took recorded. */
    method BuildAndRecord(layers: seq<map<Point, Item>>, a: Assets, startsRight: Point -> bool)
      requires Valid() && SpritesReady() && AssetsValid(a)
      requires forall j | 0 <= j < |layers| :: Keyed(layers[j])
      modifies this`scenery, this`coins, this`horizonY, this`player, this`shells, this`teeth, this`walks, this`order, collision
      ensures Valid() && SpritesReady()
      ensures Built() == AbsorbAll(old(Built()), order, a)
      ensures |walks| == |layers| && (forall j | 0 <= j < |layers| :: Lists(layers[j], walks[j])) && order == Concat(walks)
      ensures forall it :: it in order <==> exists i | 0 <= i < |layers| :: it in layers[i].Values
      ensures forall s | s in shells :: s in old(shells) || fresh(s)
    {
      ghost var w := BuildLayers(layers, a, startsRight);
      OrderCoversLayers(layers, w);
      walks := w;
      order := Concat(w);
    }

    /** `getCoin`: the coins the player touches leave the group, and each leaves one particle at its centre. */
    method GetCoin(a: Assets)
      requires player != null && AssetsValid(a)
      modifies this`coins, this`particles
      ensures coins == Kept(old(coins), player.rect)
      ensures |particles| - |old(particles)| == |old(coins)| - |coins| == |Taken(old(coins), player.rect)|
      ensures particles[..|old(particles)|] == old(particles)
      ensures forall j | 0 <= j < |Taken(old(coins), player.rect)| ::
        Sparkles(particles[|old(particles)| + j], Taken(old(coins), player.rect)[j], a.particle)
    {
      var collided := Taken(coins, player.rect);
      TakenKeptSplit(coins, player.rect);
      assert |collided| + |Kept(coins, player.rect)| == |coins| by {
        assert |multiset(collided)| + |multiset(Kept(coins, player.rect))| == |multiset(coins)|;
      }
      coins := Kept(coins, player.rect);
      var spawned := SpawnParticles(collided, a.particle, a.particleFrames);
      particles := particles + spawned;
    }

    /** The loop of `getCoin`: one new particle per collected coin, centred where the coin was. */
    static method SpawnParticles(collided: seq<CoinSprite>, size: Size, frames: nat) returns (spawned: seq<Particle>)
      requires frames > 0
      ensures |spawned| == |collided|
      ensures forall j | 0 <= j < |collided| :: fresh(spawned[j]) && Sparkles(spawned[j], collided[j], size)
    {
      spawned := [];
      var i := 0;
      while i < |collided|
        invariant 0 <= i <= |collided| && |spawned| == i
        invariant forall j | 0 <= j < i :: fresh(spawned[j]) && Sparkles(spawned[j], collided[j], size)
      {
        var sparkle := new Particle(collided[i].rect.Center(), size, frames);
        spawned := spawned + [sparkle];
        i := i + 1;
      }
    }
  }

  /** A walk of one layer holds exactly the layer's entries. */
  lemma ListsMembers(m: map<Point, Item>, o: seq<Item>, it: Item)
    requires Lists(m, o)
    ensures it in o <==> it in m.Values
  {
    if it in m.Values {
      var p :| p in m && m[p] == it;
    }
  }

  /** An entry of one part is in the concatenation. */
  lemma {:induction false} ConcatHas(os: seq<seq<Item>>, i: int, it: Item)
    requires 0 <= i < |os| && it in os[i]
    ensures it in Concat(os)
  {
    var n := |os| - 1;
    if i < n {
      assert os[..n][i] == os[i];
      ConcatHas(os[..n], i, it);
    }
  }

  /** An entry of the concatenation comes from one of the parts. */
  lemma {:induction false} ConcatFrom(os: seq<seq<Item>>, it: Item) returns (i: int)
    requires it in Concat(os)
    ensures 0 <= i < |os| && it in os[i]
  {
    var n := |os| - 1;
    if it in os[n] {
      i := n;
    } else {
      i := ConcatFrom(os[..n], it);
      assert os[..n][i] == os[i];
    }
  }

  /** An item is in the concatenated walks iff it is in one of them. */
  lemma ConcatMembers(os: seq<seq<Item>>, it: Item)
    ensures it in Concat(os) <==> exists i | 0 <= i < |os| :: it in os[i]
  {
    if it in Concat(os) {
      var i := ConcatFrom(os, it);
    }
    if exists i | 0 <= i < |os| :: it in os[i] {
      var i :| 0 <= i < |os| && it in os[i];
      ConcatHas(os, i, it);
    }
  }

  /**
   * Terrain is walked before the enemies, so a tooth whose ground point
   * lies on a terrain tile finds that tile in the collision group and is
   * kept, whatever order each layer is walked in.
   */
  lemma ToothOnTerrainKept(g: Grid, walks: seq<seq<Item>>, a: Assets, p: Point, q: Point)
    requires |walks| == 6 && forall j | 0 <= j < 6 :: Lists(Layers(g)[j], walks[j])
    requires p in g.enemies && g.enemies[p] == 8 && q in g.terrain
    requires RectAt(q, a.land(g.terrain[q])).ContainsPoint(ToothRect(p, a.tooth).MidBottom().Plus(Point(0, 10)))
    ensures ToothRect(p, a.tooth) in AbsorbAll(EMPTY_STAGE, Concat(walks), a).teeth
  {
    var land, tooth := LandItem(q, g.terrain[q]), IdItem(p, 8);
    TerrainAndEnemyEntries(g, p, q);
    ListsMembers(Layers(g)[2], walks[2], land);
    ListsMembers(Layers(g)[3], walks[3], tooth);
    assert walks[..3][2] == walks[2];
    ConcatHas(walks[..3], 2, land);
    ConcatSixFrom(walks);
    WalkedBefore(Concat(walks[..3]), walks[3], walks[4] + walks[5], land, tooth, a);
  }

  /** The terrain layer holds `q`'s land entry and the enemies layer `p`'s id entry. */
  lemma TerrainAndEnemyEntries(g: Grid, p: Point, q: Point)
    requires p in g.enemies && q in g.terrain
    ensures q in Layers(g)[2] && Layers(g)[2][q] == LandItem(q, g.terrain[q])
    ensures p in Layers(g)[3] && Layers(g)[3][p] == IdItem(p, g.enemies[p])
  {
  }

  /** Six walks concatenate as the first three, then the fourth, then the last two. */
  lemma ConcatSixFrom(walks: seq<seq<Item>>)
    requires |walks| == 6
    ensures Concat(walks) == Concat(walks[..3]) + walks[3] + (walks[4] + walks[5])
  {
    assert walks[..4][..3] == walks[..3] && walks[..4][3] == walks[3];
    assert Concat(walks[..4]) == Concat(walks[..3]) + walks[3];
    assert walks[..5][..4] == walks[..4] && walks[..5][4] == walks[4];
    assert Concat(walks[..5]) == Concat(walks[..4]) + walks[4];
    assert walks[..5] == walks[..|walks| - 1];
    assert Concat(walks) == Concat(walks[..5]) + walks[5];
  }

  /** A land entry walked in `before` and a tooth walked in `mid`: the tooth is kept if the land holds its ground point. */
  lemma WalkedBefore(before: seq<Item>, mid: seq<Item>, rest: seq<Item>, land: Item, tooth: Item, a: Assets)
    requires land in before && land.LandItem? && tooth in mid && tooth == IdItem(tooth.pos, 8)
    requires RectAt(land.pos, a.land(land.tile)).ContainsPoint(ToothRect(tooth.pos, a.tooth).MidBottom().Plus(Point(0, 10)))
    ensures ToothRect(tooth.pos, a.tooth) in AbsorbAll(EMPTY_STAGE, before + mid + rest, a).teeth
  {
    var items := before + mid + rest;
    var k :| 0 <= k < |before| && before[k] == land;
    var t :| 0 <= t < |mid| && mid[t] == tooth;
    assert items[k] == land;
    assert items[|before| + t] == tooth;
    GroundedToothKept(items, k, |before| + t, a);
  }

  /** The six walks together visit exactly the entries of the six layers. */
  lemma OrderCoversLayers(layers: seq<map<Point, Item>>, walks: seq<seq<Item>>)
    requires |walks| == |layers|
    requires forall j | 0 <= j < |layers| :: Lists(layers[j], walks[j])
    ensures forall it :: it in Concat(walks) <==> exists i | 0 <= i < |layers| :: it in layers[i].Values
  {
    forall it
      ensures it in Concat(walks) <==> exists i | 0 <= i < |layers| :: it in layers[i].Values
    {
      ConcatMembers(walks, it);
      forall i | 0 <= i < |layers|
        ensures it in walks[i] <==> it in layers[i].Values
      {
        ListsMembers(layers[i], walks[i], it);
      }
    }
  }
}

/**
 * sprites.py, the runtime rules on integer rectangles: the player's hit box,
 * floor probe, axis-separated collision resolution, status and damage; the
 * tooth's ledge and wall reversal; the shell's range check and its
 * one-pearl-per-cycle firing; the pearl's lifetime; the frame-index rules of
 * `Animated` and `Particle`; and the cloud's removal.
 *
 * Time enters only as parameters: `now` is the tick `pygame.time.get_ticks()`
 * would return, `advance` is `ANIMATION_SPEED * deltaTime`, and a movement
 * step (`speed * deltaTime`, rounded) is an integer number of pixels.
 */
module Sprites {
  import opened Geometry
  import opened Registry
  import opened Timers

  /** A pygame `Vector2` of the player's direction; gravity and damage make it fractional. */
  datatype Vec = Vec(x: real, y: real)

  datatype Orientation = FacingLeft | FacingRight

  /** A sprite group whose members the player and the teeth collide with; only their rectangles matter. */
  class CollisionGroup {
    var rects: seq<Rect>

    constructor ()
      ensures rects == []
    {
      rects := [];
    }

    /** A sprite joins the group; groups iterate in insertion order. */
    method Add(r: Rect)
      modifies this
      ensures rects == old(rects) + [r]
    {
      rects := rects + [r];
    }
  }

  // -------------------------------------------------------------- probes

  /** The comprehension `[s for s in group if s.rect.collidepoint(p)]`, tested for non-emptiness. */
  method FindContaining(rects: seq<Rect>, p: Point) returns (found: bool)
    ensures found <==> AnyContains(rects, p)
  {
    found := false;
    var i := 0;
    while i < |rects|
      invariant 0 <= i <= |rects|
      invariant found <==> exists j | 0 <= j < i :: rects[j].ContainsPoint(p)
    {
      if rects[i].ContainsPoint(p) {
        found := true;
      }
      i := i + 1;
    }
  }

  /** The comprehension `[s for s in group if s.rect.colliderect(r)]`, tested for non-emptiness. */
  method FindColliding(rects: seq<Rect>, r: Rect) returns (found: bool)
    ensures found <==> AnyCollides(rects, r)
  {
    found := false;
    var i := 0;
    while i < |rects|
      invariant 0 <= i <= |rects|
      invariant found <==> exists j | 0 <= j < i :: rects[j].Collides(r)
    {
      if rects[i].Collides(r) {
        found := true;
      }
      i := i + 1;
    }
  }

  // -------------------------------------------------------------- player

  /** `rect.inflate(-50, 0)`: the hit box is 50 pixels narrower, 25 on each side, and as tall. */
  function HitBoxOf(r: Rect): (h: Rect)
    ensures h.Left() == r.Left() + 25 && h.Right() == r.Right() - 25
    ensures h.Top() == r.Top() && h.Bottom() == r.Bottom()
    ensures r.w >= 50 ==> h.Center() == r.Center()
  {
    r.Inflate(-50, 0)
  }

  /** The strip of height 2 just below the hit box, as wide as it. */
  function FloorProbe(hb: Rect): Rect
  {
    Rect(hb.Left(), hb.Bottom(), hb.w, 2)
  }

  datatype Status = Idle | Run | Jump | Fall

  /** `getStatus`: rising is a jump, sinking off the floor a fall, otherwise run or idle by the horizontal input. */
  function StatusOf(direction: Vec, onFloor: bool): (s: Status)
    ensures s == Jump <==> direction.y < 0.0
    ensures s == Fall <==> direction.y > 0.0 && !onFloor
    ensures s == Run <==> direction.y >= 0.0 && (direction.y == 0.0 || onFloor) && direction.x != 0.0
    ensures s == Idle <==> direction.y >= 0.0 && (direction.y == 0.0 || onFloor) && direction.x == 0.0
  {
    if direction.y < 0.0 then Jump
    else if direction.y > 0.0 && !onFloor then Fall
    else if direction.x != 0.0 then Run
    else Idle
  }

  /** The player fields `checkCollision` reads and writes. */
  datatype Body = Body(rect: Rect, hitBox: Rect, pos: Point, direction: Vec)

  datatype Axis = Horizontal | Vertical

  /** One iteration of `checkCollision`'s loop, against one collision rectangle. */
  function ResolveStep(b: Body, block: Rect, axis: Axis): Body
  {
    if !block.Collides(b.hitBox) then b
    else if axis == Horizontal then
      var hb :=
        if b.direction.x > 0.0 then b.hitBox.WithRight(block.Left())
        else if b.direction.x < 0.0 then b.hitBox.WithLeft(block.Right())
        else b.hitBox;
      b.(hitBox := hb, rect := b.rect.WithCenterX(hb.CenterX()), pos := b.pos.(x := hb.CenterX()))
    else
      var hb :=
        if b.direction.y < 0.0 then b.hitBox.WithTop(block.Bottom())
        else if b.direction.y > 0.0 then b.hitBox.WithBottom(block.Top())
        else b.hitBox;
      b.(hitBox := hb, rect := b.rect.WithCenterY(hb.CenterY()), pos := b.pos.(y := hb.CenterY()),
         direction := b.direction.(y := 0.0))
  }

  /** `checkCollision(axis)`: the blocks are visited in the group's order, each against the hit box as it stands. */
  function Resolve(b: Body, blocks: seq<Rect>, axis: Axis): Body
  {
    if blocks == [] then b
    else ResolveStep(Resolve(b, blocks[..|blocks| - 1], axis), blocks[|blocks| - 1], axis)
  }

  /**
   * Horizontal resolution against an overlapping block: moving right puts the
   * hit box's right edge on the block's left edge, moving left its left edge
   * on the block's right edge; then the sprite and `pos` are centred on the
   * hit box.  Nothing else changes.
   */
  lemma ResolveHorizontalStep(b: Body, block: Rect)
    requires block.Collides(b.hitBox)
    ensures var r := ResolveStep(b, block, Horizontal);
      && (b.direction.x > 0.0 ==> r.hitBox.Right() == block.Left())
      && (b.direction.x < 0.0 ==> r.hitBox.Left() == block.Right())
      && (b.direction.x == 0.0 ==> r.hitBox == b.hitBox)
      && r.hitBox.y == b.hitBox.y && r.hitBox.w == b.hitBox.w && r.hitBox.h == b.hitBox.h
      && r.rect.CenterX() == r.hitBox.CenterX() && r.pos.x == r.hitBox.CenterX()
      && r.rect.y == b.rect.y && r.rect.w == b.rect.w && r.rect.h == b.rect.h
      && r.pos.y == b.pos.y && r.direction == b.direction
  {
  }

  /**
   * Vertical resolution against an overlapping block: moving up puts the hit
   * box's top on the block's bottom, moving down its bottom on the block's
   * top; the sprite and `pos` are centred on it and the vertical speed is 0.
   */
  lemma ResolveVerticalStep(b: Body, block: Rect)
    requires block.Collides(b.hitBox)
    ensures var r := ResolveStep(b, block, Vertical);
      && (b.direction.y < 0.0 ==> r.hitBox.Top() == block.Bottom())
      && (b.direction.y > 0.0 ==> r.hitBox.Bottom() == block.Top())
      && (b.direction.y == 0.0 ==> r.hitBox == b.hitBox)
      && r.hitBox.x == b.hitBox.x && r.hitBox.w == b.hitBox.w && r.hitBox.h == b.hitBox.h
      && r.rect.CenterY() == r.hitBox.CenterY() && r.pos.y == r.hitBox.CenterY()
      && r.rect.x == b.rect.x && r.rect.w == b.rect.w && r.rect.h == b.rect.h
      && r.pos.x == b.pos.x && r.direction == Vec(b.direction.x, 0.0)
  {
  }

  /** After a moving hit box is pushed out of a block, the two only touch: they no longer overlap. */
  lemma ResolveStepSeparates(b: Body, block: Rect, axis: Axis)
    requires block.Collides(b.hitBox)
    requires b.hitBox.w > 0 && b.hitBox.h > 0 && block.w > 0 && block.h > 0
    requires axis == Horizontal ==> b.direction.x != 0.0
    requires axis == Vertical ==> b.direction.y != 0.0
    ensures !block.Collides(ResolveStep(b, block, axis).hitBox)
  {
  }

  /** The hit box, the sprite rectangle and `pos` share one centre. */
  predicate Centred(b: Body)
  {
    b.rect.Center() == b.hitBox.Center() && b.pos == b.hitBox.Center()
  }

  /** Resolution keeps the sizes of both rectangles. */
  predicate SameSizes(b: Body, r: Body)
  {
    r.rect.w == b.rect.w && r.rect.h == b.rect.h && r.hitBox.w == b.hitBox.w && r.hitBox.h == b.hitBox.h
  }

  /** Resolving against any sequence of blocks keeps the sizes, the centring and the horizontal input. */
  lemma {:induction false} ResolveKeepsShape(b: Body, blocks: seq<Rect>, axis: Axis)
    ensures SameSizes(b, Resolve(b, blocks, axis))
    ensures Centred(b) ==> Centred(Resolve(b, blocks, axis))
    ensures Resolve(b, blocks, axis).direction.x == b.direction.x
  {
    if blocks != [] {
      var prefix := blocks[..|blocks| - 1];
      ResolveKeepsShape(b, prefix, axis);
    }
  }

  /** A hit box that overlaps no block is left where it is. */
  lemma {:induction false} ResolveFree(b: Body, blocks: seq<Rect>, axis: Axis)
    requires !AnyCollides(blocks, b.hitBox)
    ensures Resolve(b, blocks, axis) == b
  {
    if blocks != [] {
      var prefix := blocks[..|blocks| - 1];
      assert forall j | 0 <= j < |prefix| :: prefix[j] == blocks[j];
      ResolveFree(b, prefix, axis);
      assert !blocks[|blocks| - 1].Collides(b.hitBox);
    }
  }

  /** Horizontal resolution leaves the vertical speed alone; vertical resolution either keeps it or stops it. */
  lemma {:induction false} ResolveVerticalSpeed(b: Body, blocks: seq<Rect>, axis: Axis)
    ensures axis == Horizontal ==> Resolve(b, blocks, axis).direction.y == b.direction.y
    ensures Resolve(b, blocks, axis).direction.y == b.direction.y || Resolve(b, blocks, axis).direction.y == 0.0
  {
    if blocks != [] {
      ResolveVerticalSpeed(b, blocks[..|blocks| - 1], axis);
    }
  }

  /** The first half of each axis of `move`: `pos` steps, and the hit box and then the sprite are centred on it. */
  function Stepped(b: Body, step: int, axis: Axis): Body
  {
    if axis == Horizontal then
      var hb := b.hitBox.WithCenterX(b.pos.x + step);
      b.(pos := b.pos.(x := b.pos.x + step), hitBox := hb, rect := b.rect.WithCenterX(hb.CenterX()))
    else
      var hb := b.hitBox.WithCenterY(b.pos.y + step);
      b.(pos := b.pos.(y := b.pos.y + step), hitBox := hb, rect := b.rect.WithCenterY(hb.CenterY()))
  }

  /** `move`: one axis after the other, each a step of the centre followed by the resolution on that axis. */
  function Moved(b: Body, stepX: int, stepY: int, blocks: seq<Rect>): Body
  {
    Resolve(Stepped(Resolve(Stepped(b, stepX, Horizontal), blocks, Horizontal), stepY, Vertical), blocks, Vertical)
  }

  /** A centred body stays centred through a move, whatever the blocks, and keeps its sizes. */
  lemma MovedKeepsCentred(b: Body, stepX: int, stepY: int, blocks: seq<Rect>)
    requires Centred(b)
    ensures Centred(Moved(b, stepX, stepY, blocks))
    ensures SameSizes(b, Moved(b, stepX, stepY, blocks))
  {
    var a := Stepped(b, stepX, Horizontal);
    ResolveKeepsShape(a, blocks, Horizontal);
    var c := Stepped(Resolve(a, blocks, Horizontal), stepY, Vertical);
    ResolveKeepsShape(c, blocks, Vertical);
  }

  class Player {
    var rect: Rect
    var hitBox: Rect
    var pos: Point
    var direction: Vec
    var onFloor: bool
    var status: Status
    var orientation: Orientation
    const collision: CollisionGroup
    const invulTimer: Timer

    function State(): Body
      reads this
    {
      Body(rect, hitBox, pos, direction)
    }

    constructor (pos: Point, size: Size, collision: CollisionGroup)
      ensures rect == RectAt(pos, size) && hitBox == HitBoxOf(rect) && this.pos == rect.Center()
      ensures size.w >= 50 ==> Centred(State())
      ensures direction == Vec(0.0, 0.0) && !onFloor && status == Idle && orientation == FacingRight
      ensures this.collision == collision
      ensures fresh(invulTimer) && invulTimer.duration == 200 && !invulTimer.active && invulTimer.Valid()
    {
      rect := RectAt(pos, size);
      hitBox := HitBoxOf(RectAt(pos, size));
      this.pos := RectAt(pos, size).Center();
      direction := Vec(0.0, 0.0);
      onFloor := false;
      status := Idle;
      orientation := FacingRight;
      this.collision := collision;
      invulTimer := new Timer(200);
    }

    /** `damage`: only a player who is not invulnerable is hit; the hit arms the timer and knocks them upward. */
    method Damage(now: int)
      requires invulTimer.Valid()
      modifies invulTimer, this`direction
      ensures invulTimer.Valid()
      ensures !old(invulTimer.active) ==>
        invulTimer.active && invulTimer.startTime == now && direction == old(direction).(y := old(direction).y - 1.5)
      ensures old(invulTimer.active) ==> unchanged(invulTimer) && direction == old(direction)
    {
      if !invulTimer.active {
        invulTimer.Activate(now);
        direction := direction.(y := direction.y - 1.5);
      }
    }

    /** `input`, with the three arrow keys as parameters: right wins over left, and a jump needs the floor. */
    method Input(right: bool, left: bool, up: bool)
      modifies this`direction, this`orientation
      ensures direction.x == if right then 1.0 else if left then -1.0 else 0.0
      ensures orientation == if right then FacingRight else if left then FacingLeft else old(orientation)
      ensures direction.y == if up && onFloor then -2.0 else old(direction).y
    {
      if right {
        direction := direction.(x := 1.0);
        orientation := FacingRight;
      } else if left {
        direction := direction.(x := -1.0);
        orientation := FacingLeft;
      } else {
        direction := direction.(x := 0.0);
      }
      if up && onFloor {
        direction := direction.(y := -2.0);
      }
    }

    /** `chekcOnFloor`: on the floor iff some collision rectangle overlaps the strip under the hit box. */
    method CheckOnFloor()
      modifies this`onFloor
      ensures onFloor <==> AnyCollides(collision.rects, FloorProbe(hitBox))
    {
      onFloor := FindColliding(collision.rects, FloorProbe(hitBox));
    }

    /** `checkCollision(axis)`, one block at a time in the group's order. */
    method CheckCollision(axis: Axis)
      modifies this`rect, this`hitBox, this`pos, this`direction
      ensures State() == Resolve(old(State()), collision.rects, axis)
    {
      var blocks := collision.rects;
      var i := 0;
      while i < |blocks|
        invariant 0 <= i <= |blocks|
        invariant State() == Resolve(old(State()), blocks[..i], axis)
      {
        assert blocks[..i + 1][..i] == blocks[..i];
        var block := blocks[i];
        if block.Collides(hitBox) {
          if axis == Horizontal {
            hitBox := if direction.x > 0.0 then hitBox.WithRight(block.Left()) else hitBox;
            hitBox := if direction.x < 0.0 then hitBox.WithLeft(block.Right()) else hitBox;
            rect := rect.WithCenterX(hitBox.CenterX());
            pos := pos.(x := hitBox.CenterX());
          } else {
            hitBox := if direction.y < 0.0 then hitBox.WithTop(block.Bottom()) else hitBox;
            hitBox := if direction.y > 0.0 then hitBox.WithBottom(block.Top()) else hitBox;
            rect := rect.WithCenterY(hitBox.CenterY());
            pos := pos.(y := hitBox.CenterY());
            direction := direction.(y := 0.0);
          }
        }
        i := i + 1;
      }
      assert blocks[..i] == blocks;
    }

    /** `move`, with the two steps of the centre (`direction * speed * deltaTime`, rounded) as parameters. */
    method Move(stepX: int, stepY: int)
      modifies this`rect, this`hitBox, this`pos, this`direction
      ensures State() == Moved(old(State()), stepX, stepY, collision.rects)
    {
      pos := pos.(x := pos.x + stepX);
      hitBox := hitBox.WithCenterX(pos.x);
      rect := rect.WithCenterX(hitBox.CenterX());
      assert State() == Stepped(old(State()), stepX, Horizontal);
      CheckCollision(Horizontal);
      ghost var mid := State();
      pos := pos.(y := pos.y + stepY);
      hitBox := hitBox.WithCenterY(pos.y);
      rect := rect.WithCenterY(hitBox.CenterY());
      assert State() == Stepped(mid, stepY, Vertical);
      CheckCollision(Vertical);
    }

    /** `getStatus`. */
    method GetStatus()
      modifies this`status
      ensures status == StatusOf(direction, onFloor)
    {
      if direction.y < 0.0 {
        status := Jump;
      } else if direction.y > 0.0 && !onFloor {
        status := Fall;
      } else {
        status := if direction.x != 0.0 then Run else Idle;
      }
    }
  }

  // --------------------------------------------------------------- tooth

  /** A tooth's rectangle: the image placed at `pos`, then moved so that its bottom is one tile below `pos`. */
  function ToothRect(pos: Point, size: Size): (r: Rect)
    ensures r.Bottom() == pos.y + TILE_SIZE && r.x == pos.x && r.w == size.w && r.h == size.h
  {
    RectAt(pos, size).WithBottom(pos.y + TILE_SIZE)
  }

  /** A tooth spawns only above ground: some collision rectangle holds the point 10 pixels below its mid-bottom. */
  predicate HasGround(r: Rect, rects: seq<Rect>)
  {
    AnyContains(rects, r.MidBottom().Plus(Point(0, 10)))
  }

  /**
   * The direction `move` leaves a tooth with.  Moving right, it turns left
   * when nothing holds the point just past its bottom-right corner (a ledge)
   * or something holds the point just past its right side (a wall); moving
   * left is the mirror image.
   */
  function TurnedDirection(r: Rect, dir: int, rects: seq<Rect>): (d: int)
    requires dir == 1 || dir == -1
    ensures d == 1 || d == -1
    ensures dir == 1 ==> (d == -1 <==>
      !AnyContains(rects, r.BottomRight().Plus(Point(1, 1))) || AnyContains(rects, r.MidRight().Plus(Point(1, 0))))
    ensures dir == -1 ==> (d == 1 <==>
      !AnyContains(rects, r.BottomLeft().Plus(Point(-1, 1))) || AnyContains(rects, r.MidLeft().Plus(Point(-1, 0))))
  {
    if dir > 0 then
      if !AnyContains(rects, r.BottomRight().Plus(Point(1, 1))) || AnyContains(rects, r.MidRight().Plus(Point(1, 0)))
      then -1 else 1
    else
      if !AnyContains(rects, r.BottomLeft().Plus(Point(-1, 1))) || AnyContains(rects, r.MidLeft().Plus(Point(-1, 0)))
      then 1 else -1
  }

  /** On a platform wide enough, with no wall in the way, a tooth keeps going. */
  lemma KeepsGoingOnOpenGround(r: Rect, dir: int, rects: seq<Rect>, k: int)
    requires dir == 1 || dir == -1
    requires 0 <= k < |rects|
    requires rects[k].ContainsPoint(if dir == 1 then r.BottomRight().Plus(Point(1, 1)) else r.BottomLeft().Plus(Point(-1, 1)))
    requires forall i | 0 <= i < |rects| ::
      !rects[i].ContainsPoint(if dir == 1 then r.MidRight().Plus(Point(1, 0)) else r.MidLeft().Plus(Point(-1, 0)))
    ensures TurnedDirection(r, dir, rects) == dir
  {
  }

  function OrientationOf(dir: int): Orientation
  {
    if dir > 0 then FacingRight else FacingLeft
  }

  class Tooth {
    var rect: Rect
    var direction: int
    var orientation: Orientation
    var alive: bool
    const collision: CollisionGroup

    /** The direction is a unit step and the orientation names it. */
    ghost predicate Valid()
      reads this
    {
      (direction == 1 || direction == -1) && orientation == OrientationOf(direction)
    }

    /** `startRight` is the outcome of `choice((1, -1))`. */
    constructor (pos: Point, size: Size, collision: CollisionGroup, startRight: bool)
      ensures Valid()
      ensures rect == ToothRect(pos, size) && this.collision == collision
      ensures direction == if startRight then 1 else -1
      ensures alive <==> HasGround(rect, collision.rects)
    {
      rect := ToothRect(pos, size);
      direction := if startRight then 1 else -1;
      orientation := if startRight then FacingRight else FacingLeft;
      this.collision := collision;
      alive := true;
      new;
      var ground := FindContaining(collision.rects, rect.MidBottom().Plus(Point(0, 10)));
      if !ground {
        alive := false;
      }
    }

    /** `move`: turn at a ledge or a wall, then step `distance` pixels the way it now faces. */
    method Move(distance: int)
      requires Valid()
      modifies this`direction, this`orientation, this`rect
      ensures Valid()
      ensures direction == TurnedDirection(old(rect), old(direction), collision.rects)
      ensures rect == old(rect).(x := old(rect).x + direction * distance)
    {
      var rightGap := rect.BottomRight().Plus(Point(1, 1));
      var rightBlock := rect.MidRight().Plus(Point(1, 0));
      var leftGap := rect.BottomLeft().Plus(Point(-1, 1));
      var leftBlock := rect.MidLeft().Plus(Point(-1, 0));
      if direction > 0 {
        var ground := FindContaining(collision.rects, rightGap);
        if !ground {
          direction, orientation := -1, FacingLeft;
        }
        var wall := FindContaining(collision.rects, rightBlock);
        if wall {
          direction, orientation := -1, FacingLeft;
        }
      } else {
        var ground := FindContaining(collision.rects, leftGap);
        if !ground {
          direction, orientation := 1, FacingRight;
        }
        var wall := FindContaining(collision.rects, leftBlock);
        if wall {
          direction, orientation := 1, FacingRight;
        }
      }
      rect := rect.(x := rect.x + direction * distance);
    }
  }

  // --------------------------------------------------------------- frames

  /**
   * The frame-index rule of `Animated.animate` (and of the shell and the
   * tooth): advance, and start over at 0 once the index reaches the number
   * of frames.  The index shown is its integer part.
   */
  function NextFrameIndex(index: real, advance: real, frameCount: nat): (r: real)
    requires 0.0 <= index && 0.0 <= advance && frameCount > 0
    ensures 0.0 <= r < frameCount as real
    ensures 0 <= r.Floor < frameCount
    ensures r == index + advance || r == 0.0
    ensures index + advance < frameCount as real ==> r == index + advance
  {
    if index + advance >= frameCount as real then 0.0 else index + advance
  }

  class Animated {
    const frameCount: nat
    var frameIndex: real
    /** The position in `animationFrames` of the image shown. */
    var frame: int

    ghost predicate Valid()
      reads this
    {
      frameCount > 0 && 0.0 <= frameIndex < frameCount as real && frame == frameIndex.Floor
    }

    constructor (frameCount: nat)
      requires frameCount > 0
      ensures Valid() && this.frameCount == frameCount && frameIndex == 0.0
    {
      this.frameCount := frameCount;
      frameIndex := 0.0;
      frame := 0;
    }

    /** `animate`: the image shown is always one of the frames. */
    method Animate(advance: real)
      requires Valid() && advance >= 0.0
      modifies this`frameIndex, this`frame
      ensures Valid()
      ensures frameIndex == NextFrameIndex(old(frameIndex), advance, frameCount)
    {
      frameIndex := frameIndex + advance;
      if frameIndex >= frameCount as real {
        frameIndex := 0.0;
      }
      frame := frameIndex.Floor;
    }
  }

  /** A coin-collection sparkle: it plays its frames once and then removes itself. */
  class Particle {
    const frameCount: nat
    const rect: Rect
    var frameIndex: real
    var frame: int
    var alive: bool

    ghost predicate Valid()
      reads this
    {
      frameCount > 0 && 0.0 <= frameIndex && (alive ==> frameIndex < frameCount as real && frame == frameIndex.Floor)
    }

    /** Centred on `pos`, as `get_rect(center=pos)` places it. */
    constructor (pos: Point, size: Size, frameCount: nat)
      requires frameCount > 0
      ensures Valid() && alive && frameIndex == 0.0
      ensures this.frameCount == frameCount && rect == RectCenteredAt(pos, size)
    {
      this.frameCount := frameCount;
      rect := RectCenteredAt(pos, size);
      frameIndex := 0.0;
      frame := 0;
      alive := true;
    }

    /** `animate`: no wrap-around; the particle is killed when the index runs past the last frame. */
    method Animate(advance: real)
      requires Valid() && advance >= 0.0
      modifies this`frameIndex, this`frame, this`alive
      ensures Valid()
      ensures frameIndex == old(frameIndex) + advance
      ensures alive <==> old(alive) && frameIndex < frameCount as real
    {
      frameIndex := frameIndex + advance;
      if frameIndex < frameCount as real {
        frame := frameIndex.Floor;
      } else {
        alive := false;
      }
    }
  }

  /** A cloud drifting left; only its removal rule is modelled. */
  class Cloud {
    const rect: Rect
    const levelLimit: int
    var alive: bool

    constructor (rect: Rect, levelLimit: int)
      ensures this.rect == rect && this.levelLimit == levelLimit && alive
    {
      this.rect := rect;
      this.levelLimit := levelLimit;
      alive := true;
    }

    /** `removeCloud`: a cloud at or past the left limit is killed. */
    method RemoveCloud()
      modifies this`alive
      ensures alive <==> old(alive) && rect.x > levelLimit
    {
      if rect.x <= levelLimit {
        alive := false;
      }
    }
  }

  // --------------------------------------------------------------- shell

  datatype ShellStatus = ShellIdle | Attack

  /** `Shell.getStatus`: attack iff the player is within 500 pixels horizontally and the cooldown is not running. */
  function ShellStatusOf(playerX: int, shellX: int, coolingDown: bool): (s: ShellStatus)
    ensures s == Attack <==> -500 <= playerX - shellX <= 500 && !coolingDown
    ensures coolingDown ==> s == ShellIdle
  {
    if (if playerX - shellX < 0 then shellX - playerX else playerX - shellX) <= 500 && !coolingDown then Attack
    else ShellIdle
  }

  /** The part of a shell's state that one `animate` call steps. */
  datatype ShellCycle = ShellCycle(frameIndex: real, hasShot: bool)

  /** The outcome of one `animate` call: the new cycle state, whether the animation wrapped, and whether a pearl was fired. */
  datatype CycleStep = CycleStep(next: ShellCycle, wrapped: bool, fires: bool)

  /**
   * One `Shell.animate`: advance the frame index; on a wrap, a shell that
   * had shot arms its cooldown and may shoot again; a pearl leaves at frame
   * 2 of the attack animation, once.
   */
  function CycleAdvance(c: ShellCycle, advance: real, frameCount: nat, attacking: bool): (r: CycleStep)
    requires 0.0 <= c.frameIndex && 0.0 <= advance && frameCount > 0
    ensures r.fires ==> !c.hasShot && !r.wrapped && r.next.hasShot
    ensures r.fires <==> attacking && r.next.frameIndex.Floor == 2 && !(c.hasShot && !r.wrapped)
    ensures r.next.hasShot <==> r.fires || (c.hasShot && !r.wrapped)
    ensures r.wrapped <==> c.frameIndex + advance >= frameCount as real
    ensures r.next.frameIndex == NextFrameIndex(c.frameIndex, advance, frameCount)
  {
    var index := NextFrameIndex(c.frameIndex, advance, frameCount);
    var wrapped := c.frameIndex + advance >= frameCount as real;
    var shot := c.hasShot && !wrapped;
    var fires := index.Floor == 2 && attacking && !shot;
    CycleStep(ShellCycle(index, shot || fires), wrapped, fires)
  }

  /** One frame of a shell: how far the animation advances, its length, and whether the shell is attacking. */
  datatype Tick = Tick(advance: real, frameCount: nat, attacking: bool)

  predicate TicksValid(ticks: seq<Tick>)
  {
    forall i | 0 <= i < |ticks| :: ticks[i].advance >= 0.0 && ticks[i].frameCount > 0
  }

  datatype RunCount = RunCount(last: ShellCycle, fires: nat, wraps: nat)

  /** A run of `animate` calls, counting the pearls fired and the wraps of the animation. */
  function RunCycles(c: ShellCycle, ticks: seq<Tick>): RunCount
    requires 0.0 <= c.frameIndex && TicksValid(ticks)
    decreases |ticks|
  {
    if ticks == [] then RunCount(c, 0, 0)
    else
      var s := CycleAdvance(c, ticks[0].advance, ticks[0].frameCount, ticks[0].attacking);
      var rest := RunCycles(s.next, ticks[1..]);
      RunCount(rest.last, rest.fires + (if s.fires then 1 else 0), rest.wraps + (if s.wrapped then 1 else 0))
  }

  /**
   * At most one pearl per animation cycle: over any run, the pearls fired
   * number at most the wraps, plus one if the shell had not shot yet.
   */
  lemma {:induction false} OnePearlPerCycle(c: ShellCycle, ticks: seq<Tick>)
    requires 0.0 <= c.frameIndex && TicksValid(ticks)
    ensures RunCycles(c, ticks).fires <= RunCycles(c, ticks).wraps + (if c.hasShot then 0 else 1)
    decreases |ticks|
  {
    if ticks != [] {
      var s := CycleAdvance(c, ticks[0].advance, ticks[0].frameCount, ticks[0].attacking);
      assert TicksValid(ticks[1..]) by {
        forall i | 0 <= i < |ticks[1..]|
          ensures ticks[1..][i].advance >= 0.0 && ticks[1..][i].frameCount > 0
        {
          assert ticks[1..][i] == ticks[i + 1];
        }
      }
      OnePearlPerCycle(s.next, ticks[1..]);
    }
  }

  /** Where the pearl appears relative to the shell's centre: farther out on the left than on the right. */
  function PearlOffset(o: Orientation): Point
  {
    if o == FacingLeft then Point(-50, -10) else Point(20, -10)
  }

  class Pearl {
    var rect: Rect
    const direction: int
    const timer: Timer
    var alive: bool

    /** A pearl lives exactly while its six-second timer runs. */
    ghost predicate Valid()
      reads this, timer
    {
      timer.Valid() && timer.duration == 6000 && alive == timer.active
    }

    constructor (pos: Point, size: Size, direction: int, now: int)
      ensures Valid() && alive && fresh(timer)
      ensures rect == RectAt(pos, size) && this.direction == direction && timer.startTime == now
    {
      rect := RectAt(pos, size);
      this.direction := direction;
      alive := true;
      var t := new Timer(6000);
      t.Activate(now);
      timer := t;
    }

    /** `update`: fly `distance` pixels, then expire once six seconds have passed since the shot. */
    method Update(distance: int, now: int)
      requires Valid()
      modifies this`rect, this`alive, timer
      ensures Valid()
      ensures rect == old(rect).(x := old(rect).x + direction * distance)
      ensures alive <==> old(alive) && now - old(timer.startTime) < 6000
    {
      rect := rect.(x := rect.x + direction * distance);
      timer.Update(now);
      if !timer.active {
        alive := false;
      }
    }
  }

  class Shell {
    const orientation: Orientation
    const rect: Rect
    const idleFrames: nat
    const attackFrames: nat
    var status: ShellStatus
    var frameIndex: real
    var frame: int
    var hasShot: bool
    const attackCoolDown: Timer
    var player: Player?

    ghost predicate Valid()
      reads this, attackCoolDown
    {
      attackCoolDown.Valid() && attackCoolDown.duration == 2000 &&
      idleFrames > 0 && attackFrames > 0 && 0.0 <= frameIndex
    }

    function FrameCount(s: ShellStatus): nat
      reads this
    {
      if s == Attack then attackFrames else idleFrames
    }

    function Cycle(): ShellCycle
      reads this
    {
      ShellCycle(frameIndex, hasShot)
    }

    constructor (orientation: Orientation, pos: Point, size: Size, idleFrames: nat, attackFrames: nat)
      requires idleFrames > 0 && attackFrames > 0
      ensures Valid() && fresh(attackCoolDown) && !attackCoolDown.active
      ensures this.orientation == orientation && rect == ToothRect(pos, size)
      ensures this.idleFrames == idleFrames && this.attackFrames == attackFrames
      ensures status == ShellIdle && frameIndex == 0.0 && !hasShot && player == null
    {
      this.orientation := orientation;
      rect := ToothRect(pos, size);
      this.idleFrames := idleFrames;
      this.attackFrames := attackFrames;
      status := ShellIdle;
      frameIndex := 0.0;
      frame := 0;
      hasShot := false;
      attackCoolDown := new Timer(2000);
      player := null;
    }

    /** `getStatus`, against the player the level hands over. */
    method GetStatus()
      requires player != null
      modifies this`status
      ensures status == ShellStatusOf(player.rect.CenterX(), rect.CenterX(), attackCoolDown.active)
    {
      var dx := player.rect.CenterX() - rect.CenterX();
      if (if dx < 0 then -dx else dx) <= 500 && !attackCoolDown.active {
        status := Attack;
      } else {
        status := ShellIdle;
      }
    }

    /**
     * `animate`: the frame index follows `CycleAdvance`; a wrap after a shot
     * arms the cooldown at `now`; a shot is a new pearl beside the shell,
     * flying the way the shell faces.
     */
    method Animate(advance: real, now: int, pearlSize: Size) returns (pearl: Pearl?)
      requires Valid() && advance >= 0.0
      modifies this`frameIndex, this`frame, this`hasShot, attackCoolDown
      ensures Valid()
      ensures var s := CycleAdvance(old(Cycle()), advance, FrameCount(status), status == Attack);
        && Cycle() == s.next
        && (pearl != null <==> s.fires)
        && (s.wrapped && old(hasShot) ==> attackCoolDown.active && attackCoolDown.startTime == now)
        && (!(s.wrapped && old(hasShot)) ==> unchanged(attackCoolDown))
      ensures 0 <= frame < FrameCount(status)
      ensures pearl != null ==>
        && fresh(pearl) && fresh(pearl.timer) && pearl.Valid() && pearl.alive
        && pearl.rect == RectAt(rect.Center().Plus(PearlOffset(orientation)), pearlSize)
        && pearl.direction == (if orientation == FacingRight then 1 else -1)
    {
      var n := FrameCount(status);
      frameIndex := frameIndex + advance;
      if frameIndex >= n as real {
        frameIndex := 0.0;
        if hasShot {
          attackCoolDown.Activate(now);
          hasShot := false;
        }
      }
      frame := frameIndex.Floor;
      pearl := null;
      if frame == 2 && status == Attack && !hasShot {
        var dir := if orientation == FacingRight then 1 else -1;
        pearl := new Pearl(rect.Center().Plus(PearlOffset(orientation)), pearlSize, dir, now);
        hasShot := true;
      }
    }

    /** `update`: the status first, then the animation, then the cooldown's poll at `now`. */
    method Update(advance: real, now: int, pearlSize: Size) returns (pearl: Pearl?)
      requires Valid() && advance >= 0.0 && player != null
      modifies this`status, this`frameIndex, this`frame, this`hasShot, attackCoolDown
      ensures Valid()
      ensures status == ShellStatusOf(player.rect.CenterX(), rect.CenterX(), old(attackCoolDown.active))
      ensures var s := CycleAdvance(old(Cycle()), advance, FrameCount(status), status == Attack);
        && Cycle() == s.next && (pearl != null <==> s.fires)
        && (s.wrapped && old(hasShot) ==> attackCoolDown.active && attackCoolDown.startTime == now)
        && (!(s.wrapped && old(hasShot)) && now - old(attackCoolDown.startTime) >= 2000 ==>
              !attackCoolDown.active && attackCoolDown.startTime == 0)
        && (!(s.wrapped && old(hasShot)) && now - old(attackCoolDown.startTime) < 2000 ==>
              attackCoolDown.active == old(attackCoolDown.active) && attackCoolDown.startTime == old(attackCoolDown.startTime))
      ensures 0 <= frame < FrameCount(status)
      ensures pearl != null ==>
        && fresh(pearl) && fresh(pearl.timer) && pearl.Valid() && pearl.alive
        && pearl.rect == RectAt(rect.Center().Plus(PearlOffset(orientation)), pearlSize)
        && pearl.direction == (if orientation == FacingRight then 1 else -1)
    {
      GetStatus();
      pearl := Animate(advance, now, pearlSize);
      attackCoolDown.Update(now);
    }
  }
}

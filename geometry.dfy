/**
 * Integer points and pygame-style rectangles.  The attribute getters and
 * setters, `colliderect`, `collidepoint` and `inflate` follow pygame's own
 * integer semantics, including its C division (truncation toward zero)
 * where a width or a height is halved.
 */
module Geometry {

  /** Division of `a` by a positive `b`, truncated toward zero (C's `/`, Python's `int(a / b)`). */
  function TruncDiv(a: int, b: int): (q: int)
    requires b > 0
    ensures a >= 0 ==> q == a / b
    ensures a < 0 ==> q == -((-a) / b)
    ensures q * b <= a < q * b + b || (a < 0 && q * b - b < a <= q * b)
  {
    if a >= 0 then a / b else -((-a) / b)
  }

  function Min(a: int, b: int): int { if a <= b then a else b }
  function Max(a: int, b: int): int { if a >= b then a else b }

  datatype Point = Point(x: int, y: int) {
    function Plus(o: Point): Point { Point(x + o.x, y + o.y) }
    function Minus(o: Point): Point { Point(x - o.x, y - o.y) }
  }

  const Zero := Point(0, 0)

  /** A width and a height, as returned by a surface's `get_size`. */
  datatype Size = Size(w: int, h: int)

  datatype Rect = Rect(x: int, y: int, w: int, h: int) {
    function Left(): int { x }
    function Right(): int { x + w }
    function Top(): int { y }
    function Bottom(): int { y + h }
    function CenterX(): int { x + TruncDiv(w, 2) }
    function CenterY(): int { y + TruncDiv(h, 2) }

    function TopLeft(): Point { Point(x, y) }
    function Center(): Point { Point(CenterX(), CenterY()) }
    function MidBottom(): Point { Point(CenterX(), Bottom()) }
    function MidLeft(): Point { Point(Left(), CenterY()) }
    function MidRight(): Point { Point(Right(), CenterY()) }
    function BottomLeft(): Point { Point(Left(), Bottom()) }
    function BottomRight(): Point { Point(Right(), Bottom()) }

    /** Setters: each one moves the rectangle and keeps its size. */
    function WithLeft(v: int): Rect { this.(x := v) }
    function WithRight(v: int): Rect { this.(x := v - w) }
    function WithTop(v: int): Rect { this.(y := v) }
    function WithBottom(v: int): Rect { this.(y := v - h) }
    function WithCenterX(v: int): Rect { this.(x := v - TruncDiv(w, 2)) }
    function WithCenterY(v: int): Rect { this.(y := v - TruncDiv(h, 2)) }
    function WithTopLeft(p: Point): Rect { this.(x := p.x, y := p.y) }

    function Move(dx: int, dy: int): Rect { this.(x := x + dx, y := y + dy) }

    /** `inflate(dx, dy)`: grows about the centre, `x - dx / 2` with C division. */
    function Inflate(dx: int, dy: int): Rect
    {
      Rect(x - TruncDiv(dx, 2), y - TruncDiv(dy, 2), w + dx, h + dy)
    }

    /** `colliderect`: zero-sized rectangles never collide; edges that only touch do not overlap. */
    predicate Collides(o: Rect)
    {
      w != 0 && h != 0 && o.w != 0 && o.h != 0 &&
      Min(x, x + w) < Max(o.x, o.x + o.w) &&
      Min(y, y + h) < Max(o.y, o.y + o.h) &&
      Max(x, x + w) > Min(o.x, o.x + o.w) &&
      Max(y, y + h) > Min(o.y, o.y + o.h)
    }

    /** `collidepoint`: the left and top edges are inside, the right and bottom edges are not. */
    predicate ContainsPoint(p: Point)
    {
      x <= p.x < x + w && y <= p.y < y + h
    }
  }

  /** `surface.get_rect(topleft=p)`. */
  function RectAt(p: Point, s: Size): Rect { Rect(p.x, p.y, s.w, s.h) }

  /** `surface.get_rect(center=p)`. */
  function RectCenteredAt(p: Point, s: Size): (r: Rect)
    ensures s.w >= 0 && s.h >= 0 ==> r.Center() == p
  {
    Rect(p.x - TruncDiv(s.w, 2), p.y - TruncDiv(s.h, 2), s.w, s.h)
  }

  /** Some rectangle of `rs` contains `p` (the source's non-empty list comprehension). */
  predicate AnyContains(rs: seq<Rect>, p: Point)
  {
    exists i | 0 <= i < |rs| :: rs[i].ContainsPoint(p)
  }

  /** Some rectangle of `rs` overlaps `r`. */
  predicate AnyCollides(rs: seq<Rect>, r: Rect)
  {
    exists i | 0 <= i < |rs| :: rs[i].Collides(r)
  }
}

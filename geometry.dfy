/** Integer rectangles as the game uses them (a pygame Rect), the overlap test
    every collision check relies on, and the conversion that stores a
    fractional position into a rectangle coordinate. */
module Geometry {

  /** An axis-aligned rectangle with integer top-left corner and size. */
  datatype Rect = Rect(x: int, y: int, w: int, h: int) {
    function Left(): int { x }
    function Right(): int { x + w }
    function Top(): int { y }
    function Bottom(): int { y + h }
    function CenterX(): int { x + w / 2 }
    function CenterY(): int { y + h / 2 }

    /** Assigning an edge moves the rectangle and keeps its size. */
    function WithLeft(l: int): (r: Rect)
      ensures r.Left() == l && r.y == y && r.w == w && r.h == h
    { this.(x := l) }

    function WithRight(rt: int): (r: Rect)
      ensures r.Right() == rt && r.y == y && r.w == w && r.h == h
    { this.(x := rt - w) }

    function WithTop(t: int): (r: Rect)
      ensures r.Top() == t && r.x == x && r.w == w && r.h == h
    { this.(y := t) }

    function WithBottom(b: int): (r: Rect)
      ensures r.Bottom() == b && r.x == x && r.w == w && r.h == h
    { this.(y := b - h) }
  }

  /** A rectangle of the given size whose centre is (cx, cy), as
      get_rect(center=...) places it. */
  function CenteredAt(cx: int, cy: int, w: nat, h: nat): (r: Rect)
    ensures r.w == w && r.h == h
    ensures r.CenterX() == cx && r.CenterY() == cy
  {
    Rect(cx - w / 2, cy - h / 2, w, h)
  }

  /** The library's colliderect, taken as an assumption about pygame:
      two rectangles collide when their interiors overlap, so rectangles
      that only share an edge do not collide. */
  predicate Collide(a: Rect, b: Rect) {
    a.x < b.x + b.w && b.x < a.x + a.w && a.y < b.y + b.h && b.y < a.y + a.h
  }

  function Abs(n: int): (m: nat)
    ensures m == n || m == -n
  {
    if n < 0 then -n else n
  }

  function Min(a: int, b: int): (m: int)
    ensures m <= a && m <= b && (m == a || m == b)
  {
    if a < b then a else b
  }

  function Max(a: int, b: int): (m: int)
    ensures m >= a && m >= b && (m == a || m == b)
  {
    if a < b then b else a
  }

  /** Conversion of a fractional coordinate to an integer one: truncation
      toward zero, as int() does; a Rect coordinate assigned a float is
      assumed to be converted the same way. */
  function Trunc(r: real): (n: int)
    ensures 0.0 <= r ==> 0 <= n && n as real <= r < n as real + 1.0
    ensures r < 0.0 ==> n <= 0 && n as real - 1.0 < r <= n as real
  {
    if r >= 0.0 then r.Floor else -((-r).Floor)
  }

  lemma TruncOfInteger(k: int)
    ensures Trunc(k as real) == k
  {
  }
}

/** The parts of Qt's QPoint and QRect that the tool's geometry uses.
    A QRect is stored as Qt stores it: the left/top corner (x1, y1) and the
    right/bottom corner (x2, y2), both inclusive, so width() is x2 - x1 + 1. */
module QtGeometry {

  datatype Point = Point(x: int, y: int)

  datatype QRect = QRect(x1: int, y1: int, x2: int, y2: int) {
    function Left(): int { x1 }
    function Top(): int { y1 }
    /** QRect::right() is the last column inside the rectangle. */
    function Right(): int { x2 }
    /** QRect::bottom() is the last row inside the rectangle. */
    function Bottom(): int { y2 }
    function Width(): int { x2 - x1 + 1 }
    function Height(): int { y2 - y1 + 1 }
  }

  /** QRect(x, y, w, h). */
  function FromXYWH(x: int, y: int, w: int, h: int): (r: QRect)
    ensures r.Left() == x && r.Top() == y && r.Width() == w && r.Height() == h
  {
    QRect(x, y, x + w - 1, y + h - 1)
  }

  /** QRect(QPoint topLeft, QPoint bottomRight). */
  function FromCorners(p: Point, q: Point): (r: QRect)
    ensures r.Left() == p.x && r.Top() == p.y && r.Right() == q.x && r.Bottom() == q.y
  {
    QRect(p.x, p.y, q.x, q.y)
  }

  /** QRect::normalized() of Qt 5: the corners of an axis are swapped only
      when the right edge lies more than one column left of the left edge
      (width() < 0); the result never has a negative width or height. */
  function Normalized(r: QRect): (n: QRect)
    ensures n.Width() >= 0 && n.Height() >= 0
    ensures (n.x1 == r.x1 && n.x2 == r.x2) || (n.x1 == r.x2 && n.x2 == r.x1)
    ensures (n.y1 == r.y1 && n.y2 == r.y2) || (n.y1 == r.y2 && n.y2 == r.y1)
    ensures r.Width() >= 0 && r.Height() >= 0 ==> n == r
  {
    QRect(if r.x2 < r.x1 - 1 then r.x2 else r.x1, if r.y2 < r.y1 - 1 then r.y2 else r.y1,
          if r.x2 < r.x1 - 1 then r.x1 else r.x2, if r.y2 < r.y1 - 1 then r.y1 else r.y2)
  }

  /** Width of the normalized rectangle spanned by two dragged corners:
      the distance between them plus one, except the degenerate case where
      the second corner is exactly one column left of the first. */
  lemma NormalizedCornersWidth(p: Point, q: Point)
    ensures var n := Normalized(FromCorners(p, q));
      n.Width() == (if q.x == p.x - 1 then 0 else if q.x >= p.x then q.x - p.x + 1 else p.x - q.x + 1)
      && n.Height() == (if q.y == p.y - 1 then 0 else if q.y >= p.y then q.y - p.y + 1 else p.y - q.y + 1)
  {
  }

  /** QRect::contains(QPoint) (not proper): inclusive on both edges, with the
      same corner swap as normalized(). */
  predicate Contains(r: QRect, p: Point) {
    var l := if r.x2 < r.x1 - 1 then r.x2 else r.x1;
    var rr := if r.x2 < r.x1 - 1 then r.x1 else r.x2;
    var t := if r.y2 < r.y1 - 1 then r.y2 else r.y1;
    var b := if r.y2 < r.y1 - 1 then r.y1 else r.y2;
    l <= p.x <= rr && t <= p.y <= b
  }

  /** A rectangle and its normalized form contain the same points; for a
      rectangle of non-negative size that is the inclusive box
      [left, right] x [top, bottom]. */
  lemma ContainsNormalized(r: QRect, p: Point)
    ensures Contains(r, p) == Contains(Normalized(r), p)
    ensures r.Width() >= 0 && r.Height() >= 0 ==>
      (Contains(r, p) <==> r.Left() <= p.x <= r.Right() && r.Top() <= p.y <= r.Bottom())
  {
  }

  /** QRect::translate(dx, dy). */
  function Translated(r: QRect, dx: int, dy: int): (t: QRect)
    ensures t.Width() == r.Width() && t.Height() == r.Height()
    ensures t.Left() == r.Left() + dx && t.Top() == r.Top() + dy
  {
    QRect(r.x1 + dx, r.y1 + dy, r.x2 + dx, r.y2 + dy)
  }

  /** QRect::moveTo(x, y): same size, new top-left corner. */
  function MovedTo(r: QRect, x: int, y: int): (t: QRect)
    ensures t.Width() == r.Width() && t.Height() == r.Height()
    ensures t.Left() == x && t.Top() == y
  {
    QRect(x, y, r.x2 + x - r.x1, r.y2 + y - r.y1)
  }
}

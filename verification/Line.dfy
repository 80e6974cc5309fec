/** The line drawing of src/drivers/display.c: which pixels it visits, and how near the ideal line. */
module Line {

  datatype Point = Point(x: int, y: int)

  function Abs(a: int): nat {
    if a < 0 then -a else a
  }

  function Max(a: int, b: int): int {
    if a > b then a else b
  }

  /** The step from a towards b; -1 when they are equal. */
  function Towards(a: int, b: int): int {
    if a < b then 1 else -1
  }

  function Between(a: int, b: int, p: int): bool {
    a <= p <= b || b <= p <= a
  }

  /** One iteration of the loop: the error term and the coordinates it moves. */
  datatype Pen = Pen(x: int, y: int, err: int)

  function Move(p: Pen, dx: int, dy: int, sx: int, sy: int): Pen {
    var e2 := 2 * p.err;
    var h := if e2 >= dy then Pen(p.x + sx, p.y, p.err + dy) else p;
    if e2 <= dx then Pen(h.x, h.y + sy, h.err + dx) else h
  }

  /**
   The pen after i steps along x and j along y on the way from (x0, y0) to (x1, y1); its
   distance from the ideal line, scaled by the longer side, stays within half a pixel.
   */
  ghost predicate OnTrack(p: Pen, x0: int, y0: int, x1: int, y1: int, i: nat, j: nat) {
    var dx, dy := Abs(x1 - x0), Abs(y1 - y0);
    var sx, sy := Towards(x0, x1), Towards(y0, y1);
    && i <= dx && j <= dy
    && p.x == x0 + sx * i && p.y == y0 + sy * j
    && p.err == (j + 1) * dx - (i + 1) * dy
    && -Max(dx, dy) <= 2 * (j * dx - i * dy) <= Max(dx, dy)
    && (dx >= dy ==> j <= i) && (dy > dx ==> i <= j)
  }

  /** The points from a pen on track to the end of the line. */
  ghost function PointsFrom(p: Pen, x0: int, y0: int, x1: int, y1: int, i: nat, j: nat): seq<Point>
    requires OnTrack(p, x0, y0, x1, y1, i, j)
    decreases Abs(x1 - x0) + Abs(y1 - y0) - i - j
  {
    if p.x == x1 && p.y == y1 then [Point(p.x, p.y)]
    else
      MoveKeepsTrack(p, x0, y0, x1, y1, i, j);
      var (q, a, b) := Stepped(p, x0, y0, x1, y1, i, j);
      [Point(p.x, p.y)] + PointsFrom(q, x0, y0, x1, y1, a, b)
  }

  /** The next pen with its step counts. */
  ghost function Stepped(p: Pen, x0: int, y0: int, x1: int, y1: int, i: nat, j: nat): (Pen, nat, nat) {
    var dx, dy := Abs(x1 - x0), Abs(y1 - y0);
    var sx, sy := Towards(x0, x1), Towards(y0, y1);
    (Move(p, dx, -(dy as int), sx, sy), if 2 * p.err + dy >= 0 then i + 1 else i, if 2 * p.err <= dx then j + 1 else j)
  }

  /** The scaled distance is err without the constant part. */
  lemma Distance(dx: nat, dy: nat, i: nat, j: nat)
    ensures (j + 1) * dx - (i + 1) * dy == (j * dx - i * dy) + dx - dy
    ensures (j + 1) * dx - i * dy == (j * dx - i * dy) + dx
    ensures j * dx - (i + 1) * dy == (j * dx - i * dy) - dy
  {
  }

  lemma MulMono(a: int, b: int, c: nat)
    requires a <= b
    ensures a * c <= b * c
  {
  }

  lemma HalfIsZero(k: int, d: nat)
    requires d > 0 && 2 * (k * d) <= d && 2 * (k * d) + d >= 0
    ensures k == 0
  {
    if k > 0 {
      MulMono(1, k, d);
    } else if k < 0 {
      MulMono(k, -1, d);
    }
  }

  /** At the end of the longer side the shorter one has been covered too. */
  lemma EndsTogether(dx: nat, dy: nat, j: nat)
    requires dx >= dy && 2 * (j * dx - dx * dy) <= dx && 2 * (j * dx - dx * dy) + dx >= 0 && j <= dx
    ensures j == dy
  {
    if dx > 0 {
      var k: int := j - dy;
      assert j * dx - dx * dy == k * dx;
      HalfIsZero(k, dx);
    }
  }

  /** Each iteration advances along the longer side and keeps within half a pixel. */
  lemma MoveKeepsTrack(p: Pen, x0: int, y0: int, x1: int, y1: int, i: nat, j: nat)
    requires OnTrack(p, x0, y0, x1, y1, i, j) && !(p.x == x1 && p.y == y1)
    ensures
      var (q, a, b) := Stepped(p, x0, y0, x1, y1, i, j);
      var dx, dy := Abs(x1 - x0), Abs(y1 - y0);
      && OnTrack(q, x0, y0, x1, y1, a, b)
      && (dx >= dy ==> a == i + 1) && (dy > dx ==> b == j + 1)
  {
    var dx, dy := Abs(x1 - x0), Abs(y1 - y0);
    NotDone(dx, dy, i, j, p, x0, y0, x1, y1);
    var (q, a, b) := Stepped(p, x0, y0, x1, y1, i, j);
    StepDistance(dx, dy, i, j, p.err, a, b);
    if dx >= dy {
      StaysInBox(dx, dy, a, b);
    } else {
      StaysInBox(dy, dx, b, a);
    }
    assert q.err == (b + 1) * dx - (a + 1) * dy;
    assert Towards(x0, x1) * (i + 1) == Towards(x0, x1) * i + Towards(x0, x1);
    assert Towards(y0, y1) * (j + 1) == Towards(y0, y1) * j + Towards(y0, y1);
  }

  /** What one iteration does to the error term and to the distance it stands for. */
  lemma StepDistance(dx: nat, dy: nat, i: nat, j: nat, err: int, a: nat, b: nat)
    requires err == (j + 1) * dx - (i + 1) * dy && -Max(dx, dy) <= 2 * (j * dx - i * dy) <= Max(dx, dy)
    requires a == (if 2 * err + dy >= 0 then i + 1 else i) && b == (if 2 * err <= dx then j + 1 else j)
    ensures dx >= dy ==> a == i + 1
    ensures dy > dx ==> b == j + 1
    ensures -Max(dx, dy) <= 2 * (b * dx - a * dy) <= Max(dx, dy)
    ensures (b + 1) * dx - (a + 1) * dy == err + (if b > j then dx else 0) - (if a > i then dy else 0)
  {
    Distance(dx, dy, i, j);
    Distance(dx, dy, a, b);
  }

  /** A pen that has not arrived has steps left along the longer side. */
  lemma NotDone(dx: nat, dy: nat, i: nat, j: nat, p: Pen, x0: int, y0: int, x1: int, y1: int)
    requires dx == Abs(x1 - x0) && dy == Abs(y1 - y0) && OnTrack(p, x0, y0, x1, y1, i, j) && !(p.x == x1 && p.y == y1)
    ensures dx >= dy ==> i < dx
    ensures dy > dx ==> j < dy
  {
    if dx >= dy && i == dx {
      EndsTogether(dx, dy, j);
    }
    if dy > dx && j == dy {
      EndsTogether(dy, dx, i);
    }
  }

  /** Within half a pixel of the line and not past its end on the long side: not past it on the short one. */
  lemma StaysInBox(dx: nat, dy: nat, i: nat, j: nat)
    requires dx >= dy && 0 < i <= dx && 2 * (j * dx - i * dy) <= dx
    ensures j <= dy
  {
    assert (dy + 1) * dx == dx * dy + dx;
    if j > dy {
      MulMono(dy + 1, j, dx);
      MulMono(i, dx, dy);
    }
  }

  /** The points draw_line_impl plots, in order. */
  ghost function Points(x0: int, y0: int, x1: int, y1: int): seq<Point> {
    var dx, dy := Abs(x1 - x0), Abs(y1 - y0);
    StartsOnTrack(x0, y0, x1, y1);
    PointsFrom(Pen(x0, y0, dx - dy), x0, y0, x1, y1, 0, 0)
  }

  lemma StartsOnTrack(x0: int, y0: int, x1: int, y1: int)
    ensures OnTrack(Pen(x0, y0, Abs(x1 - x0) - Abs(y1 - y0)), x0, y0, x1, y1, 0, 0)
  {
  }

  /** Twice the distance from the ideal line, measured along the shorter side, is at most one pixel. */
  ghost predicate NearLine(p: Point, x0: int, y0: int, x1: int, y1: int) {
    var cross := (p.y - y0) * (x1 - x0) - (p.x - x0) * (y1 - y0);
    2 * Abs(cross) <= Max(Abs(x1 - x0), Abs(y1 - y0))
  }

  lemma Signs(a: int, b: int, sx: int, sy: int, i: int, j: int)
    requires sx in {1, -1} && sy in {1, -1}
    ensures (sy * j) * (sx * a) - (sx * i) * (sy * b) == j * a - i * b ||
            (sy * j) * (sx * a) - (sx * i) * (sy * b) == -(j * a - i * b)
  {
  }

  lemma TrackIsNear(p: Pen, x0: int, y0: int, x1: int, y1: int, i: nat, j: nat)
    requires OnTrack(p, x0, y0, x1, y1, i, j)
    ensures NearLine(Point(p.x, p.y), x0, y0, x1, y1)
  {
    var dx, dy := Abs(x1 - x0), Abs(y1 - y0);
    var sx, sy := Towards(x0, x1), Towards(y0, y1);
    assert x1 - x0 == sx * dx && y1 - y0 == sy * dy;
    Signs(dx, dy, sx, sy, i, j);
  }

  /** How far along the longer side the k-th point lies. */
  ghost predicate Advances(p: Point, x0: int, y0: int, x1: int, y1: int, k: nat) {
    if Abs(x1 - x0) >= Abs(y1 - y0) then p.x == x0 + Towards(x0, x1) * k
    else p.y == y0 + Towards(y0, y1) * k
  }

  /** Every point is near the line and one step further along than the one before. */
  ghost predicate WellPlaced(ps: seq<Point>, x0: int, y0: int, x1: int, y1: int, k: nat) {
    ps != [] ==>
        NearLine(ps[0], x0, y0, x1, y1) && Advances(ps[0], x0, y0, x1, y1, k) &&
        WellPlaced(ps[1..], x0, y0, x1, y1, k + 1)
  }

  lemma {:induction false} WellPlacedAt(ps: seq<Point>, x0: int, y0: int, x1: int, y1: int, start: nat, k: nat)
    requires WellPlaced(ps, x0, y0, x1, y1, start) && k < |ps|
    ensures NearLine(ps[k], x0, y0, x1, y1) && Advances(ps[k], x0, y0, x1, y1, start + k)
  {
    if k > 0 {
      WellPlacedAt(ps[1..], x0, y0, x1, y1, start + 1, k - 1);
    }
  }

  lemma Arrived(p: Pen, x0: int, y0: int, x1: int, y1: int, i: nat, j: nat)
    requires OnTrack(p, x0, y0, x1, y1, i, j) && p.x == x1 && p.y == y1
    ensures i == Abs(x1 - x0) && j == Abs(y1 - y0)
  {
  }

  lemma {:induction false} PointsFromEnds(p: Pen, x0: int, y0: int, x1: int, y1: int, i: nat, j: nat)
    requires OnTrack(p, x0, y0, x1, y1, i, j)
    ensures
      var ps, dx, dy := PointsFrom(p, x0, y0, x1, y1, i, j), Abs(x1 - x0), Abs(y1 - y0);
      && |ps| == Max(dx, dy) - (if dx >= dy then i else j) + 1
      && ps[0] == Point(p.x, p.y) && ps[|ps| - 1] == Point(x1, y1)
    decreases Abs(x1 - x0) + Abs(y1 - y0) - i - j
  {
    if p.x == x1 && p.y == y1 {
      Arrived(p, x0, y0, x1, y1, i, j);
    } else {
      MoveKeepsTrack(p, x0, y0, x1, y1, i, j);
      var (q, a, b) := Stepped(p, x0, y0, x1, y1, i, j);
      PointsFromEnds(q, x0, y0, x1, y1, a, b);
    }
  }

  /** The steps taken along the longer side. */
  function Along(x0: int, y0: int, x1: int, y1: int, i: nat, j: nat): nat {
    if Abs(x1 - x0) >= Abs(y1 - y0) then i else j
  }

  lemma TrackAdvances(p: Pen, x0: int, y0: int, x1: int, y1: int, i: nat, j: nat)
    requires OnTrack(p, x0, y0, x1, y1, i, j)
    ensures Advances(Point(p.x, p.y), x0, y0, x1, y1, Along(x0, y0, x1, y1, i, j))
  {
  }

  lemma {:induction false} PointsFromPlaced(p: Pen, x0: int, y0: int, x1: int, y1: int, i: nat, j: nat)
    requires OnTrack(p, x0, y0, x1, y1, i, j)
    ensures WellPlaced(PointsFrom(p, x0, y0, x1, y1, i, j), x0, y0, x1, y1, Along(x0, y0, x1, y1, i, j))
    decreases Abs(x1 - x0) + Abs(y1 - y0) - i - j
  {
    TrackIsNear(p, x0, y0, x1, y1, i, j);
    TrackAdvances(p, x0, y0, x1, y1, i, j);
    if !(p.x == x1 && p.y == y1) {
      MoveKeepsTrack(p, x0, y0, x1, y1, i, j);
      var (q, a, b) := Stepped(p, x0, y0, x1, y1, i, j);
      PointsFromPlaced(q, x0, y0, x1, y1, a, b);
      assert PointsFrom(p, x0, y0, x1, y1, i, j)[1..] == PointsFrom(q, x0, y0, x1, y1, a, b);
    }
  }

  /**
   For all integer end points: max(|dx|, |dy|) + 1 points, from the first end point to the
   last, one per step of the longer side, each within half a pixel of the ideal line.
   */
  lemma LineSpec(x0: int, y0: int, x1: int, y1: int)
    ensures
      var ps := Points(x0, y0, x1, y1);
      && |ps| == Max(Abs(x1 - x0), Abs(y1 - y0)) + 1
      && ps[0] == Point(x0, y0) && ps[|ps| - 1] == Point(x1, y1)
      && forall k :: 0 <= k < |ps| ==> NearLine(ps[k], x0, y0, x1, y1) && Advances(ps[k], x0, y0, x1, y1, k)
  {
    StartsOnTrack(x0, y0, x1, y1);
    PointsFromEnds(Pen(x0, y0, Abs(x1 - x0) - Abs(y1 - y0)), x0, y0, x1, y1, 0, 0);
    PointsFromPlaced(Pen(x0, y0, Abs(x1 - x0) - Abs(y1 - y0)), x0, y0, x1, y1, 0, 0);
    var ps := Points(x0, y0, x1, y1);
    forall k | 0 <= k < |ps|
      ensures NearLine(ps[k], x0, y0, x1, y1) && Advances(ps[k], x0, y0, x1, y1, k)
    {
      WellPlacedAt(ps, x0, y0, x1, y1, 0, k);
    }
  }

  /** A horizontal line covers exactly the pixels between its ends. */
  lemma HorizontalLine(x0: int, x1: int, y: int, p: Point)
    ensures p in Points(x0, y, x1, y) <==> p.y == y && Between(x0, x1, p.x)
  {
    LineSpec(x0, y, x1, y);
    var ps := Points(x0, y, x1, y);
    forall k | 0 <= k < |ps|
      ensures ps[k] == Point(if x0 < x1 then x0 + k else x0 - k, y)
    {
      assert NearLine(ps[k], x0, y, x1, y) && Advances(ps[k], x0, y, x1, y, k);
      if x0 != x1 {
        OnAxis(ps[k].y - y, x1 - x0);
      }
    }
    if p.y == y && Between(x0, x1, p.x) {
      assert ps[Abs(p.x - x0)] == p;
    }
  }

  lemma OnAxis(k: int, d: int)
    requires d != 0 && 2 * Abs(k * d) <= Abs(d)
    ensures k == 0
  {
    if d > 0 {
      HalfIsZero(k, d);
    } else {
      assert k * (-d) == -(k * d);
      HalfIsZero(k, -d);
    }
  }

  lemma VerticalLine(x: int, y0: int, y1: int, p: Point)
    ensures p in Points(x, y0, x, y1) <==> p.x == x && Between(y0, y1, p.y)
  {
    LineSpec(x, y0, x, y1);
    var ps := Points(x, y0, x, y1);
    forall k | 0 <= k < |ps|
      ensures ps[k] == Point(x, if y0 < y1 then y0 + k else y0 - k)
    {
      assert NearLine(ps[k], x, y0, x, y1) && Advances(ps[k], x, y0, x, y1, k);
      if y0 != y1 {
        OnAxis(ps[k].x - x, y1 - y0);
      }
    }
    if p.x == x && Between(y0, y1, p.y) {
      assert ps[Abs(p.y - y0)] == p;
    }
  }
}

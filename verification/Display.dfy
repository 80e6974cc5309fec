/**
 The framebuffer of src/drivers/display.c: drawing into RGB332 rows, remembering which rows
 are dirty, and sending only those to the panel.
 */
module Display {
  import opened Line

  // ---- pixels -----------------------------------------------------------------------------

  /** RGB332 to RGB565 by bit replication. */
  function Expand(p: bv8): bv16 {
    var r3: bv16 := ((p >> 5) & 0x07) as bv16;
    var g3: bv16 := ((p >> 2) & 0x07) as bv16;
    var b2: bv16 := (p & 0x03) as bv16;
    var r5 := (r3 << 2) | (r3 >> 1);
    var g6 := (g3 << 3) | g3;
    var b5 := (b2 << 3) | (b2 << 1) | (b2 >> 1);
    (r5 << 11) | (g6 << 5) | b5
  }

  /** Different colours stay different, and black and white map to black and white. */
  lemma ExpandIsFaithful(p: bv8, q: bv8)
    ensures Expand(p) == Expand(q) ==> p == q
    ensures Expand(0x00) == 0x0000 && Expand(0xFF) == 0xFFFF
  {
  }

  /**
   Each channel of the panel's pixel is the level nearest to the same channel of the framebuffer's:
   red in the top bits, then green, then blue.
   */
  lemma ExpandScales(p: bv8)
    ensures var from, to: bv16 := (p >> 5) as bv16, Expand(p) >> 11;
            31 * from <= 7 * to + 3 && 7 * to <= 31 * from + 3
    ensures var from, to: bv16 := ((p >> 2) & 7) as bv16, (Expand(p) >> 5) & 63;
            63 * from == 7 * to
    ensures var from, to: bv16 := (p & 3) as bv16, Expand(p) & 31;
            31 * from <= 3 * to + 1 && 3 * to <= 31 * from + 1
  {
  }

  function HighByte(px: bv16): bv8 { (px >> 8) as bv8 }
  function LowByte(px: bv16): bv8 { (px & 0xFF) as bv8 }

  /** The panel puts the two bytes of a pixel back together. */
  function Join(hi: bv8, lo: bv8): bv16 { ((hi as bv16) << 8) | (lo as bv16) }

  lemma JoinSplit(px: bv16)
    ensures Join(HighByte(px), LowByte(px)) == px
  {
  }

  // ---- rows and cells ---------------------------------------------------------------------------

  /** The index of pixel x of row y in an array of rows of w pixels. */
  function Cell(w: nat, y: nat, x: nat): nat {
    y * w + x
  }

  lemma RowEnd(w: nat, y: nat, h: nat)
    requires y < h
    ensures Cell(w, y, 0) + w <= Cell(w, h, 0)
  {
    MulMono(y + 1, h, w);
    assert (y + 1) * w == y * w + w;
  }

  lemma CellBound(w: nat, y: nat, x: nat, h: nat)
    requires x < w && y < h
    ensures Cell(w, y, x) < Cell(w, h, 0)
  {
    RowEnd(w, y, h);
  }

  /** Cells of different rows lie apart. */
  lemma RowsApart(w: nat, y: nat, x: nat, y': nat, x': nat)
    requires x < w && x' < w && y != y'
    ensures Cell(w, y, x) < Cell(w, y', 0) || Cell(w, y, x) >= Cell(w, y', 0) + w
    ensures Cell(w, y, x) != Cell(w, y', x')
  {
    if y < y' {
      RowEnd(w, y, y');
    } else {
      RowEnd(w, y', y);
    }
  }

  /** Row y of the panel shows row y of the framebuffer. */
  ghost predicate RowShown(fb: seq<bv8>, ram: seq<bv16>, w: nat, off: nat, y: nat) {
    forall x :: 0 <= x < w ==> CellShown(fb, ram, w, off, y, x)
  }

  ghost predicate CellShown(fb: seq<bv8>, ram: seq<bv16>, w: nat, off: nat, y: nat, x: nat) {
    Cell(w, y, x) < |fb| && Cell(w, off + y, x) < |ram| && ram[Cell(w, off + y, x)] == Expand(fb[Cell(w, y, x)])
  }

  // ---- drawing as a function on the framebuffer -------------------------------------------------------

  predicate OnScreen(p: Point, w: nat, h: nat) {
    0 <= p.x < w && 0 <= p.y < h
  }

  function Plot(fb: seq<bv8>, w: nat, h: nat, p: Point, color: bv8): (r: seq<bv8>)
    ensures |r| == |fb|
  {
    if OnScreen(p, w, h) && Cell(w, p.y, p.x) < |fb| then fb[Cell(w, p.y, p.x) := color] else fb
  }

  function PlotAll(fb: seq<bv8>, w: nat, h: nat, ps: seq<Point>, color: bv8): (r: seq<bv8>)
    ensures |r| == |fb|
    decreases |ps|
  {
    if ps == [] then fb else PlotAll(Plot(fb, w, h, ps[0], color), w, h, ps[1..], color)
  }

  lemma {:induction false} PlotAppend(fb: seq<bv8>, w: nat, h: nat, ps: seq<Point>, qs: seq<Point>, color: bv8)
    ensures PlotAll(fb, w, h, ps + qs, color) == PlotAll(PlotAll(fb, w, h, ps, color), w, h, qs, color)
    decreases |ps|
  {
    if ps == [] {
      assert ps + qs == qs;
    } else {
      assert (ps + qs)[1..] == ps[1..] + qs;
      PlotAppend(Plot(fb, w, h, ps[0], color), w, h, ps[1..], qs, color);
    }
  }

  /** A picture drawn pixel by pixel. */
  function Painted(fb: seq<bv8>, w: nat, h: nat, dots: seq<(Point, bv8)>): (r: seq<bv8>)
    ensures |r| == |fb|
  {
    if dots == [] then fb
    else Plot(Painted(fb, w, h, dots[..|dots| - 1]), w, h, dots[|dots| - 1].0, dots[|dots| - 1].1)
  }

  /** Drawing changes exactly the pixels drawn. */
  lemma {:induction false} PlotAllPixel(fb: seq<bv8>, w: nat, h: nat, ps: seq<Point>, color: bv8, p: Point)
    requires 0 <= p.x < w && 0 <= p.y < h && |fb| == w * h
    ensures 0 <= p.y * w + p.x < |fb|
    ensures PlotAll(fb, w, h, ps, color)[p.y * w + p.x] == if p in ps then color else fb[p.y * w + p.x]
    decreases |ps|
  {
    CellBound(w, p.y, p.x, h);
    if ps != [] {
      var q := ps[0];
      PlotAllPixel(Plot(fb, w, h, q, color), w, h, ps[1..], color, p);
      if OnScreen(q, w, h) {
        CellBound(w, q.y, q.x, h);
        if q != p && q.y != p.y {
          RowsApart(w, q.y, q.x, p.y, p.x);
        }
      }
    }
  }

  /** The last dot drawn on a pixel shows. */
  lemma {:induction false} PaintedPixel(fb: seq<bv8>, w: nat, h: nat, dots: seq<(Point, bv8)>, p: Point)
    requires 0 <= p.x < w && 0 <= p.y < h && |fb| == w * h
    ensures 0 <= p.y * w + p.x < |fb|
    ensures (forall k :: 0 <= k < |dots| ==> dots[k].0 != p) ==>
              Painted(fb, w, h, dots)[p.y * w + p.x] == fb[p.y * w + p.x]
    ensures forall k :: 0 <= k < |dots| && dots[k].0 == p && (forall j :: k < j < |dots| ==> dots[j].0 != p) ==>
              Painted(fb, w, h, dots)[p.y * w + p.x] == dots[k].1
    decreases |dots|
  {
    CellBound(w, p.y, p.x, h);
    if dots != [] {
      var n := |dots| - 1;
      var before, q := Painted(fb, w, h, dots[..n]), dots[n].0;
      PaintedPixel(fb, w, h, dots[..n], p);
      PlotAllPixel(before, w, h, [q], dots[n].1, p);
      assert Plot(before, w, h, q, dots[n].1) == PlotAll(before, w, h, [q], dots[n].1);
    }
  }

  /** Drawing in one row leaves the other rows' agreement alone. */
  lemma PlotKeepsRow(fb: seq<bv8>, ram: seq<bv16>, w: nat, h: nat, off: nat, p: Point, color: bv8, y: nat)
    requires RowShown(fb, ram, w, off, y) && p.y != y
    ensures RowShown(Plot(fb, w, h, p, color), ram, w, off, y)
  {
    if OnScreen(p, w, h) {
      forall x | 0 <= x < w
        ensures CellShown(Plot(fb, w, h, p, color), ram, w, off, y, x)
      {
        assert CellShown(fb, ram, w, off, y, x);
        RowsApart(w, y, x, p.y, p.x);
      }
    }
  }

  /** The panel: a row window, and rows that arrive one after the other inside it. */
  class Panel {
    const width: nat
    const ram: array<bv16>
    var winStart: nat
    var winEnd: nat
    var row: nat

    ghost predicate Valid(rows: nat)
      reads this
    {
      ram.Length == Cell(width, rows, 0)
    }

    constructor (width: nat, rows: nat)
      ensures this.width == width && Valid(rows) && fresh(ram)
    {
      this.width := width;
      ram := new bv16[Cell(width, rows, 0)];
      winStart, winEnd, row := 0, 0, 0;
    }

    /** RASET, then RAMWR. */
    method Window(first: nat, last: nat)
      modifies this
      ensures winStart == first && winEnd == last && row == first
    {
      winStart, winEnd, row := first, last, first;
    }

    /** One row of pixel bytes, high byte first. */
    method SendRow(bytes: array<bv8>, ghost rows: nat)
      requires Valid(rows) && row < rows && bytes.Length == 2 * width
      modifies `row, ram
      ensures row == if old(row) == winEnd then winStart else old(row) + 1
      ensures forall x :: 0 <= x < width ==>
                Cell(width, old(row), x) < ram.Length && ram[Cell(width, old(row), x)] ==
                    Join(bytes[2 * x], bytes[2 * x + 1])
      ensures forall k :: 0 <= k < ram.Length && !(Cell(width, old(row), 0) <= k < Cell(width, old(row), 0) + width) ==>
                ram[k] == old(ram[k])
    {
      RowEnd(width, row, rows);
      var x := 0;
      while x < width
        invariant 0 <= x <= width && row == old(row)
        invariant forall k :: 0 <= k < x ==> ram[Cell(width, row, k)] == Join(bytes[2 * k], bytes[2 * k + 1])
        invariant forall k :: 0 <= k < ram.Length && !(Cell(width, row, 0) <= k < Cell(width, row, 0) + width) ==>
                  ram[k] == old(ram[k])
      {
        ram[Cell(width, row, x)] := Join(bytes[2 * x], bytes[2 * x + 1]);
        x := x + 1;
      }
      row := if row == winEnd then winStart else row + 1;
    }
  }

  /** Every row outside the dirty range is on the panel as it is in the framebuffer. */
  ghost predicate CleanRowsShown(fb: seq<bv8>, ram: seq<bv16>, w: nat, h: nat, off: nat, dirtyMin: nat, dirtyMax: nat) {
    forall y :: 0 <= y < h && (y < dirtyMin || y > dirtyMax) ==> RowShown(fb, ram, w, off, y)
  }

  lemma PlotKeepsClean(fb: seq<bv8>, ram: seq<bv16>, w: nat, h: nat, off: nat, lo: nat, hi: nat, p: Point, color: bv8)
    requires CleanRowsShown(fb, ram, w, h, off, lo, hi) && OnScreen(p, w, h)
    ensures CleanRowsShown(Plot(fb, w, h, p, color), ram, w, h, off,
                           if p.y < lo then p.y else lo, if p.y > hi then p.y else hi)
  {
    var fb' := Plot(fb, w, h, p, color);
    forall y | 0 <= y < h && ((y < lo && y < p.y) || (y > hi && y > p.y))
      ensures RowShown(fb', ram, w, off, y)
    {
      PlotKeepsRow(fb, ram, w, h, off, p, color, y);
    }
  }

  /** Rows no byte of a linear write falls into. */
  lemma WriteKeepsRow(fb: seq<bv8>, fb': seq<bv8>, ram: seq<bv16>, w: nat, off: nat, start: nat, end: nat, y: nat)
    requires RowShown(fb, ram, w, off, y) && |fb'| == |fb| && 0 < w && start < end
    requires forall k :: 0 <= k < |fb| && !(start <= k < end) ==> fb'[k] == fb[k]
    requires y < start / w || y > (end - 1) / w
    ensures RowShown(fb', ram, w, off, y)
  {
    forall x | 0 <= x < w
      ensures CellShown(fb', ram, w, off, y, x)
    {
      assert CellShown(fb, ram, w, off, y, x);
      if start <= Cell(w, y, x) < end {
        CellRow(w, y, x);
        DivMono(start, Cell(w, y, x), w);
        DivMono(Cell(w, y, x), end - 1, w);
      }
    }
  }

  lemma WriteKeepsClean(fb: seq<bv8>, fb': seq<bv8>, ram: seq<bv16>, w: nat, h: nat, off: nat, lo: nat, hi: nat,
          start: nat, end: nat)
    requires CleanRowsShown(fb, ram, w, h, off, lo, hi) && |fb'| == |fb| == Cell(w, h, 0) && 0 < w &&
             start < end <= |fb|
    requires forall k :: 0 <= k < |fb| && !(start <= k < end) ==> fb'[k] == fb[k]
    ensures
      var first, last := start / w, (end - 1) / w;
      last < h && CleanRowsShown(fb', ram, w, h, off, if first < lo then first else lo, if last > hi then last else hi)
    ensures start / w <= (end - 1) / w
  {
    var first, last := start / w, (end - 1) / w;
    DivMono(start, end - 1, w);
    LastRow(end - 1, w, h);
    forall y | 0 <= y < h && ((y < lo && y < first) || (y > hi && y > last))
      ensures RowShown(fb', ram, w, off, y)
    {
      assert RowShown(fb, ram, w, off, y);
      WriteKeepsRow(fb, fb', ram, w, off, start, end, y);
    }
    assert first <= last;
  }

  lemma LastRow(a: nat, w: nat, h: nat)
    requires 0 < w && a < Cell(w, h, 0)
    ensures a / w < h
  {
    var d := a / w;
    assert a == d * w + a % w;
    if d >= h {
      MulMono(h, d, w);
    }
  }

  lemma CellRow(w: nat, y: nat, x: nat)
    requires x < w
    ensures Cell(w, y, x) / w == y
  {
    QuotientIs(y * w + x, w, y);
  }

  lemma QuotientIs(a: nat, w: nat, q: nat)
    requires 0 < w && q * w <= a < q * w + w
    ensures a / w == q
  {
    var d := a / w;
    assert a == d * w + a % w;
    assert (d + 1) * w == d * w + w && (q + 1) * w == q * w + w;
    if d < q {
      MulMono(d + 1, q, w);
    } else if d > q {
      MulMono(q + 1, d, w);
    }
  }

  lemma DivMono(a: nat, b: nat, w: nat)
    requires 0 < w && a <= b
    ensures a / w <= b / w
  {
    var x, y := a / w, b / w;
    assert a == x * w + a % w && b == y * w + b % w && (y + 1) * w == y * w + w;
    if x > y {
      MulMono(y + 1, x, w);
    }
  }

  /** With the pixels from this pen on still to draw, the picture will be goal. */
  ghost predicate LineLeft(goal: seq<bv8>, fb: seq<bv8>, w: nat, h: nat, p: Pen, x0: int, y0: int, x1: int, y1: int,
          i: nat, j: nat, color: bv8) {
    OnTrack(p, x0, y0, x1, y1, i, j) && goal == PlotAll(fb, w, h, PointsFrom(p, x0, y0, x1, y1, i, j), color)
  }

  /** Drawing a line from a pen on is drawing its pixel and then the rest. */
  lemma LineStep(goal: seq<bv8>, fb: seq<bv8>, w: nat, h: nat, p: Pen, x0: int, y0: int, x1: int, y1: int, i: nat,
          j: nat, color: bv8)
    requires LineLeft(goal, fb, w, h, p, x0, y0, x1, y1, i, j, color)
    ensures
      var now := Plot(fb, w, h, Point(p.x, p.y), color);
      if p.x == x1 && p.y == y1 then goal == now
      else
        var (q, a, b) := Stepped(p, x0, y0, x1, y1, i, j);
        && LineLeft(goal, now, w, h, q, x0, y0, x1, y1, a, b, color)
        && a <= Abs(x1 - x0) && b <= Abs(y1 - y0) && i <= a && j <= b && a + b > i + j
  {
    var ps := PointsFrom(p, x0, y0, x1, y1, i, j);
    if p.x == x1 && p.y == y1 {
      assert ps[1..] == [] && PlotAll(Plot(fb, w, h, Point(p.x, p.y), color), w, h, [], color) ==
          Plot(fb, w, h, Point(p.x, p.y), color);
    } else {
      MoveKeepsTrack(p, x0, y0, x1, y1, i, j);
      var (q, a, b) := Stepped(p, x0, y0, x1, y1, i, j);
      assert ps[1..] == PointsFrom(q, x0, y0, x1, y1, a, b);
    }
  }

  lemma LineStarts(fb: seq<bv8>, w: nat, h: nat, x0: int, y0: int, x1: int, y1: int, color: bv8)
    ensures
      LineLeft(PlotAll(fb, w, h, Points(x0, y0, x1, y1), color), fb, w, h, Pen(x0, y0, Abs(x1 - x0) - Abs(y1 - y0)),
          x0, y0, x1, y1, 0, 0, color)
  {
    StartsOnTrack(x0, y0, x1, y1);
  }

  /** The end of draw_line_impl's loop: step along x, along y, or both. */
  method Advance(p: Pen, dx: int, dy: int, sx: int, sy: int) returns (q: Pen)
    ensures q == Move(p, dx, dy, sx, sy)
  {
    var e2 := 2 * p.err;
    q := p;
    if e2 >= dy {
      q := Pen(q.x + sx, q.y, q.err + dy);
    }
    if e2 <= dx {
      q := Pen(q.x, q.y + sy, q.err + dx);
    }
  }

  class Display {
    const width: nat
    const height: nat
    const rowOffset: nat            // DISP_ROW_OFFSET
    const framebuffer: array<bv8>
    const panel: Panel
    var background: bv8
    var dirtyMin: nat
    var dirtyMax: nat
    var writeCursor: nat

    ghost predicate Valid()
      reads this, framebuffer, panel, panel.ram
    {
      && 0 < width && 0 < height && framebuffer.Length == Cell(width, height, 0)
      && panel.width == width && panel.Valid(rowOffset + height)
      && dirtyMin <= height && dirtyMax < height
      && CleanRowsShown(framebuffer[..], panel.ram[..], width, height, rowOffset, dirtyMin, dirtyMax)
    }

    /**
     The first display_open: blue screen, the splash text as whatever pixels it consists of,
     and a first flush.
     */
    constructor (width: nat, height: nat, rowOffset: nat, splash: seq<(Point, bv8)>)
      requires 0 < width && 0 < height
      ensures Valid() && this.width == width && this.height == height && this.rowOffset == rowOffset
      ensures fresh(framebuffer) && fresh(panel) && fresh(panel.ram) && writeCursor == 0 && dirtyMin > dirtyMax
      ensures framebuffer[..] == Painted(seq(Cell(width, height, 0), _ => 0x03), width, height, splash)
    {
      this.width, this.height, this.rowOffset := width, height, rowOffset;
      framebuffer := new bv8[Cell(width, height, 0)](_ => 0x03);
      panel := new Panel(width, rowOffset + height);
      background := 0x00;
      dirtyMin, dirtyMax := 0, height - 1;
      writeCursor := 0;
      new;
      for i := 0 to |splash|
        modifies framebuffer, `dirtyMin, `dirtyMax
        invariant Valid() && framebuffer[..] == Painted(seq(Cell(width, height, 0), _ => 0x03), width, height,
                  splash[..i])
      {
        DrawPixel(splash[i].0.x, splash[i].0.y, splash[i].1);
        assert splash[..i + 1][..i] == splash[..i];
      }
      assert splash[..|splash|] == splash;
      Flush();
    }

    /** A later display_open starts writing at the top again. */
    method Reopen()
      requires Valid()
      modifies `writeCursor
      ensures Valid() && writeCursor == 0
    {
      writeCursor := 0;
    }

    /** dirty_mark_row */
    method MarkRow(y: nat)
      modifies `dirtyMin, `dirtyMax
      ensures dirtyMin == if y < old(dirtyMin) then y else old(dirtyMin)
      ensures dirtyMax == if y > old(dirtyMax) then y else old(dirtyMax)
    {
      if y < dirtyMin { dirtyMin := y; }
      if y > dirtyMax { dirtyMax := y; }
    }

    /** draw_pixel_impl */
    method DrawPixel(x: int, y: int, color: bv8)
      requires Valid()
      modifies framebuffer, `dirtyMin, `dirtyMax
      ensures Valid() && framebuffer[..] == Plot(old(framebuffer[..]), width, height, Point(x, y), color)
    {
      if x < 0 || y < 0 || x >= width || y >= height {
        return;
      }
      CellBound(width, y, x, height);
      PlotKeepsClean(framebuffer[..], panel.ram[..], width, height, rowOffset, dirtyMin, dirtyMax, Point(x, y), color);
      framebuffer[y * width + x] := color;
      MarkRow(y);
    }

    /** draw_line_impl */
    method DrawLine(x0: int, y0: int, x1: int, y1: int, color: bv8)
      requires Valid()
      modifies framebuffer, `dirtyMin, `dirtyMax
      ensures Valid() && framebuffer[..] == PlotAll(old(framebuffer[..]), width, height, Points(x0, y0, x1, y1), color)
    {
      var dx := if x1 > x0 then x1 - x0 else x0 - x1;
      var dy := -(if y1 > y0 then y1 - y0 else y0 - y1);
      var sx := if x0 < x1 then 1 else -1;
      var sy := if y0 < y1 then 1 else -1;
      var pen := Pen(x0, y0, dx + dy);
      ghost var i, j, goal := 0, 0, PlotAll(framebuffer[..], width, height, Points(x0, y0, x1, y1), color);
      LineStarts(framebuffer[..], width, height, x0, y0, x1, y1, color);
      while true
        invariant Valid() && LineLeft(goal, framebuffer[..], width, height, pen, x0, y0, x1, y1, i, j, color)
        decreases Abs(x1 - x0) + Abs(y1 - y0) - i - j
      {
        var done;
        done, pen, i, j := Iterate(goal, pen, x0, y0, x1, y1, i, j, color, dx, dy, sx, sy);
        if done {
          return;
        }
      }
    }

    /** One iteration: plot the pen's pixel, and move the pen unless it has arrived. */
    method Iterate(ghost goal: seq<bv8>, pen: Pen, ghost x0: int, ghost y0: int, x1: int, y1: int, ghost i: nat,
                   ghost j: nat,
                   color: bv8, dx: int, dy: int, sx: int, sy: int)
      returns (done: bool, next: Pen, ghost a: nat, ghost b: nat)
      requires Valid() && LineLeft(goal, framebuffer[..], width, height, pen, x0, y0, x1, y1, i, j, color)
      requires dx == Abs(x1 - x0) && dy == -(Abs(y1 - y0) as int) && sx == Towards(x0, x1) && sy == Towards(y0, y1)
      modifies framebuffer, `dirtyMin, `dirtyMax
      ensures Valid() && (done ==> framebuffer[..] == goal)
      ensures !done ==> LineLeft(goal, framebuffer[..], width, height, next, x0, y0, x1, y1, a, b, color)
      ensures !done ==> i + j < a + b <= Abs(x1 - x0) + Abs(y1 - y0)
    {
      LineStep(goal, framebuffer[..], width, height, pen, x0, y0, x1, y1, i, j, color);
      ghost var r := Stepped(pen, x0, y0, x1, y1, i, j);
      a, b := r.1, r.2;
      DrawPixel(pen.x, pen.y, color);
      done := pen.x == x1 && pen.y == y1;
      next := pen;
      if !done {
        next := Advance(pen, dx, dy, sx, sy);
        assert next == r.0;
      }
    }

    /** draw_rect_impl, filled: every pixel inside, and no other. */
    method FillRect(x: int, y: int, w: int, h: int, color: bv8) returns (ghost ps: seq<Point>)
      requires Valid()
      modifies framebuffer, `dirtyMin, `dirtyMax
      ensures Valid() && framebuffer[..] == PlotAll(old(framebuffer[..]), width, height, ps, color)
      ensures forall p: Point :: p in ps <==> x <= p.x < x + w && y <= p.y < y + h
    {
      ps := [];
      var row := y;
      while row < y + h
        invariant row == y || y <= row <= y + h
        invariant Valid() && framebuffer[..] == PlotAll(old(framebuffer[..]), width, height, ps, color)
        invariant forall p: Point :: p in ps <==> x <= p.x < x + w && y <= p.y < row
      {
        var col := x;
        while col < x + w
          invariant col == x || x <= col <= x + w
          invariant Valid() && framebuffer[..] == PlotAll(old(framebuffer[..]), width, height, ps, color)
          invariant forall p: Point :: p in ps <==>
                    (x <= p.x < x + w && y <= p.y < row) || (x <= p.x < col && p.y == row)
        {
          DrawPixel(col, row, color);
          PlotAppend(old(framebuffer[..]), width, height, ps, [Point(col, row)], color);
          assert [Point(col, row)][1..] == [];
          ps := ps + [Point(col, row)];
          col := col + 1;
        }
        row := row + 1;
      }
    }

    /** draw_rect_impl, not filled: four lines, which is the border and nothing else. */
    method OutlineRect(x: int, y: int, w: int, h: int, color: bv8) returns (ghost ps: seq<Point>)
      requires Valid()
      modifies framebuffer, `dirtyMin, `dirtyMax
      ensures Valid() && framebuffer[..] == PlotAll(old(framebuffer[..]), width, height, ps, color)
      ensures forall p: Point :: p in ps <==> OnBorder(p, x, y, x + w - 1, y + h - 1)
    {
      var r, b := x + w - 1, y + h - 1;
      ghost var fb := framebuffer[..];
      DrawLine(x, y, r, y, color);
      DrawLine(r, y, r, b, color);
      DrawLine(r, b, x, b, color);
      DrawLine(x, b, x, y, color);
      ps := Points(x, y, r, y) + Points(r, y, r, b) + Points(r, b, x, b) + Points(x, b, x, y);
      FourLines(fb, width, height, x, y, r, b, color);
    }

    /** IOCTL_DISP_CLEAR */
    method Clear()
      requires Valid()
      modifies framebuffer, `dirtyMin, `dirtyMax
      ensures Valid() && forall k :: 0 <= k < framebuffer.Length ==> framebuffer[k] == background
    {
      forall k | 0 <= k < framebuffer.Length {
        framebuffer[k] := background;
      }
      dirtyMin, dirtyMax := 0, height - 1;
    }

    /** display_write: RGB332 bytes from the write cursor on; -1 for an empty buffer. */
    method Write(data: seq<bv8>) returns (written: int)
      requires Valid() && writeCursor <= framebuffer.Length
      modifies framebuffer, `dirtyMin, `dirtyMax, `writeCursor
      ensures Valid() && writeCursor <= framebuffer.Length
      ensures written == -1 <==> data == []
      ensures data != [] ==> 0 <= written && writeCursor == old(writeCursor) + written
      ensures data != [] ==> written == |data| || (written < |data| && writeCursor == framebuffer.Length)
      ensures data == [] ==> writeCursor == old(writeCursor)
      ensures forall k :: 0 <= k < framebuffer.Length ==>
                framebuffer[k] == if old(writeCursor) <= k < writeCursor then data[k - old(writeCursor)]
                    else old(framebuffer[k])
    {
      if data == [] {
        return -1;
      }
      var start := writeCursor;
      ghost var fb := framebuffer[..];
      written := CopyIn(data);
      if written > 0 {
        MarkWritten(fb, start);
      } else {
        assert framebuffer[..] == fb;
      }
    }

    /** Mark the first and the last row a write has touched. */
    method MarkWritten(ghost fb: seq<bv8>, start: nat)
      requires start < writeCursor <= framebuffer.Length == |fb|
      requires 0 < width && 0 < height && framebuffer.Length == Cell(width, height, 0)
      requires panel.width == width && panel.Valid(rowOffset + height) && dirtyMin <= height && dirtyMax < height
      requires CleanRowsShown(fb, panel.ram[..], width, height, rowOffset, dirtyMin, dirtyMax)
      requires forall k :: 0 <= k < |fb| && !(start <= k < writeCursor) ==> framebuffer[..][k] == fb[k]
      modifies `dirtyMin, `dirtyMax
      ensures Valid()
    {
      WriteKeepsClean(fb, framebuffer[..], panel.ram[..], width, height, rowOffset, dirtyMin, dirtyMax, start,
          writeCursor);
      MarkRow(start / width);
      MarkRow((writeCursor - 1) / width);
    }

    /** The copy loop of display_write. */
    method CopyIn(data: seq<bv8>) returns (written: nat)
      requires writeCursor <= framebuffer.Length
      modifies framebuffer, `writeCursor
      ensures writeCursor == old(writeCursor) + written <= framebuffer.Length
      ensures written == |data| || (written < |data| && writeCursor == framebuffer.Length)
      ensures forall k :: 0 <= k < framebuffer.Length ==>
                framebuffer[k] == if old(writeCursor) <= k < writeCursor then data[k - old(writeCursor)]
                    else old(framebuffer[k])
    {
      var start := writeCursor;
      written := 0;
      while writeCursor < framebuffer.Length && written < |data|
        invariant start <= writeCursor <= framebuffer.Length && written == writeCursor - start <= |data|
        invariant forall k :: 0 <= k < framebuffer.Length ==>
                    framebuffer[k] == if start <= k < writeCursor then data[k - start] else old(framebuffer[k])
      {
        framebuffer[writeCursor] := data[written];
        writeCursor := writeCursor + 1;
        written := written + 1;
      }
    }

    /** display_flush_fb: send the dirty rows and no others; then the whole panel matches. */
    method Flush()
      requires Valid()
      modifies panel, panel.ram, `dirtyMin, `dirtyMax
      ensures Valid() && dirtyMin > dirtyMax
      ensures forall y :: 0 <= y < height ==> RowShown(framebuffer[..], panel.ram[..], width, rowOffset, y)
      ensures forall k :: 0 <= k < panel.ram.Length ==>
              OutsideRows(width, rowOffset + old(dirtyMin), rowOffset + old(dirtyMax), k) ==>
              panel.ram[k] == old(panel.ram[k])
    {
      if dirtyMin > dirtyMax {
        return;
      }
      panel.Window(rowOffset + dirtyMin, rowOffset + dirtyMax);
      SendRows();
      dirtyMin, dirtyMax := height, 0;
    }

    /** The row loop of display_flush_fb. */
    method SendRows()
      requires Valid() && dirtyMin <= dirtyMax
      requires panel.winStart == panel.row == rowOffset + dirtyMin && panel.winEnd == rowOffset + dirtyMax
      modifies panel, panel.ram
      ensures Valid()
      ensures forall y :: 0 <= y < height ==> RowShown(framebuffer[..], panel.ram[..], width, rowOffset, y)
      ensures forall k :: 0 <= k < panel.ram.Length ==>
              OutsideRows(width, rowOffset + dirtyMin, rowOffset + dirtyMax, k) ==> panel.ram[k] == old(panel.ram[k])
    {
      var rowBuf := new bv8[2 * width];
      var y := dirtyMin;
      while y <= dirtyMax
        invariant Valid() && dirtyMin <= y <= dirtyMax + 1
        invariant panel.winStart == rowOffset + dirtyMin && panel.winEnd == rowOffset + dirtyMax
        invariant y <= dirtyMax ==> panel.row == rowOffset + y
        invariant CleanRowsShown(framebuffer[..], panel.ram[..], width, height, rowOffset, y, dirtyMax)
        invariant forall k :: 0 <= k < panel.ram.Length ==>
                  OutsideRows(width, rowOffset + dirtyMin, rowOffset + dirtyMax, k) ==>
                  panel.ram[k] == old(panel.ram[k])
      {
        SendOne(y, rowBuf);
        y := y + 1;
      }
    }

    /** One row: expanded, then sent. */
    method SendOne(y: nat, rowBuf: array<bv8>)
      requires Valid() && dirtyMin <= y <= dirtyMax && panel.row == rowOffset + y
      requires rowBuf.Length == 2 * width && rowBuf != framebuffer
      requires CleanRowsShown(framebuffer[..], panel.ram[..], width, height, rowOffset, y, dirtyMax)
      modifies panel`row, panel.ram, rowBuf
      ensures Valid() && panel.row == if rowOffset + y == panel.winEnd then panel.winStart else rowOffset + y + 1
      ensures CleanRowsShown(framebuffer[..], panel.ram[..], width, height, rowOffset, y + 1, dirtyMax)
      ensures forall k :: 0 <= k < panel.ram.Length ==>
              OutsideRows(width, rowOffset + dirtyMin, rowOffset + dirtyMax, k) ==> panel.ram[k] == old(panel.ram[k])
    {
      ExpandRow(y, rowBuf);
      ghost var before := panel.ram[..];
      panel.SendRow(rowBuf, rowOffset + height);
      SentRow(framebuffer[..], before, panel.ram[..], width, height, rowOffset, y, dirtyMax, rowBuf[..]);
      OutsideRow(width, rowOffset + dirtyMin, rowOffset + dirtyMax, rowOffset + y);
      CleanAfter(framebuffer[..], panel.ram[..], width, height, rowOffset, dirtyMin, dirtyMax, y);
    }

    /** Expand row y into the row buffer, two bytes a pixel. */
    method ExpandRow(y: nat, rowBuf: array<bv8>)
      requires Valid() && y < height && rowBuf.Length == 2 * width && rowBuf != framebuffer
      modifies rowBuf
      ensures RowBytes(framebuffer[..], width, y, rowBuf[..])
    {
      var x := 0;
      while x < width
        invariant 0 <= x <= width
        invariant forall k :: 0 <= k < x ==>
                    Cell(width, y, k) < framebuffer.Length && Join(rowBuf[2 * k], rowBuf[2 * k + 1]) ==
                        Expand(framebuffer[Cell(width, y, k)])
      {
        CellBound(width, y, x, height);
        var px := Expand(framebuffer[y * width + x]);
        rowBuf[2 * x] := HighByte(px);
        rowBuf[2 * x + 1] := LowByte(px);
        JoinSplit(px);
        x := x + 1;
      }
      forall k | 0 <= k < width
        ensures ByteShown(framebuffer[..], width, y, rowBuf[..], k)
      {
        assert Cell(width, y, k) < framebuffer.Length;
      }
    }
  }

  /** Cell k is in none of the rows from first to last. */
  predicate OutsideRows(w: nat, first: nat, last: nat, k: nat) {
    k < Cell(w, first, 0) || k >= Cell(w, last, 0) + w
  }

  lemma OutsideRow(w: nat, first: nat, last: nat, y: nat)
    requires first <= y <= last
    ensures forall k: nat :: OutsideRows(w, first, last, k) ==> k < Cell(w, y, 0) || k >= Cell(w, y, 0) + w
  {
    MulMono(first, y, w);
    MulMono(y, last, w);
  }

  /** The rows shown while row y has just been sent include the rows that were clean. */
  lemma CleanAfter(fb: seq<bv8>, ram: seq<bv16>, w: nat, h: nat, off: nat, lo: nat, hi: nat, y: nat)
    requires CleanRowsShown(fb, ram, w, h, off, y + 1, hi) && lo <= y
    ensures CleanRowsShown(fb, ram, w, h, off, lo, hi)
  {
  }

  /** The byte pair of pixel x of row y. */
  ghost predicate ByteShown(fb: seq<bv8>, w: nat, y: nat, bytes: seq<bv8>, x: nat) {
    2 * x + 1 < |bytes| && Cell(w, y, x) < |fb| && Join(bytes[2 * x], bytes[2 * x + 1]) == Expand(fb[Cell(w, y, x)])
  }

  ghost predicate RowBytes(fb: seq<bv8>, w: nat, y: nat, bytes: seq<bv8>) {
    forall x :: 0 <= x < w ==> ByteShown(fb, w, y, bytes, x)
  }

  /** Once row y has been sent it is shown, and the other rows still are. */
  lemma SentRow(fb: seq<bv8>, ram: seq<bv16>, ram': seq<bv16>, w: nat, h: nat, off: nat, y: nat, hi: nat,
          bytes: seq<bv8>)
    requires CleanRowsShown(fb, ram, w, h, off, y, hi) && y < h && |ram'| == |ram| && RowBytes(fb, w, y, bytes) &&
             |bytes| == 2 * w
    requires forall x :: 0 <= x < w ==>
             Cell(w, off + y, x) < |ram'| && ram'[Cell(w, off + y, x)] == Join(bytes[2 * x], bytes[2 * x + 1])
    requires forall k :: 0 <= k < |ram| && !(Cell(w, off + y, 0) <= k < Cell(w, off + y, 0) + w) ==> ram'[k] == ram[k]
    ensures CleanRowsShown(fb, ram', w, h, off, y + 1, hi)
  {
    forall r | 0 <= r < h && (r < y + 1 || r > hi)
      ensures RowShown(fb, ram', w, off, r)
    {
      forall x | 0 <= x < w
        ensures CellShown(fb, ram', w, off, r, x)
      {
        if r == y {
          assert ByteShown(fb, w, y, bytes, x);
        } else {
          assert RowShown(fb, ram, w, off, r);
          assert CellShown(fb, ram, w, off, r, x);
          RowsApart(w, off + r, x, off + y, x);
        }
      }
    }
  }

  /** On the sides of the box with these two corners. */
  predicate OnBorder(p: Point, x0: int, y0: int, x1: int, y1: int) {
    || ((p.y == y0 || p.y == y1) && Between(x0, x1, p.x))
    || ((p.x == x0 || p.x == x1) && Between(y0, y1, p.y))
  }

  /** The four lines one after the other draw the border, whichever way the corners lie. */
  lemma FourLines(fb: seq<bv8>, w: nat, h: nat, x: int, y: int, r: int, b: int, color: bv8)
    ensures
      var l0, l1, l2, l3 := Points(x, y, r, y), Points(r, y, r, b), Points(r, b, x, b), Points(x, b, x, y);
      && PlotAll(fb, w, h, l0 + l1 + l2 + l3, color)
         == PlotAll(PlotAll(PlotAll(PlotAll(fb, w, h, l0, color), w, h, l1, color), w, h, l2, color), w, h, l3, color)
      && forall p: Point :: p in l0 + l1 + l2 + l3 <==> OnBorder(p, x, y, r, b)
  {
    var l0, l1, l2, l3 := Points(x, y, r, y), Points(r, y, r, b), Points(r, b, x, b), Points(x, b, x, y);
    PlotAppend(fb, w, h, l0, l1, color);
    PlotAppend(fb, w, h, l0 + l1, l2, color);
    PlotAppend(fb, w, h, l0 + l1 + l2, l3, color);
    forall p: Point
      ensures p in l0 + l1 + l2 + l3 <==> OnBorder(p, x, y, r, b)
    {
      HorizontalLine(x, r, y, p);
      VerticalLine(r, y, b, p);
      HorizontalLine(r, x, b, p);
      VerticalLine(x, b, y, p);
    }
  }
}

/** The integer line walk and the Braille canvas (charts.py). */
module Raster {
  import opened Wrappers

  datatype Pixel = Pixel(x: int, y: int)

  function Abs(a: int): (r: int)
    ensures r >= 0
  {
    if a < 0 then -a else a
  }

  function Longest(p: Pixel, q: Pixel): (n: nat) {
    if Abs(q.x - p.x) >= Abs(q.y - p.y) then Abs(q.x - p.x) else Abs(q.y - p.y)
  }

  // ----- the reference line

  /** num / den to the nearest integer, halves upward. */
  function Nearest(num: int, den: int): int
    requires den > 0
  {
    (2 * num + den) / (2 * den)
  }

  lemma NearestBound(num: int, den: int)
    requires den > 0
    ensures -den < 2 * (den * Nearest(num, den) - num) <= den
  {
    var r := Nearest(num, den);
    assert 2 * num + den == 2 * den * r + (2 * num + den) % (2 * den);
    assert 2 * den * r == 2 * (den * r);
  }

  lemma NearestUnique(num: int, den: int, r: int)
    requires den > 0 && -den < 2 * (den * r - num) <= den
    ensures r == Nearest(num, den)
  {
    var n := Nearest(num, den);
    NearestBound(num, den);
    if r < n { LeTimes(den, r + 1, n); }
    if n < r { LeTimes(den, n + 1, r); }
  }

  lemma LeTimes(c: int, a: int, b: int)
    requires c >= 0 && a <= b
    ensures c * a <= c * b
  {
  }

  function Toward(from: int, to: int): int { if from < to then 1 else -1 }

  /** i steps from one coordinate toward another. */
  function Shift(from: int, to: int, i: int): int { if from < to then from + i else from - i }

  /** Columns and rows after k steps: k along the longer axis, the nearest integer along the other. */
  function Offset(dx: nat, dy: nat, k: nat): (int, int) {
    if dx == 0 && dy == 0 then (0, 0)
    else if dx >= dy then (k, Nearest(dy * k, dx))
    else (Nearest(dx * k, dy), k)
  }

  function At(p: Pixel, q: Pixel, offset: (int, int)): Pixel {
    Pixel(Shift(p.x, q.x, offset.0), Shift(p.y, q.y, offset.1))
  }

  function Ideal(p: Pixel, q: Pixel, k: nat): Pixel {
    At(p, q, Offset(Abs(q.x - p.x), Abs(q.y - p.y), k))
  }

  function IdealLine(p: Pixel, q: Pixel): (r: seq<Pixel>)
    ensures |r| == Longest(p, q) + 1
  {
    seq(Longest(p, q) + 1, k requires 0 <= k => Ideal(p, q, k))
  }

  // ----- what the reference line is

  lemma NearestEnds(d: nat, den: nat)
    requires d <= den && den > 0
    ensures Nearest(d * 0, den) == 0 && Nearest(d * den, den) == d
  {
    NearestUnique(d * 0, den, 0);
    NearestUnique(d * den, den, d);
  }

  lemma NearestStep(num: int, d: nat, den: nat)
    requires d <= den && den > 0
    ensures Nearest(num, den) <= Nearest(num + d, den) <= Nearest(num, den) + 1
  {
    var a, b := Nearest(num, den), Nearest(num + d, den);
    NearestBound(num, den);
    NearestBound(num + d, den);
    if b < a {
      LeTimes(den, b + 1, a);
      Distribute(den, b, 1);
    }
    if b > a + 1 {
      LeTimes(den, a + 2, b);
      Distribute(den, a, 2);
    }
  }

  lemma NearestWithin(num: int, d: nat, den: nat)
    requires den > 0 && 0 <= num <= den * d
    ensures 0 <= Nearest(num, den) <= d
  {
    var r := Nearest(num, den);
    NearestBound(num, den);
    if r < 0 { LeTimes(den, r, -1); }
    if r > d {
      LeTimes(den, d + 1, r);
      Distribute(den, d, 1);
    }
  }

  lemma Distribute(c: int, a: int, b: int)
    ensures c * (a + b) == c * a + c * b
  {
  }

  lemma OffsetShape(dx: nat, dy: nat, k: nat)
    requires k <= (if dx >= dy then dx else dy) && (dx > 0 || dy > 0)
    ensures var (i, j) := Offset(dx, dy, k);
            0 <= i <= dx && 0 <= j <= dy && 2 * Abs(dx * j - dy * i) <= if dx >= dy then dx else dy
    ensures var (i, j) := Offset(dx, dy, k);
            var (i', j') := Offset(dx, dy, k + 1);
            0 <= i' - i <= 1 && 0 <= j' - j <= 1 && i' - i + j' - j >= 1
  {
    var n, d := if dx >= dy then dx else dy, if dx >= dy then dy else dx;
    LeTimes(d, k, n);
    NearestWithin(d * k, d, n);
    NearestBound(d * k, n);
    Distribute(d, k, 1);
    NearestStep(d * k, d, n);
  }

  /** The drawn line starts and ends where asked, moves to an 8-neighbour at every step, stays in the box of
      its ends, and never strays more than half a pixel from the straight line. */
  lemma LineShape(p: Pixel, q: Pixel)
    ensures var line, n := IdealLine(p, q), Longest(p, q);
            && line[0] == p && line[n] == q
            && (forall k :: 0 <= k < n ==> Neighbours(line[k], line[k + 1]))
            && (forall k :: 0 <= k <= n ==> InBox(p, q, line[k]) && HalfPixel(p, q, line[k]))
  {
    WalkEnd(p, q, Longest(p, q));
    if Longest(p, q) > 0 {
      FirstPoint(p, q);
      forall k | 0 <= k <= Longest(p, q)
        ensures InBox(p, q, Ideal(p, q, k)) && HalfPixel(p, q, Ideal(p, q, k))
        ensures k < Longest(p, q) ==> Neighbours(Ideal(p, q, k), Ideal(p, q, k + 1))
      {
        PointShape(p, q, k);
      }
    }
  }

  lemma FirstPoint(p: Pixel, q: Pixel)
    ensures Ideal(p, q, 0) == p
  {
    var dx, dy := Abs(q.x - p.x), Abs(q.y - p.y);
    if dx > 0 || dy > 0 {
      NearestEnds(if dx >= dy then dy else dx, Longest(p, q));
    }
  }

  lemma PointShape(p: Pixel, q: Pixel, k: nat)
    requires k <= Longest(p, q) && Longest(p, q) > 0
    ensures InBox(p, q, Ideal(p, q, k)) && HalfPixel(p, q, Ideal(p, q, k))
    ensures k < Longest(p, q) ==> Neighbours(Ideal(p, q, k), Ideal(p, q, k + 1))
  {
    var dx, dy := Abs(q.x - p.x), Abs(q.y - p.y);
    OffsetShape(dx, dy, k);
    AtShape(p, q, Offset(dx, dy, k));
    if k < Longest(p, q) {
      AtNeighbours(p, q, Offset(dx, dy, k), Offset(dx, dy, k + 1));
    }
  }

  lemma AtShape(p: Pixel, q: Pixel, o: (int, int))
    requires 0 <= o.0 <= Abs(q.x - p.x) && 0 <= o.1 <= Abs(q.y - p.y)
    requires 2 * Abs(Abs(q.x - p.x) * o.1 - Abs(q.y - p.y) * o.0) <= Longest(p, q)
    ensures InBox(p, q, At(p, q, o)) && HalfPixel(p, q, At(p, q, o))
  {
    var a := At(p, q, o);
    assert Abs(a.x - p.x) == o.0 && Abs(a.y - p.y) == o.1;
  }

  lemma AtNeighbours(p: Pixel, q: Pixel, o: (int, int), next: (int, int))
    requires 0 <= next.0 - o.0 <= 1 && 0 <= next.1 - o.1 <= 1 && next != o
    ensures Neighbours(At(p, q, o), At(p, q, next))
  {
  }

  predicate Neighbours(a: Pixel, b: Pixel) {
    a != b && Abs(b.x - a.x) <= 1 && Abs(b.y - a.y) <= 1
  }

  predicate InBox(p: Pixel, q: Pixel, a: Pixel) {
    && Abs(a.x - p.x) + Abs(q.x - a.x) == Abs(q.x - p.x)
    && Abs(a.y - p.y) + Abs(q.y - a.y) == Abs(q.y - p.y)
  }

  predicate HalfPixel(p: Pixel, q: Pixel, a: Pixel) {
    2 * Abs(Abs(q.x - p.x) * Abs(a.y - p.y) - Abs(q.y - p.y) * Abs(a.x - p.x)) <= Longest(p, q)
  }

  // ----- the walk

  /** Where the walk stands: i columns and j rows from the start, `error` their scaled deviation. */
  ghost predicate Walking(dx: int, dy: int, i: nat, j: nat, error: int) {
    && dx >= 0 && dy >= 0
    && error == dx * j - dy * i + dx - dy
    && (dx >= dy ==> -dx < 2 * (dx * j - dy * i) <= dx)
    && (dx < dy ==> -dy <= 2 * (dx * j - dy * i) < dy)
  }

  /** One turn of the loop: the longer axis always advances, the other exactly when needed to stay nearest. */
  lemma WalkStep(dx: int, dy: int, i: nat, j: nat, error: int)
    requires (dx > 0 || dy > 0) && Walking(dx, dy, i, j, error)
    ensures var stepX, stepY := 2 * error >= -dy, 2 * error <= dx;
            && (dx >= dy ==> stepX) && (dx < dy ==> stepY)
            && Walking(dx, dy, i + (if stepX then 1 else 0), j + (if stepY then 1 else 0),
                       error - (if stepX then dy else 0) + (if stepY then dx else 0))
  {
    assert dx * (j + 1) == dx * j + dx && dy * (i + 1) == dy * i + dy;
  }

  lemma WalkIsOffset(dx: nat, dy: nat, i: nat, j: nat, error: int)
    requires (dx > 0 || dy > 0) && Walking(dx, dy, i, j, error)
    ensures (i, j) == Offset(dx, dy, if dx >= dy then i else j)
  {
    if dx >= dy {
      NearestUnique(dy * i, dx, j);
    } else {
      NearestUnique(dx * j, dy, i);
    }
  }

  /** The walk meets the end exactly when the longer axis is used up. */
  lemma WalkEnd(p: Pixel, q: Pixel, k: nat)
    requires k <= Longest(p, q)
    ensures Ideal(p, q, k) == q <==> k == Longest(p, q)
  {
    var dx, dy := Abs(q.x - p.x), Abs(q.y - p.y);
    if dx > 0 || dy > 0 {
      NearestEnds(if dx >= dy then dy else dx, Longest(p, q));
    }
  }

  /** The walk stands on the k-th point of the reference line, `error` being its scaled deviation. */
  ghost predicate Standing(p: Pixel, q: Pixel, k: nat, x: int, y: int, error: int) {
    var dx, dy := Abs(q.x - p.x), Abs(q.y - p.y);
    var (i, j) := Offset(dx, dy, k);
    && k <= Longest(p, q) && Pixel(x, y) == Ideal(p, q, k)
    && (Longest(p, q) > 0 ==> i >= 0 && j >= 0 && Walking(dx, dy, i, j, error))
  }

  lemma Depart(p: Pixel, q: Pixel)
    ensures Standing(p, q, 0, p.x, p.y, Abs(q.x - p.x) - Abs(q.y - p.y))
  {
    FirstPoint(p, q);
    if Longest(p, q) > 0 {
      WalkIsOffset(Abs(q.x - p.x), Abs(q.y - p.y), 0, 0, Abs(q.x - p.x) - Abs(q.y - p.y));
    }
  }

  lemma OffsetStep(dx: int, dy: int, k: nat, error: int)
    requires dx >= 0 && dy >= 0 && (dx > 0 || dy > 0)
    requires var (i, j) := Offset(dx, dy, k);
             i >= 0 && j >= 0 && Walking(dx, dy, i, j, error)
    ensures var (i, j) := Offset(dx, dy, k);
            var i' := i + if 2 * error >= -dy then 1 else 0;
            var j' := j + if 2 * error <= dx then 1 else 0;
            Offset(dx, dy, k + 1) == (i', j')
            && Walking(dx, dy, i', j', error - (if 2 * error >= -dy then dy else 0) + if 2 * error <= dx then dx else 0)
  {
    var (i, j) := Offset(dx, dy, k);
    WalkStep(dx, dy, i, j, error);
    WalkIsOffset(dx, dy, i + (if 2 * error >= -dy then 1 else 0), j + (if 2 * error <= dx then 1 else 0),
      error - (if 2 * error >= -dy then dy else 0) + if 2 * error <= dx then dx else 0);
  }

  lemma StandingStep(p: Pixel, q: Pixel, k: nat, x: int, y: int, error: int)
    requires Standing(p, q, k, x, y, error) && k < Longest(p, q)
    ensures var dx, dy := Abs(q.x - p.x), -Abs(q.y - p.y);
            Standing(p, q, k + 1,
              x + (if 2 * error >= dy then Toward(p.x, q.x) else 0),
              y + (if 2 * error <= dx then Toward(p.y, q.y) else 0),
              error + (if 2 * error >= dy then dy else 0) + if 2 * error <= dx then dx else 0)
  {
    OffsetStep(Abs(q.x - p.x), Abs(q.y - p.y), k, error);
  }

  /** The two conditional moves of the loop (lines 270-276). */
  method Turn(dx: int, dy: int, sx: int, sy: int, x: int, y: int, err: int) returns (x0: int, y0: int, error: int)
    ensures x0 == x + (if 2 * err >= dy then sx else 0) && y0 == y + (if 2 * err <= dx then sy else 0)
    ensures error == err + (if 2 * err >= dy then dy else 0) + if 2 * err <= dx then dx else 0
  {
    x0, y0, error := x, y, err;
    var doubled := 2 * error;
    if doubled >= dy {
      error := error + dy;
      x0 := x0 + sx;
    }
    if doubled <= dx {
      error := error + dx;
      y0 := y0 + sy;
    }
  }

  lemma PrefixGrows(p: Pixel, q: Pixel, k: nat, a: Pixel)
    requires k <= Longest(p, q) && a == Ideal(p, q, k)
    ensures IdealLine(p, q)[..k] + [a] == IdealLine(p, q)[..k + 1]
    ensures k == Longest(p, q) ==> IdealLine(p, q)[..k + 1] == IdealLine(p, q)
  {
  }

  method Line(start: Pixel, end: Pixel) returns (points: seq<Pixel>)
    ensures points == IdealLine(start, end)
  {
    var x0, y0 := start.x, start.y;
    var dx, sx := Abs(end.x - x0), Toward(x0, end.x);
    var dy, sy := -Abs(end.y - y0), Toward(y0, end.y);
    var error := dx + dy;
    points := [];
    ghost var k: nat := 0;
    Depart(start, end);
    while true
      invariant Standing(start, end, k, x0, y0, error)
      invariant points == IdealLine(start, end)[..k]
      decreases Longest(start, end) - k
    {
      PrefixGrows(start, end, k, Pixel(x0, y0));
      points := points + [Pixel(x0, y0)];
      WalkEnd(start, end, k);
      if x0 == end.x && y0 == end.y {
        return;
      }
      StandingStep(start, end, k, x0, y0, error);
      x0, y0, error := Turn(dx, dy, sx, sy, x0, y0, error);
      k := k + 1;
    }
  }

  // ----- the canvas

  /** The dot of a Braille cell at column 0..1 and row 0..3 (Braille Patterns, U+2800). */
  function Dot(x: int, y: int): bv8
    requires 0 <= x < 2 && 0 <= y < 4
  {
    if x == 0 then (if y == 0 then 0x01 else if y == 1 then 0x02 else if y == 2 then 0x04 else 0x40)
    else if y == 0 then 0x08 else if y == 1 then 0x10 else if y == 2 then 0x20 else 0x80
  }

  /** The dots are numbered down the first column, down the second, and then along the last row: dot n is
      bit n - 1. */
  lemma DotNumbered(x: int, y: int)
    requires 0 <= x < 2 && 0 <= y < 4
    ensures Dot(x, y) as int == Pow2(if y < 3 then 3 * x + y else 6 + x)
  {
    assert Pow2(0) == 1 && Pow2(1) == 2 && Pow2(2) == 4 && Pow2(3) == 8;
    assert Pow2(4) == 16 && Pow2(5) == 32 && Pow2(6) == 64 && Pow2(7) == 128;
  }

  ghost function Pow2(n: nat): nat { if n == 0 then 1 else 2 * Pow2(n - 1) }

  lemma DotAdds(cell: bv8, x: int, y: int, u: int, v: int)
    requires 0 <= x < 2 && 0 <= y < 4 && 0 <= u < 2 && 0 <= v < 4
    ensures DotLit(cell | Dot(x, y), u, v) <==> (u == x && v == y) || DotLit(cell, u, v)
  {
  }

  predicate DotLit(cell: bv8, x: int, y: int)
    requires 0 <= x < 2 && 0 <= y < 4
  {
    cell & Dot(x, y) != 0
  }

  predicate Inside(grid: array2<bv8>, a: Pixel) {
    0 <= a.x < 2 * grid.Length1 && 0 <= a.y < 4 * grid.Length0
  }

  predicate Lit(grid: array2<bv8>, a: Pixel)
    requires Inside(grid, a)
    reads grid
  {
    DotLit(grid[a.y / 4, a.x / 2], a.x % 2, a.y % 4)
  }

  method Plot(grid: array2<bv8>, a: Pixel)
    requires Inside(grid, a)
    modifies grid
    ensures forall b :: Inside(grid, b) ==> (Lit(grid, b) <==> b == a || old(Lit(grid, b)))
  {
    hide DotLit, Dot;
    var cellX, dotX, cellY, dotY := a.x / 2, a.x % 2, a.y / 4, a.y % 4;
    grid[cellY, cellX] := grid[cellY, cellX] | Dot(dotX, dotY);
    forall b | Inside(grid, b) ensures Lit(grid, b) <==> b == a || old(Lit(grid, b)) {
      DotAdds(old(grid[cellY, cellX]), dotX, dotY, b.x % 2, b.y % 4);
    }
  }

  ghost function ToSet(line: seq<Pixel>): set<Pixel> {
    set a | a in line
  }

  /** The pixels of a curve: each point joined to the one before it, a gap breaking the curve. */
  ghost function Drawn(points: seq<Option<Pixel>>): set<Pixel> {
    if points == [] then {}
    else
      var n := |points|;
      Drawn(points[..n - 1])
      + match points[n - 1]
        case None => {}
        case Some(q) =>
          if n > 1 && points[n - 2].Some? then ToSet(IdealLine(points[n - 2].value, q)) else {q}
  }

  lemma {:induction false} DrawnInside(points: seq<Option<Pixel>>, width: int, height: int, a: Pixel)
    requires forall p :: p in points && p.Some? ==> 0 <= p.value.x < width && 0 <= p.value.y < height
    requires a in Drawn(points)
    ensures 0 <= a.x < width && 0 <= a.y < height
  {
    var n := |points|;
    if a in Drawn(points[..n - 1]) {
      DrawnInside(points[..n - 1], width, height, a);
    } else {
      assert points[n - 1] in points;
      if n > 1 && points[n - 2].Some? {
        assert points[n - 2] in points;
        var line := IdealLine(points[n - 2].value, points[n - 1].value);
        LineShape(points[n - 2].value, points[n - 1].value);
        var k :| 0 <= k < |line| && line[k] == a;
      }
    }
  }

  method PlotLine(grid: array2<bv8>, line: seq<Pixel>)
    requires forall a :: a in line ==> Inside(grid, a)
    modifies grid
    ensures forall b :: Inside(grid, b) ==> (Lit(grid, b) <==> b in line || old(Lit(grid, b)))
  {
    for k := 0 to |line|
      invariant forall b :: Inside(grid, b) ==> (Lit(grid, b) <==> b in line[..k] || old(Lit(grid, b)))
    {
      Plot(grid, line[k]);
      assert line[..k + 1] == line[..k] + [line[k]];
    }
    assert line[..|line|] == line;
  }

  /** Draws a curve on an empty grid: a dot is lit exactly if its pixel belongs to the curve. */
  method DrawCurve(points: seq<Option<Pixel>>, width: nat, height: nat) returns (grid: array2<bv8>)
    requires forall p :: p in points && p.Some? ==> 0 <= p.value.x < 2 * width && 0 <= p.value.y < 4 * height
    ensures fresh(grid) && grid.Length0 == height && grid.Length1 == width
    ensures forall b :: Inside(grid, b) ==> (Lit(grid, b) <==> b in Drawn(points))
  {
    grid := new bv8[height, width]((_, _) => 0);
    var previous: Option<Pixel> := None;
    for k := 0 to |points|
      invariant previous == if k == 0 then None else points[k - 1]
      invariant forall b :: Inside(grid, b) ==> (Lit(grid, b) <==> b in Drawn(points[..k]))
    {
      var p := points[k];
      assert points[..k + 1][..k] == points[..k];
      if p.Some? {
        assert p in points;
        var line := [p.value];
        if previous.Some? {
          assert previous in points;
          line := Line(previous.value, p.value);
          LineShape(previous.value, p.value);
        }
        PlotLine(grid, line);
      }
      previous := p;
    }
    assert points[..|points|] == points;
  }

  method CellBits(charts: seq<array2<bv8>>, row: nat, column: nat) returns (bits: bv8)
    requires forall c :: c in charts ==> row < c.Length0 && column < c.Length1
    ensures forall u, v :: 0 <= u < 2 && 0 <= v < 4 ==>
      (DotLit(bits, u, v) <==> exists c :: c in charts && DotLit(c[row, column], u, v))
  {
    bits := 0;
    for k := 0 to |charts|
      invariant forall u, v :: 0 <= u < 2 && 0 <= v < 4 ==>
        (DotLit(bits, u, v) <==> exists c :: c in charts[..k] && DotLit(c[row, column], u, v))
    {
      ghost var before := bits;
      bits := bits | charts[k][row, column];
      assert charts[..k + 1] == charts[..k] + [charts[k]];
      forall u, v | 0 <= u < 2 && 0 <= v < 4
        ensures DotLit(bits, u, v) <==> DotLit(before, u, v) || DotLit(charts[k][row, column], u, v)
      {
        OrLights(before, charts[k][row, column], u, v);
      }
    }
    assert charts[..|charts|] == charts;
  }

  lemma OrLights(a: bv8, b: bv8, u: int, v: int)
    requires 0 <= u < 2 && 0 <= v < 4
    ensures DotLit(a | b, u, v) <==> DotLit(a, u, v) || DotLit(b, u, v)
  {
    assert (a | b) & Dot(u, v) == (a & Dot(u, v)) | (b & Dot(u, v));
  }

  /** Overlaying charts of one size lights a dot exactly if some chart lights it (braille_multi_chart). */
  method Overlay(charts: seq<array2<bv8>>, width: nat, height: nat) returns (grid: array2<bv8>)
    requires forall c :: c in charts ==> c.Length0 == height && c.Length1 == width
    ensures fresh(grid) && grid.Length0 == height && grid.Length1 == width
    ensures forall b :: Inside(grid, b) ==> (Lit(grid, b) <==> exists c :: c in charts && Lit(c, b))
  {
    grid := new bv8[height, width]((_, _) => 0);
    for row := 0 to height
      invariant forall b :: Inside(grid, b) && b.y / 4 < row ==>
        (Lit(grid, b) <==> exists c :: c in charts && Lit(c, b))
    {
      for column := 0 to width
        invariant forall b :: Inside(grid, b) && b.y / 4 < row ==>
          (Lit(grid, b) <==> exists c :: c in charts && Lit(c, b))
        invariant forall b :: Inside(grid, b) && b.y / 4 == row && b.x / 2 < column ==>
          (Lit(grid, b) <==> exists c :: c in charts && Lit(c, b))
      {
        var bits := CellBits(charts, row, column);
        grid[row, column] := bits;
        forall b | Inside(grid, b) && b.y / 4 == row && b.x / 2 == column
          ensures Lit(grid, b) <==> exists c :: c in charts && Lit(c, b)
        {
          assert DotLit(bits, b.x % 2, b.y % 4)
            <==> exists c :: c in charts && DotLit(c[row, column], b.x % 2, b.y % 4);
        }
      }
    }
  }

  // ----- from readings to pixels

  /** Python's round: the nearest integer, halves to even. */
  function Round(x: real): int {
    var f := x.Floor;
    var rest := x - f as real;
    if rest < 0.5 then f else if rest > 0.5 then f + 1 else if f % 2 == 0 then f else f + 1
  }

  function Clamp(v: real, maximum: real): real {
    if v < 0.0 then 0.0 else if v > maximum then maximum else v
  }

  /** How far below the top a reading lies, in rows. */
  function Depth(v: real, maximum: real, last: real): real
    requires maximum > 0.0
  {
    (1.0 - Clamp(v, maximum) / maximum) * last
  }

  /** The pixel row of a reading: the top row shows the maximum, the bottom row zero (line 47). */
  function PixelRow(v: real, maximum: real, rows: nat): int {
    if maximum > 0.0 then Round(Depth(v, maximum, (rows - 1) as real)) else rows - 1
  }

  lemma DepthInside(v: real, maximum: real, last: real)
    requires maximum > 0.0 && last >= 0.0
    ensures 0.0 <= Depth(v, maximum, last) <= last
  {
    var share := 1.0 - Clamp(v, maximum) / maximum;
    DivMonotone(0.0, Clamp(v, maximum), maximum);
    DivMonotone(Clamp(v, maximum), maximum, maximum);
    ScaleMonotone(0.0, share, last);
    ScaleMonotone(share, 1.0, last);
  }

  lemma PixelRowInside(v: real, maximum: real, rows: nat)
    requires rows > 0
    ensures 0 <= PixelRow(v, maximum, rows) < rows
  {
    if maximum > 0.0 {
      DepthInside(v, maximum, (rows - 1) as real);
    }
  }

  lemma RoundMonotone(x: real, y: real)
    requires x <= y
    ensures Round(x) <= Round(y)
  {
    assert x.Floor <= y.Floor;
  }

  lemma ScaleMonotone(a: real, b: real, c: real)
    requires a <= b && c >= 0.0
    ensures a * c <= b * c
  {
  }

  lemma DivMonotone(a: real, b: real, c: real)
    requires a <= b && c > 0.0
    ensures a / c <= b / c
  {
  }

  lemma DepthMonotone(u: real, v: real, maximum: real, last: real)
    requires maximum > 0.0 && last >= 0.0 && u <= v
    ensures Depth(v, maximum, last) <= Depth(u, maximum, last)
  {
    DivMonotone(Clamp(u, maximum), Clamp(v, maximum), maximum);
    ScaleMonotone(1.0 - Clamp(v, maximum) / maximum, 1.0 - Clamp(u, maximum) / maximum, last);
  }

  /** A higher reading is never drawn lower. */
  lemma PixelRowMonotone(u: real, v: real, maximum: real, rows: nat)
    requires rows > 0 && u <= v
    ensures PixelRow(v, maximum, rows) <= PixelRow(u, maximum, rows)
  {
    if maximum > 0.0 {
      DepthMonotone(u, v, maximum, (rows - 1) as real);
      RoundMonotone(Depth(v, maximum, (rows - 1) as real), Depth(u, maximum, (rows - 1) as real));
    }
  }

  /** The row that shows a reading: the top one from the maximum on, the bottom one up to zero, and the
      nearest one between, the even one of two equally near. */
  ghost predicate ShowsAt(v: real, maximum: real, rows: nat, row: int) {
    if maximum <= 0.0 then row == rows - 1
    else if v >= maximum then row == 0
    else if v <= 0.0 then row == rows - 1
    else
      var off := 2.0 * (row as real * maximum - (maximum - v) * (rows - 1) as real);
      -maximum <= off <= maximum && (off == maximum || off == -maximum ==> row % 2 == 0)
  }

  lemma RoundNearest(x: real)
    ensures -1.0 <= 2.0 * (Round(x) as real - x) <= 1.0
    ensures 2.0 * (Round(x) as real - x) == 1.0 || 2.0 * (Round(x) as real - x) == -1.0 ==> Round(x) % 2 == 0
  {
    var f := x.Floor;
    var rest := x - f as real;
    assert 0.0 <= rest < 1.0;
    if rest < 0.5 {
      assert Round(x) == f;
    } else if rest > 0.5 {
      assert Round(x) == f + 1;
    }
  }

  lemma RoundWhole(n: int)
    ensures Round(n as real) == n
  {
  }

  lemma PixelRowShows(v: real, maximum: real, rows: nat)
    requires rows > 0
    ensures ShowsAt(v, maximum, rows, PixelRow(v, maximum, rows))
  {
    hide Round;
    if maximum > 0.0 {
      var last := (rows - 1) as real;
      var depth := Depth(v, maximum, last);
      if v >= maximum {
        assert Clamp(v, maximum) / maximum == 1.0;
        RoundWhole(0);
      } else if v <= 0.0 {
        assert Clamp(v, maximum) / maximum == 0.0;
        RoundWhole(rows - 1);
      } else {
        RoundNearest(depth);
        DepthScaled(v, maximum, last);
        var row := PixelRow(v, maximum, rows) as real;
        Scaled(row - depth, maximum);
        assert (row - depth) * maximum == row * maximum - depth * maximum;
      }
    }
  }

  /** There is only one such row. */
  lemma ShowsAtOnce(v: real, maximum: real, rows: nat, row: int, other: int)
    requires ShowsAt(v, maximum, rows, row) && ShowsAt(v, maximum, rows, other)
    ensures row == other
  {
    if maximum > 0.0 && 0.0 < v < maximum {
      NearestOnce(row, other, maximum, (maximum - v) * (rows - 1) as real);
      NearestOnce(other, row, maximum, (maximum - v) * (rows - 1) as real);
    }
  }

  lemma NearestOnce(row: int, other: int, m: real, x: real)
    requires m > 0.0
    requires -m <= 2.0 * (row as real * m - x) <= m && -m <= 2.0 * (other as real * m - x) <= m
    requires 2.0 * (row as real * m - x) == m ==> row % 2 == 0
    requires 2.0 * (other as real * m - x) == -m ==> other % 2 == 0
    ensures row <= other
  {
    var p, q := row as real * m, other as real * m;
    BothNear(p, q, m, x);
    var before := row as real - 1.0;
    assert before * m == p - m;
    ScaleOrder(before, other as real, m);
    assert before <= other as real;
    assert row == other + 1 ==> p == q + m;
  }

  lemma BothNear(p: real, q: real, m: real, x: real)
    requires 2.0 * (p - x) <= m && -m <= 2.0 * (q - x)
    ensures p - m <= q && (p == q + m ==> 2.0 * (p - x) == m && 2.0 * (q - x) == -m)
  {
  }

  lemma ScaleOrder(a: real, b: real, c: real)
    requires c > 0.0
    ensures a <= b <==> a * c <= b * c
  {
    if a <= b {
      ScaleMonotone(a, b, c);
    } else {
      ScaleBelow(b, a, c);
    }
  }

  lemma DepthScaled(v: real, maximum: real, last: real)
    requires 0.0 <= v <= maximum && maximum > 0.0
    ensures Depth(v, maximum, last) * maximum == (maximum - v) * last
  {
    var share := v / maximum;
    assert share * maximum == v;
    assert (1.0 - share) * last * maximum == (maximum - share * maximum) * last;
  }

  lemma Scaled(d: real, m: real)
    requires m > 0.0
    ensures -1.0 <= 2.0 * d <= 1.0 <==> -m <= 2.0 * (d * m) <= m
    ensures (2.0 * d == 1.0 <==> 2.0 * (d * m) == m) && (2.0 * d == -1.0 <==> 2.0 * (d * m) == -m)
  {
  }

  // ----- resampling to the pixel width

  /** Linear interpolation at a fractional position; a gap on either side is a gap (lines 244-254). */
  function Between(values: seq<Option<real>>, position: real): Option<real>
    requires values != [] && 0.0 <= position <= (|values| - 1) as real
  {
    var left := position.Floor;
    var right := if left + 1 < |values| then left + 1 else |values| - 1;
    var fraction := position - left as real;
    if values[left].None? || values[right].None? then None
    else Some(values[left].value * (1.0 - fraction) + values[right].value * fraction)
  }

  /** The fractional position of the k-th of count samples among n readings. */
  function Position(n: nat, count: nat, k: nat): real
    requires count > 1
  {
    k as real * ((n - 1) as real / (count - 1) as real)
  }

  lemma PositionInside(n: nat, count: nat, k: nat)
    requires n > 1 && count > 1 && k < count
    ensures 0.0 <= Position(n, count, k) <= (n - 1) as real
    ensures k == 0 ==> Position(n, count, k) == 0.0
    ensures k == count - 1 ==> Position(n, count, k) == (n - 1) as real
  {
    var scale := (n - 1) as real / (count - 1) as real;
    assert scale * (count - 1) as real == (n - 1) as real;
    ScaleMonotone(k as real, (count - 1) as real, scale);
  }

  function ResampleAt(values: seq<Option<real>>, count: nat, k: nat): Option<real>
    requires |values| > 1 && count > 1 && k < count
  {
    PositionInside(|values|, count, k);
    Between(values, Position(|values|, count, k))
  }

  ghost function Resampled(values: seq<Option<real>>, count: nat): (r: seq<Option<real>>)
    ensures values != [] ==> |r| == count
  {
    if values == [] || count == 0 then []
    else if |values| == 1 then seq(count, _ => values[0])
    else if count == 1 then [values[|values| - 1]]
    else seq(count, k requires 0 <= k < count => ResampleAt(values, count, k))
  }

  method Resample(values: seq<Option<real>>, count: nat) returns (result: seq<Option<real>>)
    ensures result == Resampled(values, count)
  {
    if values == [] || count == 0 {
      return [];
    }
    if |values| == 1 {
      return seq(count, _ => values[0]);
    }
    if count == 1 {
      return [values[|values| - 1]];
    }
    var scale := (|values| - 1) as real / (count - 1) as real;
    result := [];
    for k := 0 to count
      invariant |result| == k && forall m :: 0 <= m < k ==> result[m] == ResampleAt(values, count, m)
    {
      var position := k as real * scale;
      assert position == Position(|values|, count, k);
      PositionInside(|values|, count, k);
      result := result + [Between(values, position)];
    }
  }

  /** A sample lies between the two readings around its position, as near to each as the position is: at
      `past` of count - 1 parts of the way from one to the next. */
  lemma ResampledBetween(values: seq<Option<real>>, count: nat, k: nat, i: nat, past: nat)
    requires count > 1 && k < count && i + 1 < |values|
    requires k * (|values| - 1) == i * (count - 1) + past && past < count - 1
    ensures var sample, left, right := Resampled(values, count)[k], values[i], values[i + 1];
      && (sample.Some? <==> left.Some? && right.Some?)
      && (sample.Some? ==>
        var whole, share := (count - 1) as real, past as real;
        sample.value * whole == left.value * (whole - share) + right.value * share)
  {
    hide Between, Position;
    var whole, position := (count - 1) as real, Position(|values|, count, k);
    PositionInside(|values|, count, k);
    PositionScaled(|values|, count, k);
    Products(i, count - 1);
    FloorIs(position, whole, i, past as real);
    BetweenScaled(values, position, i, whole, past as real);
  }

  lemma BetweenScaled(values: seq<Option<real>>, position: real, i: nat, whole: real, past: real)
    requires i + 1 < |values| && 0.0 <= position <= (|values| - 1) as real && position.Floor == i
    requires (position - i as real) * whole == past
    ensures var sample := Between(values, position);
      && (sample.Some? <==> values[i].Some? && values[i + 1].Some?)
      && (sample.Some? ==> sample.value * whole == values[i].value * (whole - past) + values[i + 1].value * past)
  {
    if values[i].Some? && values[i + 1].Some? {
      MixScaled(values[i].value, values[i + 1].value, position - i as real, whole, past);
    }
  }

  lemma PositionScaled(n: nat, count: nat, k: nat)
    requires count > 1 && n > 0
    ensures Position(n, count, k) * (count - 1) as real == (k * (n - 1)) as real
  {
    var scale := (n - 1) as real / (count - 1) as real;
    assert scale * (count - 1) as real == (n - 1) as real;
    assert k as real * scale * (count - 1) as real == k as real * (n - 1) as real;
    Products(k, n - 1);
  }

  lemma Products(a: int, b: int)
    ensures (a * b) as real == a as real * b as real
  {
  }

  lemma FloorIs(position: real, whole: real, i: nat, past: real)
    requires position * whole == i as real * whole + past && 0.0 <= past < whole
    ensures position.Floor == i && (position - i as real) * whole == past
  {
    var rest := position - i as real;
    assert rest * whole == past;
    ScaleOrder(0.0, rest, whole);
    ScaleOrder(1.0, rest, whole);
  }

  lemma ScaleBelow(a: real, b: real, c: real)
    requires a < b && c > 0.0
    ensures a * c < b * c
  {
  }

  lemma MixScaled(a: real, b: real, f: real, whole: real, past: real)
    requires f * whole == past
    ensures (a * (1.0 - f) + b * f) * whole == a * (whole - past) + b * past
  {
    assert a * (1.0 - f) * whole == a * (whole - f * whole);
    assert b * f * whole == b * (f * whole);
  }

  lemma Nonnegative(x: real, y: real)
    requires x >= 0.0 && y >= 0.0
    ensures x * y >= 0.0
  {
  }

  lemma MixAbove(a: real, b: real, f: real, lo: real)
    requires lo <= a && lo <= b && 0.0 <= f <= 1.0
    ensures lo <= a * (1.0 - f) + b * f
  {
    Nonnegative(a - lo, 1.0 - f);
    Nonnegative(b - lo, f);
    assert (a - lo) * (1.0 - f) + (b - lo) * f == a * (1.0 - f) + b * f - lo;
  }

  lemma MixBounded(a: real, b: real, f: real, lo: real, hi: real)
    requires lo <= a <= hi && lo <= b <= hi && 0.0 <= f <= 1.0
    ensures lo <= a * (1.0 - f) + b * f <= hi
  {
    MixAbove(a, b, f, lo);
    MixAbove(-a, -b, f, -hi);
    assert (-a) * (1.0 - f) + (-b) * f == -(a * (1.0 - f) + b * f);
  }

  lemma BetweenBounded(values: seq<Option<real>>, position: real, lo: real, hi: real)
    requires values != [] && 0.0 <= position <= (|values| - 1) as real
    requires forall v :: v in values && v.Some? ==> lo <= v.value <= hi
    ensures Between(values, position).Some? ==> lo <= Between(values, position).value <= hi
  {
    var left := position.Floor;
    var right := if left + 1 < |values| then left + 1 else |values| - 1;
    if values[left].Some? && values[right].Some? {
      assert values[left] in values && values[right] in values;
      MixBounded(values[left].value, values[right].value, position - left as real, lo, hi);
    }
  }

  /** Resampling never leaves the range of the readings. */
  lemma ResampledBounded(values: seq<Option<real>>, count: nat, lo: real, hi: real, k: nat)
    requires forall v :: v in values && v.Some? ==> lo <= v.value <= hi
    requires k < |Resampled(values, count)|
    ensures Resampled(values, count)[k].Some? ==> lo <= Resampled(values, count)[k].value <= hi
  {
    if |values| > 1 && count > 1 {
      PositionInside(|values|, count, k);
      BetweenBounded(values, Position(|values|, count, k), lo, hi);
      assert Resampled(values, count)[k] == ResampleAt(values, count, k);
    } else {
      assert Resampled(values, count)[k] in values;
    }
  }

  lemma BetweenAtIndex(values: seq<Option<real>>, i: nat)
    requires i < |values|
    ensures Between(values, i as real) == if i + 1 < |values| && values[i + 1].None? then None else values[i]
  {
    assert (i as real).Floor == i;
    if values[i].Some? && (i + 1 == |values| || values[i + 1].Some?) {
      var other := values[if i + 1 < |values| then i + 1 else |values| - 1].value;
      assert values[i].value * (1.0 - 0.0) + other * 0.0 == values[i].value;
    }
  }

  /** The last sample is the last reading. The first is the first reading exactly if the second is no gap
      or the first itself is one: at position zero the second reading weighs nothing, but its gap is kept. */
  lemma ResampledEnds(values: seq<Option<real>>, count: nat)
    requires |values| > 1 && count > 1
    ensures Resampled(values, count)[count - 1] == values[|values| - 1]
    ensures Resampled(values, count)[0] == values[0] <==> values[1].Some? || values[0].None?
  {
    PositionInside(|values|, count, 0);
    PositionInside(|values|, count, count - 1);
    BetweenAtIndex(values, 0);
    BetweenAtIndex(values, |values| - 1);
  }

  // ----- the chart

  /** One point a column, in the row that shows its sample. */
  ghost predicate Plots(points: seq<Option<Pixel>>, samples: seq<Option<real>>, maximum: real, rows: nat) {
    |points| == |samples| && forall x :: 0 <= x < |samples| ==> PlotsAt(points[x], samples[x], maximum, rows, x)
  }

  ghost predicate PlotsAt(point: Option<Pixel>, sample: Option<real>, maximum: real, rows: nat, x: int) {
    && (point.None? <==> sample.None?)
    && (sample.Some? ==> point.value.x == x && ShowsAt(sample.value, maximum, rows, point.value.y))
  }

  /** One sample a column: stretched over the width, or the latest readings flushed right (lines 34-40). */
  ghost function Shown(values: seq<Option<real>>, columns: nat, resample: bool): (r: seq<Option<real>>) {
    if resample then (if values == [] then seq(columns, _ => Some(0.0)) else Resampled(values, columns))
    else if |values| >= columns then values[|values| - columns..]
    else seq(columns - |values|, _ => None) + values
  }

  method PlotSamples(samples: seq<Option<real>>, maximum: real, rows: nat) returns (points: seq<Option<Pixel>>)
    requires rows > 0
    ensures Plots(points, samples, maximum, rows)
    ensures forall p :: p in points && p.Some? ==> 0 <= p.value.x < |samples| && 0 <= p.value.y < rows
  {
    hide ShowsAt, PixelRow;
    points := [];
    for x := 0 to |samples|
      invariant Plots(points, samples[..x], maximum, rows)
      invariant forall p :: p in points && p.Some? ==> 0 <= p.value.x < |samples| && 0 <= p.value.y < rows
    {
      if samples[x].None? {
        points := points + [None];
      } else {
        PixelRowInside(samples[x].value, maximum, rows);
        PixelRowShows(samples[x].value, maximum, rows);
        points := points + [Some(Pixel(x, PixelRow(samples[x].value, maximum, rows)))];
      }
    }
    assert samples[..|samples|] == samples;
  }

  /** The chart of a series: one sample a pixel column, and lit dots exactly on the curve through them. */
  method BrailleChart(values: seq<Option<real>>, width: int, height: int, maximum: real, resample: bool)
    returns (grid: array2<bv8>, ghost samples: seq<Option<real>>, ghost points: seq<Option<Pixel>>)
    ensures fresh(grid) && grid.Length1 == (if width < 4 then 4 else width)
      && grid.Length0 == (if height < 2 then 2 else height)
    ensures samples == Shown(values, 2 * grid.Length1, resample)
    ensures Plots(points, samples, maximum, 4 * grid.Length0)
    ensures forall b :: Inside(grid, b) ==> (Lit(grid, b) <==> b in Drawn(points))
  {
    var chartWidth, chartHeight := if width < 4 then 4 else width, if height < 2 then 2 else height;
    var columns, rows := 2 * chartWidth, 4 * chartHeight;
    var shown;
    if resample {
      shown := Resample(values, columns);
      if shown == [] {
        shown := seq(columns, _ => Some(0.0));
      }
    } else {
      var visible := if |values| > columns then values[|values| - columns..] else values;
      shown := seq(columns - |visible|, _ => None) + visible;
    }
    assert shown == Shown(values, columns, resample);
    var plotted := PlotSamples(shown, maximum, rows);
    grid := DrawCurve(plotted, chartWidth, chartHeight);
    samples, points := shown, plotted;
  }
}

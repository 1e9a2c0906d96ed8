/** The integer line walk of the sprite generator and its closed form. */
module Bresenham {
  import opened Prelude

  datatype Point = Point(x: int, y: int)

  function Abs(n: int): nat {
    if n < 0 then -n else n
  }

  /** The step towards `to`; the code steps backwards when there is nowhere to go. */
  function Towards(from: int, to: int): int {
    if from < to then 1 else -1
  }

  function Span(p: Point, q: Point): nat {
    Max(Abs(q.x - p.x), Abs(q.y - p.y))
  }

  /** `k * minor / major` rounded to the nearest integer, halves down. */
  function Rung(k: nat, minor: nat, major: nat): int
    requires 0 < major
  {
    (2 * k * minor + major - 1) / (2 * major)
  }

  /** The reference line: the `k`-th centre, without any running error term. */
  function Centre(p: Point, q: Point, k: nat): Point {
    var dx, dy := Abs(q.x - p.x), Abs(q.y - p.y);
    var sx, sy := Towards(p.x, q.x), Towards(p.y, q.y);
    if Span(p, q) == 0 then p
    else if dx >= dy then Point(p.x + sx * k, p.y + sy * Rung(k, dy, dx))
    else Point(p.x + sx * Rung(k, dx, dy), p.y + sy * k)
  }

  /** Which rung is the right one: the unique `j` in a half-open window around the ideal line. */
  lemma {:induction false} RungIs(k: nat, minor: nat, major: nat, j: int)
    requires 0 < major
    ensures j == Rung(k, minor, major) <==> 0 - major <= 2 * (j * major - k * minor) < major
  {
    var n := 2 * k * minor + major - 1;
    var d := 2 * major;
    DivisionIs(n, d, j);
    assert d * j == 2 * (j * major);
  }

  lemma {:induction false} DivisionIs(n: int, d: int, j: int)
    requires 0 < d
    ensures j == n / d <==> d * j <= n < d * j + d
  {
    var t := n / d;
    assert n == d * t + n % d;
    Monotone(j + 1, t, d);
    Monotone(t + 1, j, d);
  }

  lemma Monotone(a: int, b: int, m: nat)
    ensures a <= b ==> m * a <= m * b
  {
  }

  /**
   * One step of the walk, in offsets from the start: from the exact rung at step
   * `k` the two error tests move along the major axis always, and along the minor
   * axis exactly when the next rung is higher.
   */
  lemma {:induction false} Step(k: nat, minor: nat, major: nat, j: int, e: int)
    requires 0 < major && minor <= major && j == Rung(k, minor, major)
    requires e == j * major - k * minor
    ensures minor - 2 * major < 2 * e
    ensures Rung(k + 1, minor, major) == if 2 * e < 2 * minor - major then j + 1 else j
  {
    hide Rung;
    RungIs(k, minor, major, j);
    RungIs(k + 1, minor, major, j);
    RungIs(k + 1, minor, major, j + 1);
    assert (j + 1) * major == j * major + major;
    assert (k + 1) * minor == k * minor + minor;
    if minor == major {
      assert j * major - k * minor == (j - k) * major;
      assert -1 <= 2 * (j - k) < 1 by { Scaled(2 * (j - k), -1, 1, major); }
    }
  }

  lemma {:induction false} Scaled(n: int, lo: int, hi: int, m: nat)
    requires 0 < m && lo * m <= n * m < hi * m
    ensures lo <= n < hi
  {
    Monotone(n + 1, lo, m);
    Monotone(hi, n, m);
  }

  /** After `k` steps the walk has moved `i` and `j` pixels along the two axes. */
  ghost predicate OnLine(dx: nat, dy: nat, k: nat, i: int, j: int) {
    if dx == dy == 0 then i == j == k == 0
    else if dx >= dy then i == k && j == Rung(k, dy, dx)
    else j == k && i == Rung(k, dx, dy)
  }

  /** The error term after moving `i` pixels along x and `j` along y. */
  function Error(dx: nat, dy: nat, i: int, j: int): int {
    dx - dy + (j * dx - i * dy)
  }

  lemma ErrorMoves(dx: nat, dy: nat, i: int, j: int)
    ensures Error(dx, dy, i + 1, j) == Error(dx, dy, i, j) - dy
    ensures Error(dx, dy, i, j + 1) == Error(dx, dy, i, j) + dx
    ensures Error(dx, dy, i + 1, j + 1) == Error(dx, dy, i, j) - dy + dx
  {
    assert (j + 1) * dx == j * dx + dx && (i + 1) * dy == i * dy + dy;
  }

  /** The two tests on the error term take the walk from one rung to the next. */
  lemma {:induction false} ErrorTests(dx: nat, dy: nat, k: nat, i: int, j: int)
    requires OnLine(dx, dy, k, i, j) && k < Max(dx, dy)
    ensures var e2 := 2 * Error(dx, dy, i, j);
            OnLine(dx, dy, k + 1, if e2 > 0 - dy then i + 1 else i, if e2 < dx then j + 1 else j)
  {
    if dx >= dy { Step(k, dy, dx, j, j * dx - i * dy); } else { Step(k, dx, dy, i, i * dy - j * dx); }
  }

  /**
   * The loop of the generator: it stops after exactly `Span + 1` centres, which
   * are the centres of the reference line.
   */
  method Line(x0: int, y0: int, x1: int, y1: int) returns (centres: seq<Point>)
    ensures var p, q := Point(x0, y0), Point(x1, y1);
            && |centres| == Span(p, q) + 1
            && forall k :: 0 <= k < |centres| ==> centres[k] == Centre(p, q, k)
  {
    hide Centre, Rung, OnLine, Error;
    ghost var p, q := Point(x0, y0), Point(x1, y1);
    var dx: int, dy: int := Abs(x1 - x0), Abs(y1 - y0);
    var sx, sy := Towards(x0, x1), Towards(y0, y1);
    var err: int := dx - dy;
    var x, y := x0, y0;
    centres := [];
    ghost var k: nat, i: int, j: int := 0, 0, 0;
    RungIsZero(dx, dy);
    NoError(dx, dy);
    while true
      invariant k <= Span(p, q) && OnLine(dx, dy, k, i, j)
      invariant |centres| == k && forall n :: 0 <= n < k ==> centres[n] == Centre(p, q, n)
      invariant x == (if x0 < x1 then x0 + i else x0 - i)
      invariant y == (if y0 < y1 then y0 + j else y0 - j)
      invariant err == Error(dx, dy, i, j)
      decreases Span(p, q) - k
    {
      CentreIs(p, q, k, i, j);
      centres := centres + [Point(x, y)];
      OnlyTheLastIsTheEnd(p, q, k);
      if x == x1 && y == y1 {
        break;
      }
      ErrorTests(dx, dy, k, i, j);
      ErrorMoves(dx, dy, i, j);
      var e2: int := 2 * err;
      if e2 > -dy {
        err, x := err - dy, x + sx;
        i := i + 1;
      }
      if e2 < dx {
        err, y := err + dx, y + sy;
        j := j + 1;
      }
      k := k + 1;
    }
  }

  lemma NoError(dx: nat, dy: nat)
    ensures Error(dx, dy, 0, 0) == dx - dy
  {
  }

  lemma CentreIs(p: Point, q: Point, k: nat, i: int, j: int)
    requires OnLine(Abs(q.x - p.x), Abs(q.y - p.y), k, i, j)
    ensures Centre(p, q, k) ==
            Point(if p.x < q.x then p.x + i else p.x - i, if p.y < q.y then p.y + j else p.y - j)
  {
    hide Rung;
  }

  lemma {:induction false} RungIsZero(dx: nat, dy: nat)
    ensures OnLine(dx, dy, 0, 0, 0)
  {
    if Max(dx, dy) > 0 {
      RungIs(0, Min(dx, dy), Max(dx, dy), 0);
    }
  }

  /** The line starts on its first endpoint and ends on its second. */
  lemma {:induction false} EndsAt(p: Point, q: Point)
    ensures Centre(p, q, 0) == p
    ensures Centre(p, q, Span(p, q)) == q
  {
    var dx, dy := Abs(q.x - p.x), Abs(q.y - p.y);
    var n := Span(p, q);
    if n > 0 {
      var minor := Min(dx, dy);
      RungIs(0, minor, n, 0);
      assert minor * n == n * minor;
      RungIs(n, minor, n, minor);
    }
  }

  lemma {:induction false} OnlyTheLastIsTheEnd(p: Point, q: Point, k: nat)
    requires k <= Span(p, q)
    ensures Centre(p, q, k) == q <==> k == Span(p, q)
  {
    EndsAt(p, q);
  }

  /** Consecutive centres are 8-neighbours, and never the same pixel. */
  lemma {:induction false} Connected(p: Point, q: Point, k: nat)
    requires k < Span(p, q)
    ensures Span(Centre(p, q, k), Centre(p, q, k + 1)) == 1
  {
    var dx, dy := Abs(q.x - p.x), Abs(q.y - p.y);
    var major, minor := Max(dx, dy), Min(dx, dy);
    var j := Rung(k, minor, major);
    Step(k, minor, major, j, j * major - k * minor);
    assert (k + 1) * 1 == k + 1;
  }

  /** No centre is farther than half a pixel from the true line, measured along the minor axis. */
  lemma {:induction false} HalfPixel(p: Point, q: Point, k: nat)
    requires k <= Span(p, q)
    ensures var dx, dy := Abs(q.x - p.x), Abs(q.y - p.y);
            var c := Centre(p, q, k);
            2 * Abs(Abs(c.y - p.y) * dx - Abs(c.x - p.x) * dy) <= Max(dx, dy)
  {
    var dx, dy := Abs(q.x - p.x), Abs(q.y - p.y);
    var major, minor := Max(dx, dy), Min(dx, dy);
    if major > 0 {
      var j := Rung(k, minor, major);
      RungIs(k, minor, major, j);
      RungNotNegative(k, minor, major);
      assert Abs(Towards(p.x, q.x) * k) == k == Abs(Towards(p.y, q.y) * k);
    }
  }

  lemma {:induction false} RungNotNegative(k: nat, minor: nat, major: nat)
    requires 0 < major
    ensures 0 <= Rung(k, minor, major)
  {
    assert 0 <= 2 * k * minor + major - 1;
  }

  /** Swapping the axes swaps the coordinates of every centre. */
  lemma {:induction false} Transposed(p: Point, q: Point, k: nat)
    requires k <= Span(p, q)
    ensures var c := Centre(p, q, k);
            Centre(Point(p.y, p.x), Point(q.y, q.x), k) == Point(c.y, c.x)
  {
    var dx, dy := Abs(q.x - p.x), Abs(q.y - p.y);
    if dx == dy && dx > 0 {
      RungIs(k, dy, dx, k);
    }
  }

  predicate Tie(k: nat, minor: nat, major: nat)
    requires 0 < major
  {
    (2 * k * minor) % (2 * major) == major
  }

  /**
   * Drawing the line backwards plots the same pixels, except exactly at the
   * steps where the true line passes midway between two pixels.
   */
  lemma {:induction false} ReversedExceptTies(p: Point, q: Point, k: nat)
    requires k <= Span(p, q) && p != q
    ensures var n := Span(p, q);
            var minor := Min(Abs(q.x - p.x), Abs(q.y - p.y));
            Centre(q, p, n - k) == Centre(p, q, k) <==> !Tie(k, minor, n)
  {
    var n := Span(p, q);
    var minor := Min(Abs(q.x - p.x), Abs(q.y - p.y));
    hide Rung, Tie, Centre;
    MirrorsExceptTies(k, minor, n);
    Reflected(p, q, k);
  }

  lemma {:induction false} MirrorsExceptTies(k: nat, minor: nat, n: nat)
    requires 0 < n && k <= n && minor <= n
    ensures Rung(n - k, minor, n) == minor - Rung(k, minor, n) <==> !Tie(k, minor, n)
  {
    hide Rung, Tie;
    var j := Rung(k, minor, n);
    RungIs(k, minor, n, j);
    RungIs(n - k, minor, n, minor - j);
    assert (minor - j) * n == minor * n - j * n;
    assert (n - k) * minor == n * minor - k * minor;
    TieIs(k, minor, n, j);
  }

  lemma {:induction false} TieIs(k: nat, minor: nat, major: nat, j: int)
    requires 0 < major && j == Rung(k, minor, major)
    ensures Tie(k, minor, major) <==> 2 * (j * major - k * minor) == 0 - major
  {
    RungIs(k, minor, major, j);
    var a, d := 2 * k * minor, 2 * major;
    assert a == 2 * (k * minor) && d * j == 2 * (j * major);
    assert d * (j - 1) == d * j - d;
    if a >= d * j {
      DivisionIs(a, d, j);
    } else {
      DivisionIs(a, d, j - 1);
    }
    assert a == d * (a / d) + a % d;
  }

  /** A tie: the middle of this line falls midway between two pixels, and each direction takes its own. */
  lemma {:induction false} BackwardsDiffers()
    ensures var p, q := Point(0, 0), Point(2, 1);
            Centre(p, q, 1) == Point(1, 0) && Centre(q, p, 1) == Point(1, 1)
  {
    hide Rung;
    RungIs(1, 1, 2, 0);
  }

  lemma {:induction false} Reflected(p: Point, q: Point, k: nat)
    requires k <= Span(p, q) && p != q
    ensures var n := Span(p, q);
            var minor := Min(Abs(q.x - p.x), Abs(q.y - p.y));
            Centre(q, p, n - k) == Centre(p, q, k) <==> Rung(n - k, minor, n) == minor - Rung(k, minor, n)
  {
    var dx, dy := Abs(q.x - p.x), Abs(q.y - p.y);
    var sx, sy := Towards(p.x, q.x), Towards(p.y, q.y);
    RungOfFlat(k, Span(p, q));
    RungOfFlat(Span(p, q) - k, Span(p, q));
    hide Rung;
    assert dx != 0 ==> Towards(q.x, p.x) == -sx;
    assert dy != 0 ==> Towards(q.y, p.y) == -sy;
    assert q.x == p.x + sx * dx && q.y == p.y + sy * dy;
  }

  /** A line along an axis never leaves it. */
  lemma RungOfFlat(k: nat, major: nat)
    requires 0 < major
    ensures Rung(k, 0, major) == 0
  {
    RungIs(k, 0, major, 0);
  }
}

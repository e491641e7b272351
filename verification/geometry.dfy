/** Plane points and the geometric helpers that the board code shares:
    numpy means of point arrays, squared distances, the clockwise ordering
    by "y first, then x" and the destination rectangle of a warp. */
module Geometry {
  import opened Seqs

  /** The width of the 2D game's window, in pixels. */
  const WindowWidth := 800

  function Abs(r: real): real
  {
    if r < 0.0 then -r else r
  }

  datatype Point = Point(x: real, y: real)

  /** The four corners of one fiducial marker, in detector order. */
  type Quad = q: seq<Point> | |q| == 4 witness [Point(0.0, 0.0), Point(0.0, 0.0), Point(0.0, 0.0), Point(0.0, 0.0)]

  function SumX(ps: seq<Point>): real
  {
    if ps == [] then 0.0 else SumX(ps[..|ps| - 1]) + ps[|ps| - 1].x
  }

  function SumY(ps: seq<Point>): real
  {
    if ps == [] then 0.0 else SumY(ps[..|ps| - 1]) + ps[|ps| - 1].y
  }

  /** numpy's mean over axis 0 of a non-empty array of points. */
  function MeanPoint(ps: seq<Point>): Point
    requires |ps| > 0
  {
    Point(SumX(ps) / |ps| as real, SumY(ps) / |ps| as real)
  }

  /** The mean of four corners, written out. */
  lemma MeanOfFour(q: Quad)
    ensures MeanPoint(q) == Point((q[0].x + q[1].x + q[2].x + q[3].x) / 4.0,
                                  (q[0].y + q[1].y + q[2].y + q[3].y) / 4.0)
  {
    var s1, s2, s3 := [q[0]], [q[0], q[1]], [q[0], q[1], q[2]];
    assert s1[..0] == [] && s2[..1] == s1 && s3[..2] == s2 && q[..3] == s3;
    assert SumX(s1) == q[0].x && SumY(s1) == q[0].y;
    assert SumX(s2) == SumX(s1) + q[1].x && SumY(s2) == SumY(s1) + q[1].y;
    assert SumX(s3) == SumX(s2) + q[2].x && SumY(s3) == SumY(s2) + q[2].y;
    assert SumX(q) == SumX(s3) + q[3].x && SumY(q) == SumY(s3) + q[3].y;
  }

  lemma {:induction false} SumXBounds(ps: seq<Point>, lo: real, hi: real)
    requires forall i :: 0 <= i < |ps| ==> lo <= ps[i].x <= hi
    ensures |ps| as real * lo <= SumX(ps) <= |ps| as real * hi
    decreases |ps|
  {
    if ps != [] {
      var n := |ps| as real;
      SumXBounds(ps[..|ps| - 1], lo, hi);
      assert n * lo == (n - 1.0) * lo + lo;
      assert n * hi == (n - 1.0) * hi + hi;
    }
  }

  lemma {:induction false} SumYBounds(ps: seq<Point>, lo: real, hi: real)
    requires forall i :: 0 <= i < |ps| ==> lo <= ps[i].y <= hi
    ensures |ps| as real * lo <= SumY(ps) <= |ps| as real * hi
    decreases |ps|
  {
    if ps != [] {
      var n := |ps| as real;
      SumYBounds(ps[..|ps| - 1], lo, hi);
      assert n * lo == (n - 1.0) * lo + lo;
      assert n * hi == (n - 1.0) * hi + hi;
    }
  }

  /** A mean lies in every axis-aligned box that holds all of its points. */
  lemma MeanInBox(ps: seq<Point>, lo: Point, hi: Point)
    requires |ps| > 0
    requires forall i :: 0 <= i < |ps| ==> lo.x <= ps[i].x <= hi.x && lo.y <= ps[i].y <= hi.y
    ensures lo.x <= MeanPoint(ps).x <= hi.x && lo.y <= MeanPoint(ps).y <= hi.y
  {
    MeanXInRange(ps, lo.x, hi.x);
    MeanYInRange(ps, lo.y, hi.y);
  }

  lemma MeanXInRange(ps: seq<Point>, lo: real, hi: real)
    requires |ps| > 0
    requires forall i :: 0 <= i < |ps| ==> lo <= ps[i].x <= hi
    ensures lo <= MeanPoint(ps).x <= hi
  {
    SumXBounds(ps, lo, hi);
    DivBounds(SumX(ps), |ps| as real, lo, hi);
  }

  lemma MeanYInRange(ps: seq<Point>, lo: real, hi: real)
    requires |ps| > 0
    requires forall i :: 0 <= i < |ps| ==> lo <= ps[i].y <= hi
    ensures lo <= MeanPoint(ps).y <= hi
  {
    SumYBounds(ps, lo, hi);
    DivBounds(SumY(ps), |ps| as real, lo, hi);
  }

  lemma DivBounds(sum: real, n: real, lo: real, hi: real)
    requires n > 0.0 && n * lo <= sum <= n * hi
    ensures lo <= sum / n <= hi
  {
    assert (n * lo) / n == lo && (n * hi) / n == hi;
  }

  /** Squared Euclidean distance; it orders points as the norm does. */
  function Dist2(a: Point, b: Point): real
  {
    (a.x - b.x) * (a.x - b.x) + (a.y - b.y) * (a.y - b.y)
  }

  /** The arguments of one foreign perspective warp: the source image, the
      four ordered source points, the destination rectangle and the output
      size (getPerspectiveTransform followed by warpPerspective). */
  datatype Warp<F> = Warp(image: F, src: seq<Point>, dst: seq<Point>, width: int, height: int)

  /** The destination rectangle of a perspective warp onto a w x h image. */
  function DestRect(w: int, h: int): (r: seq<Point>)
    ensures |r| == 4
    ensures r[0].x == r[3].x == 0.0 && r[1].x == r[2].x == (w - 1) as real
    ensures r[0].y == r[1].y == 0.0 && r[2].y == r[3].y == (h - 1) as real
  {
    [Point(0.0, 0.0), Point((w - 1) as real, 0.0),
     Point((w - 1) as real, (h - 1) as real), Point(0.0, (h - 1) as real)]
  }

  function XOf<T>(pos: T -> Point): T -> real
  {
    t => pos(t).x
  }

  function YOf<T>(pos: T -> Point): T -> real
  {
    t => pos(t).y
  }

  function Self(p: Point): Point
  {
    p
  }

  /** Python's sorted() (and numpy's argsort) of two items: stable, so the
      pair is swapped only when the second key is strictly smaller. */
  function SortPair<T>(a: T, b: T, key: T -> real): seq<T>
  {
    if key(b) < key(a) then [b, a] else [a, b]
  }

  /** SortPair is the stable sort of a two-element sequence. */
  lemma SortPairIsSortBy<T>(a: T, b: T, key: T -> real)
    ensures SortPair(a, b, key) == SortBy([a, b], key)
  {
    SortByTwo(a, b, key);
  }

  /** Sort four items by y, split into the upper and the lower pair, sort each
      pair by x, and read them out as top-left, top-right, bottom-right,
      bottom-left. */
  function ClockwiseOrder<T>(s: seq<T>, pos: T -> Point): (r: seq<T>)
    requires |s| == 4
    ensures |r| == 4
  {
    PairsClockwise(SortBy(s, YOf(pos)), pos)
  }

  /** The last steps of ClockwiseOrder, applied to the y-sorted items. */
  function PairsClockwise<T>(ys: seq<T>, pos: T -> Point): (r: seq<T>)
    requires |ys| == 4
    ensures |r| == 4
  {
    var top := SortPair(ys[0], ys[1], XOf(pos));
    var bottom := SortPair(ys[2], ys[3], XOf(pos));
    [top[0], top[1], bottom[1], bottom[0]]
  }

  /** What the clockwise order guarantees: it rearranges its input, the top
      pair has no larger y than the bottom pair, and each pair runs left to
      right (top-left to top-right, bottom-left to bottom-right). */
  lemma ClockwiseOrderSpec<T>(s: seq<T>, pos: T -> Point)
    requires |s| == 4
    ensures var r := ClockwiseOrder(s, pos);
      && multiset(r) == multiset(s)
      && (forall i, j :: 0 <= i < 2 <= j < 4 ==> pos(r[i]).y <= pos(r[j]).y)
      && pos(r[0]).x <= pos(r[1]).x
      && pos(r[3]).x <= pos(r[2]).x
  {
    var ys := SortBy(s, YOf(pos));
    SortBySorted(s, YOf(pos));
    UpperPair(ys, YOf(pos));
    YOfAt(pos, ys[0]); YOfAt(pos, ys[1]); YOfAt(pos, ys[2]); YOfAt(pos, ys[3]);
    PairsClockwiseSpec(ys, pos);
  }

  lemma YOfAt<T>(pos: T -> Point, t: T)
    ensures YOf(pos)(t) == pos(t).y
  {
  }

  lemma PairsClockwiseSpec<T>(ys: seq<T>, pos: T -> Point)
    requires |ys| == 4
    requires pos(ys[0]).y <= pos(ys[2]).y && pos(ys[0]).y <= pos(ys[3]).y
    requires pos(ys[1]).y <= pos(ys[2]).y && pos(ys[1]).y <= pos(ys[3]).y
    ensures var r := PairsClockwise(ys, pos);
      && multiset(r) == multiset(ys)
      && (forall i, j :: 0 <= i < 2 <= j < 4 ==> pos(r[i]).y <= pos(r[j]).y)
      && pos(r[0]).x <= pos(r[1]).x
      && pos(r[3]).x <= pos(r[2]).x
  {
    var r := PairsClockwise(ys, pos);
    assert multiset{r[0], r[1]} == multiset{ys[0], ys[1]};
    assert multiset{r[2], r[3]} == multiset{ys[2], ys[3]};
    assert ys == [ys[0], ys[1], ys[2], ys[3]];
    PairsRearranged(r, ys[0], ys[1], ys[2], ys[3]);
    PairsAbove(r, ys[0], ys[1], ys[2], ys[3], pos);
    assert XOf(pos)(r[0]) == pos(r[0]).x && XOf(pos)(r[1]) == pos(r[1]).x;
    assert XOf(pos)(r[2]) == pos(r[2]).x && XOf(pos)(r[3]) == pos(r[3]).x;
  }

  lemma PairsRearranged<T>(r: seq<T>, a: T, b: T, c: T, d: T)
    requires |r| == 4
    requires multiset{r[0], r[1]} == multiset{a, b} && multiset{r[2], r[3]} == multiset{c, d}
    ensures multiset(r) == multiset([a, b, c, d])
  {
    assert r == [r[0], r[1]] + [r[2], r[3]];
    assert [a, b, c, d] == [a, b] + [c, d];
  }

  lemma PairsAbove<T>(r: seq<T>, a: T, b: T, c: T, d: T, pos: T -> Point)
    requires |r| == 4
    requires multiset{r[0], r[1]} == multiset{a, b} && multiset{r[2], r[3]} == multiset{c, d}
    requires pos(a).y <= pos(c).y && pos(a).y <= pos(d).y
    requires pos(b).y <= pos(c).y && pos(b).y <= pos(d).y
    ensures forall i, j :: 0 <= i < 2 <= j < 4 ==> pos(r[i]).y <= pos(r[j]).y
  {
    assert r[0] == a || r[0] == b by { assert r[0] in multiset{a, b}; }
    assert r[1] == a || r[1] == b by { assert r[1] in multiset{a, b}; }
    assert r[2] == c || r[2] == d by { assert r[2] in multiset{c, d}; }
    assert r[3] == c || r[3] == d by { assert r[3] in multiset{c, d}; }
  }

  lemma UpperPair<T>(ys: seq<T>, key: T -> real)
    requires |ys| == 4 && SortedBy(ys, key)
    ensures key(ys[0]) <= key(ys[2]) && key(ys[0]) <= key(ys[3])
    ensures key(ys[1]) <= key(ys[2]) && key(ys[1]) <= key(ys[3])
  {
  }

  /** A rectangle given in clockwise order from its top-left corner is left
      as it is. */
  lemma DestRectIsClockwise(w: int, h: int)
    requires w >= 2 && h >= 2
    ensures ClockwiseOrder(DestRect(w, h), Self) == DestRect(w, h)
  {
    var d := DestRect(w, h);
    YOfAt(Self, d[0]); YOfAt(Self, d[1]); YOfAt(Self, d[2]); YOfAt(Self, d[3]);
    assert SortedBy(d, YOf(Self));
    SortByOfSorted(d, YOf(Self));
    assert XOf(Self)(d[0]) < XOf(Self)(d[1]) && XOf(Self)(d[3]) < XOf(Self)(d[2]);
  }
}

/** The stand-alone perspective extraction tool: the user clicks four corners
    of a region, the tool orders them clockwise from the top-left, refuses a
    fourth click that would not make a quad of four different points, and
    warps the region onto a w x h image. Windows, keys and files are left
    out. */
module ImageExtractor {
  import opened Seqs
  import opened Geometry

  /** OpenCV's code for a left button press. */
  const LeftButtonDown := 1

  /** Four points ordered top-left, top-right, bottom-right, bottom-left by
      "the two highest, then left to right"; none unless there are four
      points that are all different. */
  function OrderPoints(points: seq<Point>): Option<seq<Point>>
  {
    if |points| != 4 then None
    else
      var r := ClockwiseOrder(points, Self);
      if |{r[0], r[1], r[2], r[3]}| != 4 then None else Some(r)
  }

  /** Four points arranged as a quad: all different, the top two no lower
      than the bottom two, and each pair running left to right. */
  ghost predicate Arranged(r: seq<Point>)
  {
    && |r| == 4
    && Distinct(r)
    && (forall i, j :: 0 <= i < 2 <= j < 4 ==> r[i].y <= r[j].y)
    && r[0].x <= r[1].x
    && r[3].x <= r[2].x
  }

  lemma DistinctFour(r: seq<Point>)
    requires |r| == 4
    ensures Distinct(r) <==> |{r[0], r[1], r[2], r[3]}| == 4
  {
  }

  /** The ordering fails exactly when there are not four points or two of
      them coincide; when it succeeds it rearranges the points into a quad. */
  lemma OrderPointsSpec(points: seq<Point>)
    ensures OrderPoints(points).Some? <==> |points| == 4 && Distinct(points)
    ensures OrderPoints(points).Some? ==>
      var r := OrderPoints(points).value;
      multiset(r) == multiset(points) && Arranged(r)
  {
    if |points| == 4 {
      var r := ClockwiseOrder(points, Self);
      ClockwiseOrderSpec(points, Self);
      DistinctFour(r);
      if Distinct(points) {
        DistinctRearrangement(r, points);
      }
      if Distinct(r) {
        DistinctRearrangement(points, r);
      }
    }
  }

  /** The output rectangle, given in clockwise order, is kept as it is. */
  lemma OrderPointsOfRect(w: int, h: int)
    requires w >= 2 && h >= 2
    ensures OrderPoints(DestRect(w, h)) == Some(DestRect(w, h))
  {
    var d := DestRect(w, h);
    DestRectIsClockwise(w, h);
    assert Distinct(d) by {
      forall i, j | 0 <= i < j < 4 ensures d[i] != d[j] {
        assert d[i].x != d[j].x || d[i].y != d[j].y;
      }
    }
    DistinctFour(d);
  }

  /** The warp of the selected region onto a w x h image: the ordered points
      go to the corners of the output, top-left to (0, 0) and clockwise. */
  function TransformPerspective<F>(image: F, points: seq<Point>, w: int, h: int): (r: Warp<F>)
    ensures r.src == points && |r.dst| == 4
    ensures r.dst[0] == Point(0.0, 0.0) && r.dst[2] == Point((w - 1) as real, (h - 1) as real)
    ensures r.dst[1] == Point((w - 1) as real, 0.0) && r.dst[3] == Point(0.0, (h - 1) as real)
  {
    Warp(image, points, DestRect(w, h), w, h)
  }

  /** The click-driven selection of the region's corners. */
  class ImageTransformer {
    var points: seq<Point>

    /** At most four points; four of them always form a quad. */
    ghost predicate Valid()
      reads this
    {
      |points| <= 4 && (|points| == 4 ==> Arranged(points))
    }

    constructor()
      ensures Valid() && points == []
    {
      points := [];
    }

    /** A mouse event at (x, y). Only a left press while fewer than four
        points are chosen counts; the fourth point is refused when the four
        would not be four different points, and accepted ones are stored in
        quad order. */
    method HandleClick(btn: int, x: int, y: int)
      requires Valid()
      modifies this
      ensures Valid()
      ensures var p := Point(x as real, y as real);
        if btn != LeftButtonDown || |old(points)| >= 4 then points == old(points)
        else if |old(points)| < 3 then points == old(points) + [p]
        else if OrderPoints(old(points) + [p]).None? then points == old(points)
        else points == OrderPoints(old(points) + [p]).value
      ensures |points| == 4 && |old(points)| < 4 ==>
        multiset(points) == multiset(old(points) + [Point(x as real, y as real)])
    {
      if btn == LeftButtonDown && |points| < 4 {
        var p := Point(x as real, y as real);
        var ordered := OrderPoints(points + [p]);
        if |points| == 3 && ordered.None? {
          return;
        }
        points := points + [p];
        if |points| == 4 {
          OrderPointsSpec(points);
          points := ordered.value;
        }
      }
    }
  }
}

/** The perspective transformer of the 2D game: it orders four board points
    by the quadrant each falls in around their centroid and asks for a warp
    of the camera frame onto the game window. The warp itself is foreign. */
module PerspectiveTransformer {
  import opened Seqs
  import opened Geometry

  /** The four output slots, in output order. */
  datatype Slot = TopLeft | TopRight | BottomRight | BottomLeft

  /** The slot a point falls in relative to the centre: above means strictly
      smaller y, left means strictly smaller x, so a point on a centre line
      counts as below or right. */
  function Classify(p: Point, c: Point): (s: Slot)
    ensures (s == TopLeft || s == TopRight) <==> p.y < c.y
    ensures (s == TopLeft || s == BottomLeft) <==> p.x < c.x
  {
    var above := p.y < c.y;
    var left := p.x < c.x;
    if above && left then TopLeft
    else if above && !left then TopRight
    else if !above && !left then BottomRight
    else BottomLeft
  }

  /** The last point of ps in slot s: each later point overwrites the slot. */
  function LastIn(ps: seq<Point>, c: Point, s: Slot): (r: Option<Point>)
    ensures r.Some? ==> r.value in ps && Classify(r.value, c) == s
    ensures r.None? ==> forall i :: 0 <= i < |ps| ==> Classify(ps[i], c) != s
    decreases |ps|
  {
    if ps == [] then None
    else if Classify(ps[|ps| - 1], c) == s then Some(ps[|ps| - 1])
    else
      var init := ps[..|ps| - 1];
      assert forall i :: 0 <= i < |init| ==> init[i] == ps[i];
      LastIn(init, c, s)
  }

  /** Some point of ps falls in slot s. */
  ghost predicate Occupied(ps: seq<Point>, c: Point, s: Slot)
  {
    exists i :: 0 <= i < |ps| && Classify(ps[i], c) == s
  }

  /** The points ordered top-left, top-right, bottom-right, bottom-left by
      quadrant around their mean; none unless there are exactly four points
      and every quadrant holds one. */
  function QuadrantOrder(points: seq<Point>): Option<seq<Point>>
  {
    if |points| != 4 then None
    else
      var c := MeanPoint(points);
      var tl, tr := LastIn(points, c, TopLeft), LastIn(points, c, TopRight);
      var br, bl := LastIn(points, c, BottomRight), LastIn(points, c, BottomLeft);
      if tl.None? || tr.None? || br.None? || bl.None? then None
      else Some([tl.value, tr.value, br.value, bl.value])
  }

  /** The ordering succeeds exactly when there are four points and each of
      the four quadrants around their mean holds one of them. */
  lemma QuadrantOrderSucceeds(points: seq<Point>)
    ensures QuadrantOrder(points).Some? <==>
      |points| == 4 &&
      var c := MeanPoint(points);
      Occupied(points, c, TopLeft) && Occupied(points, c, TopRight) &&
      Occupied(points, c, BottomRight) && Occupied(points, c, BottomLeft)
  {
    if |points| == 4 {
      var c := MeanPoint(points);
      OccupiedLastIn(points, c, TopLeft);
      OccupiedLastIn(points, c, TopRight);
      OccupiedLastIn(points, c, BottomRight);
      OccupiedLastIn(points, c, BottomLeft);
    }
  }

  lemma OccupiedLastIn(ps: seq<Point>, c: Point, s: Slot)
    ensures LastIn(ps, c, s).Some? <==> Occupied(ps, c, s)
  {
    var r := LastIn(ps, c, s);
    if r.Some? {
      var i :| 0 <= i < |ps| && ps[i] == r.value;
    }
  }

  /** Two of the four points in one quadrant make the ordering fail. */
  lemma SharedQuadrantFails(points: seq<Point>, i: int, j: int)
    requires |points| == 4 && 0 <= i < j < 4
    requires Classify(points[i], MeanPoint(points)) == Classify(points[j], MeanPoint(points))
    ensures QuadrantOrder(points).None?
  {
    QuadrantOrderSucceeds(points);
  }

  /** On success the result rearranges the input, and each point sits in the
      slot of its quadrant: strictly above and left of the mean for the
      top-left one, and so on. */
  lemma QuadrantOrderSpec(points: seq<Point>)
    requires QuadrantOrder(points).Some?
    ensures var r := QuadrantOrder(points).value;
      var c := MeanPoint(points);
      && |r| == 4
      && multiset(r) == multiset(points)
      && r[0].y < c.y && r[0].x < c.x
      && r[1].y < c.y && r[1].x >= c.x
      && r[2].y >= c.y && r[2].x >= c.x
      && r[3].y >= c.y && r[3].x < c.x
  {
    var r := QuadrantOrder(points).value;
    var c := MeanPoint(points);
    assert forall k :: 0 <= k < 4 ==> Classify(r[k], c) == [TopLeft, TopRight, BottomRight, BottomLeft][k];
    assert Distinct(r);
    forall i, j | 0 <= i < j < 4 ensures points[i] != points[j] {
      if points[i] == points[j] {
        SharedQuadrantFails(points, i, j);
      }
    }
    DistinctRearranged(r, points);
  }

  /** The window rectangle, already in clockwise order, is ordered as it is. */
  lemma QuadrantOrderOfRect(w: int, h: int)
    requires w >= 2 && h >= 2
    ensures QuadrantOrder(DestRect(w, h)) == Some(DestRect(w, h))
  {
    var d := DestRect(w, h);
    var c := MeanPoint(d);
    MeanOfFour(d);
    assert c == Point((2 * (w - 1)) as real / 4.0, (2 * (h - 1)) as real / 4.0);
    assert Classify(d[0], c) == TopLeft && Classify(d[1], c) == TopRight;
    assert Classify(d[2], c) == BottomRight && Classify(d[3], c) == BottomLeft;
  }

  /** The ordering as the transformer computes it: one pass over the points,
      each overwriting the slot of its quadrant. */
  method OrderPoints(points: seq<Point>) returns (r: Option<seq<Point>>)
    ensures r == QuadrantOrder(points)
  {
    if |points| != 4 {
      return None;
    }
    var c := MeanPoint(points);
    var tl, tr, br, bl := None, None, None, None;
    for i := 0 to 4
      invariant tl == LastIn(points[..i], c, TopLeft)
      invariant tr == LastIn(points[..i], c, TopRight)
      invariant br == LastIn(points[..i], c, BottomRight)
      invariant bl == LastIn(points[..i], c, BottomLeft)
    {
      var p := points[i];
      assert points[..i + 1][..i] == points[..i];
      var above := p.y < c.y;
      var left := p.x < c.x;
      if above && left {
        tl := Some(p);
      } else if above && !left {
        tr := Some(p);
      } else if !above && !left {
        br := Some(p);
      } else if !above && left {
        bl := Some(p);
      }
    }
    assert points[..4] == points;
    if tl.None? || tr.None? || br.None? || bl.None? {
      return None;
    }
    return Some([tl.value, tr.value, br.value, bl.value]);
  }

  /** The warp the transformer requests: none when there are not four points,
      no frame, or the points do not cover the four quadrants; otherwise the
      frame warped from the ordered points onto the whole w x h window. */
  method Transform<F>(frame: Option<F>, points: seq<Point>, w: int, h: int) returns (r: Option<Warp<F>>)
    ensures r.None? <==> |points| != 4 || frame.None? || QuadrantOrder(points).None?
    ensures r.Some? ==> r.value == Warp(frame.value, QuadrantOrder(points).value, DestRect(w, h), w, h)
  {
    if |points| != 4 || frame.None? {
      return None;
    }
    var ordered := OrderPoints(points);
    if ordered.None? {
      return None;
    }
    return Some(Warp(frame.value, ordered.value, DestRect(w, h), w, h));
  }
}

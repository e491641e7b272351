/** Locating the sword (a dark object) in the warped frame: among the
    contours found by the foreign threshold-and-trace step, the one reaching
    highest in the image wins; its topmost point is the sword's tip and the
    point nearest the middle of its bottom band is the hilt. Raster y grows
    downwards; reported points flip y to the game's upward axis. */
module ObjectDetection {
  import opened Seqs
  import opened Geometry

  /** Height of the game window (ar_game/src/config.py). */
  const WindowHeight := 550

  /** How far above the bottom of a contour its bottom band reaches. */
  const BandHeight := 20

  /** A contour point in raster coordinates. */
  datatype Pixel = Pixel(x: int, y: int)

  /** A traced contour; the tracer never yields an empty one. */
  type Contour = seq<Pixel>

  /** The smallest raster y of a contour: its highest row. */
  function MinY(c: Contour): (m: int)
    requires |c| > 0
    ensures forall i :: 0 <= i < |c| ==> m <= c[i].y
    ensures exists i :: 0 <= i < |c| && c[i].y == m
    decreases |c|
  {
    if |c| == 1 then c[0].y
    else
      var init := c[..|c| - 1];
      assert forall i :: 0 <= i < |init| ==> init[i] == c[i];
      var m := MinY(init);
      if c[|c| - 1].y < m then c[|c| - 1].y else m
  }

  /** The largest raster y of a contour: its lowest row. */
  function MaxY(c: Contour): (m: int)
    requires |c| > 0
    ensures forall i :: 0 <= i < |c| ==> c[i].y <= m
    ensures exists i :: 0 <= i < |c| && c[i].y == m
    decreases |c|
  {
    if |c| == 1 then c[0].y
    else
      var init := c[..|c| - 1];
      assert forall i :: 0 <= i < |init| ==> init[i] == c[i];
      var m := MaxY(init);
      if c[|c| - 1].y > m then c[|c| - 1].y else m
  }

  /** Index of the first point of the contour on row y. */
  function FirstOnRow(c: Contour, y: int): (k: nat)
    requires exists i :: 0 <= i < |c| && c[i].y == y
    ensures k < |c| && c[k].y == y
    ensures forall j :: 0 <= j < k ==> c[j].y != y
    decreases |c|
  {
    if c[0].y == y then 0
    else
      assert exists i :: 0 <= i < |c[1..]| && c[1..][i].y == y by {
        var i :| 0 <= i < |c| && c[i].y == y;
        assert c[1..][i - 1] == c[i];
      }
      1 + FirstOnRow(c[1..], y)
  }

  /** The tip of a contour: the first point on its highest row, y flipped. */
  function HighPoint(c: Contour): Point
    requires |c| > 0
  {
    var m := MinY(c);
    Point(c[FirstOnRow(c, m)].x as real, (WindowHeight - m) as real)
  }

  /** Whether a contour is large enough to be considered; area is the
      foreign contour-area measure. */
  predicate Large(c: Contour, area: Contour -> real, minArea: real)
  {
    !(area(c) < minArea)
  }

  /** The contour chosen: the first large enough one whose highest row is
      strictly higher than that of every earlier large enough one. */
  function Best(contours: seq<Contour>, area: Contour -> real, minArea: real): (b: Option<nat>)
    requires forall i :: 0 <= i < |contours| ==> |contours[i]| > 0
    ensures b.Some? ==> b.value < |contours|
    decreases |contours|
  {
    if contours == [] then None
    else
      var n := |contours| - 1;
      var b := Best(contours[..n], area, minArea);
      if !Large(contours[n], area, minArea) then b
      else if b.None? || MinY(contours[n]) < MinY(contours[b.value]) then Some(n)
      else b
  }

  /** No contour is chosen exactly when none is large enough; the chosen one
      is large enough, no large enough contour reaches higher, and every
      earlier large enough one is strictly lower. */
  lemma {:induction false} BestSpec(contours: seq<Contour>, area: Contour -> real, minArea: real)
    requires forall i :: 0 <= i < |contours| ==> |contours[i]| > 0
    ensures var b := Best(contours, area, minArea);
      && (b.None? <==> forall i :: 0 <= i < |contours| ==> !Large(contours[i], area, minArea))
      && (b.Some? ==> Large(contours[b.value], area, minArea))
      && (b.Some? ==> forall j :: 0 <= j < |contours| && Large(contours[j], area, minArea) ==>
            MinY(contours[b.value]) <= MinY(contours[j]))
      && (b.Some? ==> forall j :: 0 <= j < b.value && Large(contours[j], area, minArea) ==>
            MinY(contours[b.value]) < MinY(contours[j]))
    decreases |contours|
  {
    if contours != [] {
      var n := |contours| - 1;
      var init := contours[..n];
      BestSpec(init, area, minArea);
      BestStep(contours, area, minArea);
    }
  }

  /** The induction step of BestSpec, with the last contour split off. */
  lemma BestStep(contours: seq<Contour>, area: Contour -> real, minArea: real)
    requires |contours| > 0 && forall i :: 0 <= i < |contours| ==> |contours[i]| > 0
    requires var init := contours[..|contours| - 1];
      var b := Best(init, area, minArea);
      && (b.None? <==> forall i :: 0 <= i < |init| ==> !Large(init[i], area, minArea))
      && (b.Some? ==> Large(init[b.value], area, minArea))
      && (b.Some? ==> forall j :: 0 <= j < |init| && Large(init[j], area, minArea) ==>
            MinY(init[b.value]) <= MinY(init[j]))
      && (b.Some? ==> forall j :: 0 <= j < b.value && Large(init[j], area, minArea) ==>
            MinY(init[b.value]) < MinY(init[j]))
    ensures var b := Best(contours, area, minArea);
      && (b.None? <==> forall i :: 0 <= i < |contours| ==> !Large(contours[i], area, minArea))
      && (b.Some? ==> Large(contours[b.value], area, minArea))
      && (b.Some? ==> forall j :: 0 <= j < |contours| && Large(contours[j], area, minArea) ==>
            MinY(contours[b.value]) <= MinY(contours[j]))
      && (b.Some? ==> forall j :: 0 <= j < b.value && Large(contours[j], area, minArea) ==>
            MinY(contours[b.value]) < MinY(contours[j]))
  {
    var n := |contours| - 1;
    var init := contours[..n];
    assert forall i :: 0 <= i < n ==> init[i] == contours[i];
  }

  /** Best of one more contour, in terms of the contours themselves. */
  lemma BestNext(contours: seq<Contour>, area: Contour -> real, minArea: real, i: nat)
    requires i < |contours| && forall i :: 0 <= i < |contours| ==> |contours[i]| > 0
    ensures var b := Best(contours[..i], area, minArea);
      Best(contours[..i + 1], area, minArea)
      == if !Large(contours[i], area, minArea) then b
         else if b.None? || MinY(contours[i]) < MinY(contours[b.value]) then Some(i)
         else b
  {
    var p := contours[..i + 1];
    assert p[..i] == contours[..i];
    assert p[i] == contours[i];
    var b := Best(contours[..i], area, minArea);
    if b.Some? {
      assert contours[..i][b.value] == contours[b.value];
    }
  }

  /** The highest contour and its tip, computed as the detector does: one pass
      keeping the best contour so far, then the tip of the winner again. */
  method FindHighestPoint(contours: seq<Contour>, area: Contour -> real, minArea: real) returns (high: Option<Point>, best: Option<Contour>)
    requires forall i :: 0 <= i < |contours| ==> |contours[i]| > 0
    ensures Best(contours, area, minArea).None? ==> high.None? && best.None?
    ensures Best(contours, area, minArea).Some? ==>
      var c := contours[Best(contours, area, minArea).value];
      best == Some(c) && high == Some(HighPoint(c))
  {
    best := None;
    high := None;
    var lowestY: Option<int> := None;
    ghost var chosen: Option<nat> := None;
    for i := 0 to |contours|
      invariant chosen == Best(contours[..i], area, minArea)
      invariant chosen.None? ==> best.None? && high.None? && lowestY.None?
      invariant chosen.Some? ==> chosen.value < i
      invariant chosen.Some? ==> best == Some(contours[chosen.value])
      invariant chosen.Some? ==> lowestY == Some(MinY(contours[chosen.value]))
      invariant chosen.Some? ==> high == Some(HighPoint(contours[chosen.value]))
    {
      BestNext(contours, area, minArea, i);
      var c := contours[i];
      if !(area(c) < minArea) {
        var m := MinY(c);
        if lowestY.None? || m < lowestY.value {
          lowestY := Some(m);
          high := Some(HighPoint(c));
          best := Some(c);
          chosen := Some(i);
        }
      }
    }
    assert contours[..|contours|] == contours;
    if best.Some? {
      high := Some(HighPoint(best.value));
    }
  }

  function AsReal(i: int): real
  {
    i as real
  }

  /** numpy's median: the middle value of the sorted values, or the mean of
      the two middle ones when their number is even. */
  function Median(xs: seq<int>): real
    requires |xs| > 0
  {
    var s := SortBy(xs, AsReal);
    var n := |s|;
    if n % 2 == 1 then s[n / 2] as real
    else (s[n / 2 - 1] + s[n / 2]) as real / 2.0
  }

  function Xs(ps: seq<Pixel>): (xs: seq<int>)
    ensures |xs| == |ps| && forall i :: 0 <= i < |ps| ==> xs[i] == ps[i].x
  {
    seq(|ps|, i requires 0 <= i < |ps| => ps[i].x)
  }

  function Gaps(ps: seq<Pixel>, m: real): (g: seq<real>)
    ensures |g| == |ps| && forall i :: 0 <= i < |ps| ==> g[i] == Abs(ps[i].x as real - m)
  {
    seq(|ps|, i requires 0 <= i < |ps| => Abs(ps[i].x as real - m))
  }

  /** The points of a contour in its bottom band, in contour order. */
  function Band(c: Contour): seq<Pixel>
    requires |c| > 0
  {
    var floor := MaxY(c) - BandHeight;
    Filter(c, (p: Pixel) => p.y >= floor)
  }

  lemma BandSpec(c: Contour)
    requires |c| > 0
    ensures |Band(c)| > 0
    ensures forall k :: 0 <= k < |Band(c)| ==> Band(c)[k] in c && Band(c)[k].y >= MaxY(c) - BandHeight
    ensures forall i :: 0 <= i < |c| && c[i].y >= MaxY(c) - BandHeight ==> c[i] in Band(c)
  {
    var i :| 0 <= i < |c| && c[i].y == MaxY(c);
    assert c[i] in Band(c);
  }

  /** Point k's x is at least as near m as any band point's, and strictly
      nearer than any earlier one's. */
  predicate NearestTo(band: seq<Pixel>, k: nat, m: real)
    requires k < |band|
  {
    && (forall j :: 0 <= j < |band| ==> Abs(band[k].x as real - m) <= Abs(band[j].x as real - m))
    && (forall j :: 0 <= j < k ==> Abs(band[k].x as real - m) < Abs(band[j].x as real - m))
  }

  /** Index of the band point whose x is nearest the band's median x (the
      first such point on a tie). */
  function Nearest(band: seq<Pixel>): (k: nat)
    requires |band| > 0
    ensures k < |band| && NearestTo(band, k, Median(Xs(band)))
  {
    ArgMin(Gaps(band, Median(Xs(band))))
  }

  /** The hilt of a contour: its nearest-to-median band point, y flipped;
      none without a contour. */
  function FindLowestPoint(contour: Option<Contour>): Option<Point>
  {
    if contour.None? || |contour.value| == 0 then None
    else
      var band := Band(contour.value);
      BandSpec(contour.value);
      var k := Nearest(band);
      Some(Point(band[k].x as real, (WindowHeight - band[k].y) as real))
  }

  /** Band point k of contour c is the hilt: the reported point is band
      point k with y flipped; band point k is a point of c in its bottom band;
      its x is nearest the band's median x, and strictly nearer than that of
      every earlier band point. */
  ghost predicate HiltAt(c: Contour, k: int)
    requires |c| > 0
  {
    var band := Band(c);
    var m := Median(Xs(band));
    && 0 <= k < |band|
    && FindLowestPoint(Some(c)) == Some(Point(band[k].x as real, (WindowHeight - band[k].y) as real))
    && band[k] in c && band[k].y >= MaxY(c) - BandHeight
    && NearestTo(band, k, m)
  }

  /** The hilt is missing exactly when the contour is; otherwise some band
      point is the hilt. */
  lemma FindLowestPointSpec(contour: Option<Contour>)
    ensures FindLowestPoint(contour).None? <==> contour.None? || |contour.value| == 0
    ensures contour.Some? && |contour.value| > 0 ==> exists k :: HiltAt(contour.value, k)
  {
    if contour.Some? && |contour.value| > 0 {
      HiltIsNearest(contour.value);
    }
  }

  lemma HiltIsNearest(c: Contour)
    requires |c| > 0
    ensures HiltAt(c, Nearest(Band(c)))
  {
    var band := Band(c);
    BandSpec(c);
    var k := Nearest(band);
    assert band[k] in c && band[k].y >= MaxY(c) - BandHeight;
    assert 0 <= k < |band|;
    assert FindLowestPoint(Some(c)) == Some(Point(band[k].x as real, (WindowHeight - band[k].y) as real));
    assert NearestTo(band, k, Median(Xs(band)));
  }

  /** The median of an odd number of values is one of them. */
  lemma OddMedianIsValue(xs: seq<int>)
    requires |xs| % 2 == 1
    ensures exists j :: 0 <= j < |xs| && xs[j] as real == Median(xs)
  {
    var s := SortBy(xs, AsReal);
    var mid := s[|s| / 2];
    assert mid in multiset(s);
    assert mid in xs;
    var j :| 0 <= j < |xs| && xs[j] == mid;
    assert xs[j] as real == Median(xs);
  }

  /** With an odd number of band points the median is one of their x values,
      so the hilt sits exactly on the median. */
  lemma OddBandHitsMedian(c: Contour)
    requires |c| > 0 && |Band(c)| % 2 == 1
    ensures FindLowestPoint(Some(c)).value.x == Median(Xs(Band(c)))
  {
    var band := Band(c);
    BandSpec(c);
    var xs := Xs(band);
    OddMedianIsValue(xs);
    var j :| 0 <= j < |xs| && xs[j] as real == Median(xs);
    var m := Median(xs);
    assert Abs(band[j].x as real - m) == 0.0;
    var k := Nearest(band);
    assert NearestTo(band, k, m);
    assert Abs(band[k].x as real - m) <= Abs(band[j].x as real - m);
    assert FindLowestPoint(Some(c)).value.x == band[k].x as real;
  }

  /** The hilt of a contour is never higher on screen than its tip. */
  lemma HiltBelowTip(c: Contour)
    requires |c| > 0
    ensures FindLowestPoint(Some(c)).value.y <= HighPoint(c).y
  {
    FindLowestPointSpec(Some(c));
  }

  /** Tip and hilt of the sword: both missing when no contour is large
      enough, otherwise the tip and the hilt of the highest contour. */
  method DetectObject(contours: seq<Contour>, area: Contour -> real, minArea: real) returns (high: Option<Point>, low: Option<Point>)
    requires forall i :: 0 <= i < |contours| ==> |contours[i]| > 0
    ensures high.None? <==> Best(contours, area, minArea).None?
    ensures high.None? <==> forall i :: 0 <= i < |contours| ==> area(contours[i]) < minArea
    ensures low.None? <==> high.None?
    ensures high.Some? ==>
      var c := contours[Best(contours, area, minArea).value];
      high == Some(HighPoint(c)) && low == FindLowestPoint(Some(c)) && low.value.y <= high.value.y
  {
    var best;
    high, best := FindHighestPoint(contours, area, minArea);
    low := FindLowestPoint(best);
    BestSpec(contours, area, minArea);
    if best.Some? {
      HiltBelowTip(best.value);
    }
  }
}

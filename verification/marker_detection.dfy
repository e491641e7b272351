/** Board detection from ArUco markers: the marker cache that bridges frames
    in which too few markers are seen, the choice of the markers that span
    the board, and the inner corner of each of them (the corner nearest the
    board centre). The detector itself and the clock are inputs. */
module MarkerDetection {
  import opened Seqs
  import opened Geometry

  /** How long a cached marker stays usable, in seconds. */
  const CacheTimeout := 1.0

  /** One marker found in the current frame. */
  datatype Detection = Detection(id: int, corners: Quad)

  /** The last corners seen of a marker and when they were seen. */
  datatype CacheEntry = CacheEntry(corners: Quad, timestamp: real)

  /** A marker handed to the board code: its centre and its corners. */
  datatype MarkerData = MarkerData(centre: Point, corners: Quad)

  /** The inner corners of the board markers, in board order, and the mean of
      all marker centres. */
  datatype Board = Board(innerCorners: seq<Point>, centre: Point)

  /** A marker as the board code sees it: its corners and their mean. */
  function Describe(corners: Quad): MarkerData
  {
    MarkerData(MeanPoint(corners), corners)
  }

  /** The centre of a described marker is the average of its four corners. */
  lemma DescribeCentre(corners: Quad)
    ensures Describe(corners).corners == corners
    ensures Describe(corners).centre ==
      Point((corners[0].x + corners[1].x + corners[2].x + corners[3].x) / 4.0,
            (corners[0].y + corners[1].y + corners[2].y + corners[3].y) / 4.0)
  {
    MeanOfFour(corners);
  }

  function CornerDistances(corners: Quad, centre: Point): (d: seq<real>)
    ensures |d| == 4 && forall i :: 0 <= i < 4 ==> d[i] == Dist2(corners[i], centre)
  {
    [Dist2(corners[0], centre), Dist2(corners[1], centre),
     Dist2(corners[2], centre), Dist2(corners[3], centre)]
  }

  /** The corner of a marker closest to the board centre; on a tie the first
      such corner. (Squared distances order corners as the norms do.) */
  function InnerCorner(corners: Quad, centre: Point): Point
  {
    corners[ArgMin(CornerDistances(corners, centre))]
  }

  lemma InnerCornerSpec(corners: Quad, centre: Point)
    ensures exists k :: (0 <= k < 4 && InnerCorner(corners, centre) == corners[k]
      && (forall j :: 0 <= j < 4 ==> Dist2(corners[k], centre) <= Dist2(corners[j], centre))
      && (forall j :: 0 <= j < k ==> Dist2(corners[k], centre) < Dist2(corners[j], centre)))
  {
    var k := ArgMin(CornerDistances(corners, centre));
    assert InnerCorner(corners, centre) == corners[k];
  }

  /** Some detection in the frame has this id. */
  ghost predicate Detected(dets: seq<Detection>, id: int)
  {
    exists i :: 0 <= i < |dets| && dets[i].id == id
  }

  /** No later detection in the frame has the same id as detection i. */
  ghost predicate LastSighting(dets: seq<Detection>, i: int)
    requires 0 <= i < |dets|
  {
    forall j :: i < j < |dets| ==> dets[j].id != dets[i].id
  }

  /** The cache after recording every detection of the frame with time now. */
  function CacheAfter(cache: map<int, CacheEntry>, dets: seq<Detection>, now: real): map<int, CacheEntry>
    decreases |dets|
  {
    if dets == [] then cache
    else
      var last := dets[|dets| - 1];
      CacheAfter(cache, dets[..|dets| - 1], now)[last.id := CacheEntry(last.corners, now)]
  }

  /** The insertion order of the cache's keys: a new id goes to the end, an id
      seen before keeps its place. */
  function OrderAfter(order: seq<int>, dets: seq<Detection>): seq<int>
    decreases |dets|
  {
    if dets == [] then order
    else
      var last := dets[|dets| - 1];
      var o := OrderAfter(order, dets[..|dets| - 1]);
      if last.id in o then o else o + [last.id]
  }

  lemma DetectedInit(dets: seq<Detection>)
    requires dets != []
    ensures forall id :: Detected(dets, id) <==> Detected(dets[..|dets| - 1], id) || id == dets[|dets| - 1].id
  {
    var init := dets[..|dets| - 1];
    assert forall i :: 0 <= i < |init| ==> init[i] == dets[i];
  }

  /** After the update the cache holds exactly the old ids and the detected
      ones; an id not detected keeps its entry; a detected id holds the
      corners of its last sighting in the frame, stamped now. */
  lemma {:induction false} CacheAfterSpec(cache: map<int, CacheEntry>, dets: seq<Detection>, now: real)
    ensures var r := CacheAfter(cache, dets, now);
      && (forall id :: id in r <==> id in cache || Detected(dets, id))
      && (forall id :: id in cache && !Detected(dets, id) ==> r[id] == cache[id])
      && (forall i :: 0 <= i < |dets| && LastSighting(dets, i) ==>
            dets[i].id in r && r[dets[i].id] == CacheEntry(dets[i].corners, now))
    decreases |dets|
  {
    if dets != [] {
      var init := dets[..|dets| - 1];
      var last := dets[|dets| - 1];
      CacheAfterSpec(cache, init, now);
      DetectedInit(dets);
      var r := CacheAfter(cache, dets, now);
      assert r == CacheAfter(cache, init, now)[last.id := CacheEntry(last.corners, now)];
      forall i | 0 <= i < |dets| && LastSighting(dets, i)
        ensures dets[i].id in r && r[dets[i].id] == CacheEntry(dets[i].corners, now)
      {
        if i < |init| {
          assert init[i] == dets[i] && dets[i].id != last.id;
          assert LastSighting(init, i);
        }
      }
    }
  }

  /** The key order only grows at its end, stays free of duplicates, and lists
      exactly the old ids and the detected ones. */
  lemma {:induction false} OrderAfterSpec(order: seq<int>, dets: seq<Detection>)
    ensures var r := OrderAfter(order, dets);
      && order <= r
      && (Distinct(order) ==> Distinct(r))
      && (forall id :: id in r <==> id in order || Detected(dets, id))
    decreases |dets|
  {
    if dets != [] {
      OrderAfterSpec(order, dets[..|dets| - 1]);
      DetectedInit(dets);
    }
  }

  lemma CacheAfterStep(cache: map<int, CacheEntry>, dets: seq<Detection>, i: int, now: real)
    requires 0 <= i < |dets|
    ensures CacheAfter(cache, dets[..i + 1], now)
      == CacheAfter(cache, dets[..i], now)[dets[i].id := CacheEntry(dets[i].corners, now)]
  {
    assert dets[..i + 1][..i] == dets[..i];
  }

  lemma OrderAfterStep(order: seq<int>, dets: seq<Detection>, i: int)
    requires 0 <= i < |dets|
    ensures var o := OrderAfter(order, dets[..i]);
      OrderAfter(order, dets[..i + 1]) == if dets[i].id in o then o else o + [dets[i].id]
  {
    assert dets[..i + 1][..i] == dets[..i];
  }

  /** Every id of the order has a cache entry. */
  ghost predicate Keyed(order: seq<int>, cache: map<int, CacheEntry>)
  {
    forall i :: 0 <= i < |order| ==> order[i] in cache
  }

  /** Every marker of the frame, described, in detection order. */
  function FreshData(dets: seq<Detection>): (r: seq<MarkerData>)
    ensures |r| == |dets|
    ensures forall i :: 0 <= i < |dets| ==> r[i] == Describe(dets[i].corners)
    decreases |dets|
  {
    if dets == [] then []
    else FreshData(dets[..|dets| - 1]) + [Describe(dets[|dets| - 1].corners)]
  }

  predicate Recent(e: CacheEntry, now: real, timeout: real)
  {
    now - e.timestamp < timeout
  }

  /** The cached markers younger than the timeout, in the cache's key order. */
  function CachedData(ids: seq<int>, cache: map<int, CacheEntry>, now: real, timeout: real): (r: seq<MarkerData>)
    requires Keyed(ids, cache)
    ensures |r| <= |ids|
    ensures forall k :: 0 <= k < |r| ==> RecentEntryOf(r[k], ids, cache, now, timeout)
    ensures forall i :: 0 <= i < |ids| && Recent(cache[ids[i]], now, timeout) ==>
      Describe(cache[ids[i]].corners) in r
    decreases |ids|
  {
    if ids == [] then []
    else
      var init := ids[..|ids| - 1];
      assert forall i :: 0 <= i < |init| ==> init[i] == ids[i];
      var r := CachedData(init, cache, now, timeout);
      var e := cache[ids[|ids| - 1]];
      if Recent(e, now, timeout) then
        var r' := r + [Describe(e.corners)];
        assert RecentEntryOf(r'[|r|], ids, cache, now, timeout);
        assert forall k :: 0 <= k < |r| ==> r'[k] == r[k];
        r'
      else r
  }

  /** The cached markers of one more key are those of the keys before it,
      followed by its own marker when it is recent. */
  lemma CachedDataStep(ids: seq<int>, cache: map<int, CacheEntry>, now: real, timeout: real, k: nat)
    requires Keyed(ids, cache) && k < |ids|
    ensures CachedData(ids[..k + 1], cache, now, timeout)
      == CachedData(ids[..k], cache, now, timeout)
         + (if Recent(cache[ids[k]], now, timeout) then [Describe(cache[ids[k]].corners)] else [])
  {
    assert ids[..k + 1][..k] == ids[..k];
    assert ids[..k + 1][k] == ids[k];
  }

  /** m describes the cached entry of one of ids that is still recent. */
  ghost predicate RecentEntryOf(m: MarkerData, ids: seq<int>, cache: map<int, CacheEntry>, now: real, timeout: real)
    requires Keyed(ids, cache)
  {
    exists i :: 0 <= i < |ids| && Recent(cache[ids[i]], now, timeout) && m == Describe(cache[ids[i]].corners)
  }

  /** The markers the board is built from, given the frame's detections and
      the cache already updated with them: the fresh markers when there are at
      least three, otherwise the recent cached markers when there are at least
      three, otherwise none. */
  function WorkingSet(dets: seq<Detection>, order: seq<int>, cache: map<int, CacheEntry>, now: real, timeout: real): seq<MarkerData>
    requires Keyed(order, cache)
  {
    if |dets| >= 3 then FreshData(dets)
    else
      var recent := CachedData(order, cache, now, timeout);
      if |recent| >= 3 then recent else []
  }

  /** The working set is empty or has at least three markers; the fresh
      markers win whenever there are three of them; every centre is the mean
      of its marker's corners. */
  lemma WorkingSetSpec(dets: seq<Detection>, order: seq<int>, cache: map<int, CacheEntry>, now: real, timeout: real)
    requires Keyed(order, cache)
    ensures var r := WorkingSet(dets, order, cache, now, timeout);
      && (r == [] || |r| >= 3)
      && (|dets| >= 3 ==> r == FreshData(dets))
      && (forall k :: 0 <= k < |r| ==> r[k].centre == MeanPoint(r[k].corners))
  {
  }

  /** A marker seen in this frame is always recent in the updated cache, so
      when the cache is used it contributes its newest corners. */
  lemma SeenMarkersAreRecent(order: seq<int>, cache: map<int, CacheEntry>, dets: seq<Detection>, now: real, timeout: real, i: int)
    requires forall id :: id in cache <==> id in order
    requires timeout > 0.0
    requires 0 <= i < |dets| && LastSighting(dets, i)
    ensures var order' := OrderAfter(order, dets);
      var cache' := CacheAfter(cache, dets, now);
      Keyed(order', cache')
      && Describe(dets[i].corners) in CachedData(order', cache', now, timeout)
  {
    var order' := OrderAfter(order, dets);
    var cache' := CacheAfter(cache, dets, now);
    CacheAfterSpec(cache, dets, now);
    OrderAfterSpec(order, dets);
    assert Detected(dets, dets[i].id);
    assert dets[i].id in order';
    KeyedAfter(order, cache, dets, now);
    var j :| 0 <= j < |order'| && order'[j] == dets[i].id;
    assert cache'[order'[j]] == CacheEntry(dets[i].corners, now);
    RecentIsListed(order', cache', now, timeout, j);
  }

  /** Updating the cache and its key order together keeps every listed id
      backed by an entry. */
  lemma KeyedAfter(order: seq<int>, cache: map<int, CacheEntry>, dets: seq<Detection>, now: real)
    requires forall id :: id in order ==> id in cache
    ensures Keyed(OrderAfter(order, dets), CacheAfter(cache, dets, now))
  {
    var order' := OrderAfter(order, dets);
    var cache' := CacheAfter(cache, dets, now);
    OrderAfterSpec(order, dets);
    CacheAfterSpec(cache, dets, now);
    forall k | 0 <= k < |order'| ensures order'[k] in cache' {
      var id := order'[k];
      assert id in order';
      if id in order {
        assert id in cache;
      } else {
        assert Detected(dets, id);
      }
    }
  }

  lemma RecentIsListed(ids: seq<int>, cache: map<int, CacheEntry>, now: real, timeout: real, j: int)
    requires Keyed(ids, cache) && 0 <= j < |ids| && Recent(cache[ids[j]], now, timeout)
    ensures Describe(cache[ids[j]].corners) in CachedData(ids, cache, now, timeout)
  {
  }

  /** The markers of the frame's detections, one after the other. */
  method DescribeAll(dets: seq<Detection>) returns (data: seq<MarkerData>)
    ensures data == FreshData(dets)
  {
    data := [];
    var k := 0;
    while k < |dets|
      invariant 0 <= k <= |dets|
      invariant data == FreshData(dets[..k])
    {
      assert dets[..k + 1][..k] == dets[..k];
      data := data + [Describe(dets[k].corners)];
      k := k + 1;
    }
    assert dets[..|dets|] == dets;
  }

  /** The cached markers seen less than the timeout ago, in key order. */
  method RecentMarkers(order: seq<int>, cache: map<int, CacheEntry>, now: real) returns (recent: seq<MarkerData>)
    requires Keyed(order, cache)
    ensures recent == CachedData(order, cache, now, CacheTimeout)
  {
    recent := [];
    var k := 0;
    while k < |order|
      invariant 0 <= k <= |order|
      invariant recent == CachedData(order[..k], cache, now, CacheTimeout)
    {
      CachedDataStep(order, cache, now, CacheTimeout, k);
      var e := cache[order[k]];
      if now - e.timestamp < CacheTimeout {
        recent := recent + [Describe(e.corners)];
      }
      k := k + 1;
    }
    assert order[..|order|] == order;
  }

  /** The marker cache of one detector: its entries by id, and the order in
      which the ids were first inserted (the order a dict iterates in). */
  class MarkerDetector {
    var order: seq<int>
    var cache: map<int, CacheEntry>

    ghost predicate Valid()
      reads this
    {
      && (forall id :: id in cache <==> id in order)
      && Keyed(order, cache)
      && Distinct(order)
    }

    constructor()
      ensures Valid() && order == [] && cache == map[]
    {
      order := [];
      cache := map[];
    }

    /** Records the frame's detections in the cache and returns the markers
        the board is built from. */
    method GetMarkerData(dets: seq<Detection>, now: real) returns (data: seq<MarkerData>)
      requires Valid()
      modifies this
      ensures Valid()
      ensures order == OrderAfter(old(order), dets)
      ensures cache == CacheAfter(old(cache), dets, now)
      ensures data == WorkingSet(dets, order, cache, now, CacheTimeout)
    {
      var i := 0;
      while i < |dets|
        invariant 0 <= i <= |dets|
        invariant Valid()
        invariant order == OrderAfter(old(order), dets[..i])
        invariant cache == CacheAfter(old(cache), dets[..i], now)
      {
        CacheAfterStep(old(cache), dets, i, now);
        OrderAfterStep(old(order), dets, i);
        Remember(dets, i, now);
        i := i + 1;
      }
      assert dets[..|dets|] == dets;
      if |dets| >= 3 {
        data := DescribeAll(dets);
        return;
      }
      var recent := RecentMarkers(order, cache, now);
      data := if |recent| >= 3 then recent else [];
    }

    /** Records detection i of the frame. */
    method Remember(dets: seq<Detection>, i: int, now: real)
      requires Valid() && 0 <= i < |dets|
      modifies this
      ensures Valid()
      ensures order == (if dets[i].id in old(order) then old(order) else old(order) + [dets[i].id])
      ensures cache == old(cache)[dets[i].id := CacheEntry(dets[i].corners, now)]
    {
      var d := dets[i];
      if d.id !in cache {
        order := order + [d.id];
      }
      cache := cache[d.id := CacheEntry(d.corners, now)];
    }

    /** One frame of board detection. */
    method GetBoardData(dets: seq<Detection>, now: real) returns (board: Option<Board>)
      requires Valid()
      modifies this
      ensures Valid()
      ensures order == OrderAfter(old(order), dets)
      ensures cache == CacheAfter(old(cache), dets, now)
      ensures board == BoardFrom(WorkingSet(dets, order, cache, now, CacheTimeout))
    {
      var data := GetMarkerData(dets, now);
      board := BoardFrom(data);
    }
  }

  function CentreOf(m: MarkerData): Point
  {
    m.centre
  }

  function Centres(data: seq<MarkerData>): (c: seq<Point>)
    ensures |c| == |data| && forall i :: 0 <= i < |data| ==> c[i] == data[i].centre
  {
    seq(|data|, i requires 0 <= i < |data| => data[i].centre)
  }

  /** The markers that span the board, in board order: with four markers the
      clockwise order of their centres, otherwise the three whose centres are
      highest in the image. */
  function BoardMarkers(data: seq<MarkerData>): (chosen: seq<MarkerData>)
    requires |data| >= 3
    ensures |chosen| == if |data| == 4 then 4 else 3
  {
    if |data| == 4 then ClockwiseOrder(data, CentreOf)
    else SortBy(data, YOf(CentreOf))[..3]
  }

  function InnerCorners(chosen: seq<MarkerData>, centre: Point): (r: seq<Point>)
    ensures |r| == |chosen|
    ensures forall k :: 0 <= k < |r| ==> r[k] == InnerCorner(chosen[k].corners, centre)
  {
    seq(|chosen|, k requires 0 <= k < |chosen| => InnerCorner(chosen[k].corners, centre))
  }

  /** The board seen in the working set: none with fewer than three markers,
      otherwise the inner corners of the board markers and the mean of all
      marker centres. */
  function BoardFrom(data: seq<MarkerData>): (r: Option<Board>)
    ensures r.None? <==> |data| < 3
    ensures r.Some? ==> |r.value.innerCorners| == if |data| == 4 then 4 else 3
  {
    if |data| < 3 then None
    else
      var centre := MeanPoint(Centres(data));
      Some(Board(InnerCorners(BoardMarkers(data), centre), centre))
  }

  /** With four markers the board markers are the four, arranged top-left,
      top-right, bottom-right, bottom-left by their centres. */
  lemma FourMarkerBoard(data: seq<MarkerData>)
    requires |data| == 4
    ensures var chosen := BoardMarkers(data);
      && multiset(chosen) == multiset(data)
      && (forall i, j :: 0 <= i < 2 <= j < 4 ==> chosen[i].centre.y <= chosen[j].centre.y)
      && chosen[0].centre.x <= chosen[1].centre.x
      && chosen[3].centre.x <= chosen[2].centre.x
  {
    ClockwiseOrderSpec(data, CentreOf);
  }

  /** With three or more than four markers the board markers are three of
      them, none lower in the image than any marker left out. */
  lemma OtherMarkerBoard(data: seq<MarkerData>)
    requires |data| >= 3 && |data| != 4
    ensures var ys := SortBy(data, YOf(CentreOf));
      && BoardMarkers(data) == ys[..3]
      && multiset(ys) == multiset(data)
      && (forall i, j :: 0 <= i < 3 <= j < |ys| ==> ys[i].centre.y <= ys[j].centre.y)
      && (forall i, j :: 0 <= i < j < 3 ==> ys[i].centre.y <= ys[j].centre.y)
  {
    var ys := SortBy(data, YOf(CentreOf));
    SortBySorted(data, YOf(CentreOf));
    forall i | 0 <= i < |ys| ensures YOf(CentreOf)(ys[i]) == ys[i].centre.y {
      YOfAt(CentreOf, ys[i]);
    }
  }

  /** Each board corner is the inner corner of a distinct detected marker
      relative to the board centre, and the board centre is the mean of the
      marker centres. */
  lemma BoardCornersAreInner(data: seq<MarkerData>)
    requires |data| >= 3
    ensures var b := BoardFrom(data).value;
      && b.centre == MeanPoint(Centres(data))
      && multiset(BoardMarkers(data)) <= multiset(data)
      && forall k :: 0 <= k < |b.innerCorners| ==>
           b.innerCorners[k] == InnerCorner(BoardMarkers(data)[k].corners, b.centre)
  {
    if |data| == 4 {
      FourMarkerBoard(data);
    } else {
      var ys := SortBy(data, YOf(CentreOf));
      OtherMarkerBoard(data);
      assert ys == ys[..3] + ys[3..];
    }
  }

  /** The board centre lies inside every box that holds all marker centres. */
  lemma BoardCentreInBox(data: seq<MarkerData>, lo: Point, hi: Point)
    requires |data| >= 3
    requires forall i :: 0 <= i < |data| ==>
      lo.x <= data[i].centre.x <= hi.x && lo.y <= data[i].centre.y <= hi.y
    ensures var c := BoardFrom(data).value.centre;
      lo.x <= c.x <= hi.x && lo.y <= c.y <= hi.y
  {
    MeanInBox(Centres(data), lo, hi);
  }
}

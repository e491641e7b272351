/** The marker arithmetic of the 3D game: the centre of a detected marker,
    the side length guessed from its corners, the square of object points
    handed to the pose solver, and the row layout of an image handed to the
    window. The solver itself is a parameter. */
module MarkerPose {
  import opened Seqs
  import opened Geometry

  /** A point of the marker's own coordinate system. */
  datatype Point3 = Point3(x: real, y: real, z: real)

  /** The centre of one marker: the mean of its four corners. */
  function Center(corners: Quad): Point
  {
    MeanPoint(corners)
  }

  /** The centre averages the four corners coordinate by coordinate, and so
      lies inside every box that holds the corners. */
  lemma CenterSpec(corners: Quad, lo: Point, hi: Point)
    ensures Center(corners) == Point((corners[0].x + corners[1].x + corners[2].x + corners[3].x) / 4.0,
                                     (corners[0].y + corners[1].y + corners[2].y + corners[3].y) / 4.0)
    ensures (forall i :: 0 <= i < 4 ==> lo.x <= corners[i].x <= hi.x && lo.y <= corners[i].y <= hi.y)
      ==> lo.x <= Center(corners).x <= hi.x && lo.y <= Center(corners).y <= hi.y
  {
    MeanOfFour(corners);
    if forall i :: 0 <= i < 4 ==> lo.x <= corners[i].x <= hi.x && lo.y <= corners[i].y <= hi.y {
      MeanInBox(corners, lo, hi);
    }
  }

  /** The side length of the markers: the larger horizontal distance from
      the first corner of the first marker to its second or third corner. */
  function MarkerLength(corners: seq<Quad>): (length: real)
    requires |corners| > 0
    ensures length >= 0.0
    ensures length >= Abs(corners[0][0].x - corners[0][1].x)
    ensures length >= Abs(corners[0][0].x - corners[0][2].x)
    ensures length == Abs(corners[0][0].x - corners[0][1].x) || length == Abs(corners[0][0].x - corners[0][2].x)
  {
    var d1 := Abs(corners[0][0].x - corners[0][1].x);
    var d2 := Abs(corners[0][0].x - corners[0][2].x);
    if d1 > d2 then d1 else d2
  }

  /** The object points of a marker of the given side: a square around the
      origin in the plane z = 0, from the corner at (-, +) clockwise. */
  function MarkerPoints(length: real): seq<Point3>
  {
    var h := length / 2.0;
    [Point3(-h, h, 0.0), Point3(h, h, 0.0), Point3(h, -h, 0.0), Point3(-h, -h, 0.0)]
  }

  /** The object points form a square of the given side centred on the
      origin: four corners in the plane z = 0 summing to the origin, each
      side parallel to an axis and as long as the marker, the first corner
      top left and the rest in clockwise order. */
  lemma MarkerPointsSquare(length: real)
    ensures var ps := MarkerPoints(length);
      && |ps| == 4
      && (forall i :: 0 <= i < 4 ==> ps[i].z == 0.0)
      && ps[0].x + ps[1].x + ps[2].x + ps[3].x == 0.0
      && ps[0].y + ps[1].y + ps[2].y + ps[3].y == 0.0
      && ps[1].x - ps[0].x == length && ps[1].y == ps[0].y
      && ps[1].y - ps[2].y == length && ps[2].x == ps[1].x
      && ps[2].x - ps[3].x == length && ps[3].y == ps[2].y
      && ps[0].y - ps[3].y == length && ps[0].x == ps[3].x
      && (length > 0.0 ==> ps[0].x < 0.0 < ps[0].y && ps[2].y < 0.0 < ps[2].x)
  {
  }

  /** One solver result per marker, in the order of the markers. */
  function SolveEach<P>(points: seq<Point3>, corners: seq<Quad>, solve: (seq<Point3>, Quad) -> P): seq<P>
  {
    if corners == [] then [] else [solve(points, corners[0])] + SolveEach(points, corners[1..], solve)
  }

  /** The pose estimate: the marker length from the first marker, and one
      pose per marker from the same square of object points. */
  function EstimatePose<P>(corners: seq<Quad>, solve: (seq<Point3>, Quad) -> P): (seq<P>, real)
    requires |corners| > 0
  {
    var length := MarkerLength(corners);
    (SolveEach(MarkerPoints(length), corners, solve), length)
  }

  /** The poses line up with the markers: as many as there are markers, the
      i-th solved from the i-th marker's corners. */
  lemma {:induction false} SolveEachSpec<P>(points: seq<Point3>, corners: seq<Quad>, solve: (seq<Point3>, Quad) -> P)
    ensures |SolveEach(points, corners, solve)| == |corners|
    ensures forall i :: 0 <= i < |corners| ==> SolveEach(points, corners, solve)[i] == solve(points, corners[i])
  {
    if corners != [] {
      SolveEachSpec(points, corners[1..], solve);
    }
  }

  /** Every pose is solved against the square of the side the estimate
      returns. */
  lemma EstimatePoseSpec<P>(corners: seq<Quad>, solve: (seq<Point3>, Quad) -> P)
    requires |corners| > 0
    ensures var (poses, length) := EstimatePose(corners, solve);
      && length >= 0.0
      && |poses| == |corners|
      && forall i :: 0 <= i < |corners| ==> poses[i] == solve(MarkerPoints(length), corners[i])
  {
    SolveEachSpec(MarkerPoints(MarkerLength(corners)), corners, solve);
  }

  /** The layout of an image handed to the window: its size, its bytes per
      pixel and its row pitch, negative for rows stored top to bottom. */
  datatype Layout = Layout(width: nat, height: nat, channels: nat, pitch: int)

  /** The layout of an array of the given shape: rows and columns for a
      grey image, with one channel, and rows, columns and channels
      otherwise; a shape of another length fails to unpack. */
  function ImageLayout(fmt: string, shape: seq<nat>): Option<Layout>
  {
    if fmt == "GRAY" then
      if |shape| == 2 then Some(Layout(shape[1], shape[0], 1, -((1 * shape[1]) as int))) else None
    else
      if |shape| == 3 then Some(Layout(shape[1], shape[0], shape[2], -((shape[2] * shape[1]) as int))) else None
  }

  /** A grey image has one byte per pixel and a colour image as many as its
      last axis; the pitch is minus the bytes of a row, so the rows cover
      all the bytes of the array, read top to bottom. Only a shape of the
      right length gives a layout. */
  lemma ImageLayoutSpec(fmt: string, shape: seq<nat>)
    ensures ImageLayout(fmt, shape).Some? <==> |shape| == (if fmt == "GRAY" then 2 else 3)
    ensures ImageLayout(fmt, shape).Some? ==>
      var l := ImageLayout(fmt, shape).value;
      && l.height == shape[0] && l.width == shape[1]
      && l.channels == (if fmt == "GRAY" then 1 else shape[2])
      && l.pitch <= 0
      && -l.pitch * l.height == l.height * l.width * l.channels
  {
    if ImageLayout(fmt, shape).Some? {
      var l := ImageLayout(fmt, shape).value;
      assert -l.pitch == l.channels * l.width;
      assert (l.channels * l.width) * l.height == l.height * l.width * l.channels;
    }
  }
}

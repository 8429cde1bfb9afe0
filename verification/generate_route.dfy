/** Routes, timed routes and the route upsampler of generate_route.py.

    Coordinates are reals: the float rounding of the source is not modelled.
    The geodetic to ECEF conversion `lla_to_xyz` of gps_utils.py is passed in
    as the uninterpreted function `toXyz`. */
module GenerateRoute {
  import opened Common

  /** Earth-centred, earth-fixed coordinates in metres. */
  datatype Ecef = Ecef(x: real, y: real, z: real)

  /** The shape of `lla_to_xyz(latitude, longitude, altitude)`. */
  type Converter = (real, real, real) -> Ecef

  /** A `Location` whose altitude is known and whose ECEF triple has been
      attached by `add_XYZ`. */
  datatype Location = Location(latitude: real, longitude: real, altitude: real, ecef: Ecef)

  /** `Location(latitude, longitude, altitude)` followed by `add_XYZ()`. */
  function Locate(latitude: real, longitude: real, altitude: real, toXyz: Converter): Location
  {
    Location(latitude, longitude, altitude, toXyz(latitude, longitude, altitude))
  }

  /** `Route`: the points, the length and travel time of every segment
      between consecutive points, and an opaque polyline. */
  datatype Route = Route(points: seq<Location>, distances: seq<real>, durations: seq<real>, polyline: string)
  {
    /** One distance and one duration per segment. */
    predicate Valid()
    {
      |points| >= 1 && |distances| == |points| - 1 && |durations| == |points| - 1
    }
  }

  /** `TimedRoute`: a route travelled at `speed` metres per second and
      sampled `frequency` times per second. */
  datatype TimedRoute = TimedRoute(route: Route, speed: real, frequency: real)

  /** The `ZeroDivisionError`s of `upsample_route` and `write_route`, by cause. */
  datatype RouteError =
    | ZeroSpeed              // frequency/speed with speed == 0
    | EmptySegment(index: nat) // points_needed == 0 for that segment
    | ZeroFrequency          // 1/frequency with frequency == 0

  /** How many copies of the first point open an upsampled route. */
  const PrimingCopies: nat := 9

  /** `int(distance*points_per_meter) - 1`. */
  function PointsNeeded(distance: real, pointsPerMeter: real): int
  {
    Trunc(distance * pointsPerMeter) - 1
  }

  /** How many points a segment contributes: `range(n)` is empty for n < 0. */
  function Emitted(n: int): nat
  {
    if n < 0 then 0 else n
  }

  /** The j-th interpolated coordinate, computed as the source does:
      `start + delta*j` with `delta = (end - start)/n`. */
  function Lerp(start: real, end: real, n: int, j: int): real
    requires n != 0
  {
    start + (end - start) / (n as real) * (j as real)
  }

  /** The points emitted for the segment from `s` to `e` when
      `points_needed == n`. */
  function Interpolate(s: Location, e: Location, n: int, toXyz: Converter): (pts: seq<Location>)
    requires n != 0
    ensures |pts| == Emitted(n)
  {
    if n < 0 then
      []
    else
      seq(n, j requires 0 <= j < n =>
        Locate(Lerp(s.latitude, e.latitude, n, j),
               Lerp(s.longitude, e.longitude, n, j),
               Lerp(s.altitude, e.altitude, n, j), toXyz))
  }

  /** Number of points the first `i` segments contribute. */
  function NeededUpTo(r: Route, pointsPerMeter: real, i: nat): nat
    requires i <= |r.distances|
  {
    if i == 0 then 0
    else NeededUpTo(r, pointsPerMeter, i - 1) + Emitted(PointsNeeded(r.distances[i - 1], pointsPerMeter))
  }

  /** True when none of the first `i` segments has `points_needed == 0`. */
  predicate SegmentsDivisible(r: Route, pointsPerMeter: real, i: nat)
    requires i <= |r.distances|
  {
    forall k :: 0 <= k < i ==> PointsNeeded(r.distances[k], pointsPerMeter) != 0
  }

  /** The points of segments `0 .. i-1` in route order, as the loop over
      `range(len(self.distances))` appends them, or the first segment that
      divides by zero. */
  function EmitSegments(r: Route, pointsPerMeter: real, i: nat, toXyz: Converter): (res: Result<seq<Location>, RouteError>)
    requires r.Valid() && i <= |r.distances|
    ensures res.Success? <==> SegmentsDivisible(r, pointsPerMeter, i)
    ensures res.Success? ==> |res.value| == NeededUpTo(r, pointsPerMeter, i)
    ensures res.Failure? ==>
      && res.error.EmptySegment? && res.error.index < i
      && PointsNeeded(r.distances[res.error.index], pointsPerMeter) == 0
      && SegmentsDivisible(r, pointsPerMeter, res.error.index)
  {
    if i == 0 then Success([])
    else
      var prev :- EmitSegments(r, pointsPerMeter, i - 1, toXyz);
      var n := PointsNeeded(r.distances[i - 1], pointsPerMeter);
      if n == 0 then Failure(EmptySegment(i - 1))
      else Success(prev + Interpolate(r.points[i - 1], r.points[i], n, toXyz))
  }

  /** `TimedRoute.upsample_route` as written: nine copies of the first
      point, every segment's interpolated points, the last point, and a
      uniform `distances`. `durations` is left as it was, because the source
      assigns the new array to a misspelt attribute `duration`. */
  function Upsample(tr: TimedRoute, toXyz: Converter): (res: Result<TimedRoute, RouteError>)
    requires tr.route.Valid()
    ensures res.Success? <==>
      tr.speed != 0.0 && tr.frequency != 0.0
      && SegmentsDivisible(tr.route, tr.frequency / tr.speed, |tr.route.distances|)
    ensures tr.speed == 0.0 ==> res == Failure(ZeroSpeed)
    ensures res.Success? ==>
      && res.value.speed == tr.speed && res.value.frequency == tr.frequency
      && res.value.route.polyline == tr.route.polyline
      && res.value.route.durations == tr.route.durations
      && |res.value.route.points|
         == PrimingCopies + NeededUpTo(tr.route, tr.frequency / tr.speed, |tr.route.distances|) + 1
      && |res.value.route.distances| == |res.value.route.points| - 1
      && forall k :: 0 <= k < |res.value.route.distances| ==>
           res.value.route.distances[k] == tr.speed / tr.frequency
  {
    if tr.speed == 0.0 then Failure(ZeroSpeed)
    else
      var pointsPerMeter := tr.frequency / tr.speed;
      var middle :- EmitSegments(tr.route, pointsPerMeter, |tr.route.distances|, toXyz);
      if tr.frequency == 0.0 then Failure(ZeroFrequency)
      else
        var points := seq(PrimingCopies, _ => tr.route.points[0]) + middle + [tr.route.points[|tr.route.points| - 1]];
        var step := 1.0 / pointsPerMeter;
        assert step == tr.speed / tr.frequency by {
          assert pointsPerMeter * (tr.speed / tr.frequency) == 1.0;
        }
        Success(tr.(route := tr.route.(points := points, distances := seq(|points| - 1, _ => step))))
  }

  /** `upsample_route` with line 162 corrected to assign `durations`: every
      segment of the new route then lasts `1/frequency` seconds. */
  function UpsampleCorrected(tr: TimedRoute, toXyz: Converter): (res: Result<TimedRoute, RouteError>)
    requires tr.route.Valid()
    ensures res.Success? <==> Upsample(tr, toXyz).Success?
    ensures res.Success? ==>
      && res.value.route.Valid()
      && res.value.route.points == Upsample(tr, toXyz).value.route.points
      && res.value.route.distances == Upsample(tr, toXyz).value.route.distances
      && forall k :: 0 <= k < |res.value.route.durations| ==>
           res.value.route.durations[k] * tr.frequency == 1.0
  {
    match Upsample(tr, toXyz)
    case Failure(e) => Failure(e)
    case Success(u) =>
      var period := 1.0 / tr.frequency;
      Success(u.(route := u.route.(durations := seq(|u.route.points| - 1, _ => period))))
  }

  /** One row of the timed track file: seconds since start and the point. */
  datatype TimedRow = TimedRow(time: real, ecef: Ecef)

  /** The rows `Route.write_route` hands to the CSV writer. */
  method WriteRoute(r: Route) returns (rows: seq<Ecef>)
    ensures |rows| == |r.points|
    ensures forall k :: 0 <= k < |rows| ==> rows[k] == r.points[k].ecef
  {
    rows := [];
    var k := 0;
    while k < |r.points|
      invariant 0 <= k <= |r.points|
      invariant |rows| == k
      invariant forall i :: 0 <= i < k ==> rows[i] == r.points[i].ecef
    {
      rows := rows + [r.points[k].ecef];
      k := k + 1;
    }
  }

  /** The rows `TimedRoute.write_route` hands to the CSV writer: the clock
      starts at 0 and advances by `1/frequency` per row. */
  method WriteTimedRoute(tr: TimedRoute) returns (res: Result<seq<TimedRow>, RouteError>)
    ensures res.Failure? <==> tr.frequency == 0.0 && |tr.route.points| > 0
    ensures res.Failure? ==> res.error == ZeroFrequency
    ensures res.Success? ==> |res.value| == |tr.route.points|
    ensures res.Success? ==> forall k :: 0 <= k < |res.value| ==>
      res.value[k].ecef == tr.route.points[k].ecef && res.value[k].time == (k as real) * (1.0 / tr.frequency)
    ensures res.Success? && |res.value| > 0 ==> res.value[0].time == 0.0
    ensures res.Success? ==> forall k :: 0 <= k < |res.value| - 1 ==>
      res.value[k + 1].time == res.value[k].time + 1.0 / tr.frequency
  {
    if tr.frequency == 0.0 {
      // the first `time + 1/frequency` divides by zero
      return if |tr.route.points| > 0 then Failure(ZeroFrequency) else Success([]);
    }
    var rows: seq<TimedRow> := [];
    var time := 0.0;
    var k := 0;
    while k < |tr.route.points|
      invariant 0 <= k <= |tr.route.points|
      invariant |rows| == k
      invariant time == (k as real) * (1.0 / tr.frequency)
      invariant forall i :: 0 <= i < k ==>
        rows[i].ecef == tr.route.points[i].ecef && rows[i].time == (i as real) * (1.0 / tr.frequency)
    {
      rows := rows + [TimedRow(time, tr.route.points[k].ecef)];
      time := time + 1.0 / tr.frequency;
      k := k + 1;
    }
    return Success(rows);
  }
}

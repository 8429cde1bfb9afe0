/** What `upsample_route` promises about the track it builds: its length,
    its opening samples, where every segment's points land and what they
    are, its last point, and the stale `durations` it leaves behind. */
module RouteProofs {
  import opened Common
  import opened GenerateRoute

  /** Segment k's j-th point sits at offset `NeededUpTo(k) + j` of the
      segments' points: segments are emitted whole and in route order. */
  lemma {:induction false} SegmentPlacement(r: Route, pointsPerMeter: real, i: nat, toXyz: Converter, k: nat, j: nat)
    requires r.Valid() && i <= |r.distances|
    requires EmitSegments(r, pointsPerMeter, i, toXyz).Success?
    requires k < i && j < Emitted(PointsNeeded(r.distances[k], pointsPerMeter))
    ensures PointsNeeded(r.distances[k], pointsPerMeter) > 0
    ensures NeededUpTo(r, pointsPerMeter, k) + j < |EmitSegments(r, pointsPerMeter, i, toXyz).value|
    ensures EmitSegments(r, pointsPerMeter, i, toXyz).value[NeededUpTo(r, pointsPerMeter, k) + j]
         == Interpolate(r.points[k], r.points[k + 1], PointsNeeded(r.distances[k], pointsPerMeter), toXyz)[j]
  {
    var prev := EmitSegments(r, pointsPerMeter, i - 1, toXyz);
    assert prev.Success?;
    var n := PointsNeeded(r.distances[i - 1], pointsPerMeter);
    var all := EmitSegments(r, pointsPerMeter, i, toXyz).value;
    var last := Interpolate(r.points[i - 1], r.points[i], n, toXyz);
    assert all == prev.value + last;
    assert |all| == |prev.value| + Emitted(n);
    var at := NeededUpTo(r, pointsPerMeter, k) + j;
    if k < i - 1 {
      SegmentPlacement(r, pointsPerMeter, i - 1, toXyz, k, j);
      assert at < |prev.value|;
      assert all[at] == prev.value[at];
    } else {
      assert k == i - 1;
      assert |prev.value| == NeededUpTo(r, pointsPerMeter, k);
      assert at < |all|;
      assert all[at] == last[j];
    }
  }

  /** Where the parts of an upsampled track sit: the priming copies, then
      the segments' points, then the last original point. */
  lemma {:induction false} UpsampleLayout(tr: TimedRoute, toXyz: Converter)
    requires tr.route.Valid() && Upsample(tr, toXyz).Success?
    ensures tr.speed != 0.0 && tr.frequency != 0.0
    ensures EmitSegments(tr.route, tr.frequency / tr.speed, |tr.route.distances|, toXyz).Success?
    ensures
      var pts := Upsample(tr, toXyz).value.route.points;
      var middle := EmitSegments(tr.route, tr.frequency / tr.speed, |tr.route.distances|, toXyz).value;
      && |pts| == PrimingCopies + |middle| + 1
      && (forall m :: 0 <= m < PrimingCopies ==> pts[m] == tr.route.points[0])
      && (forall m :: 0 <= m < |middle| ==> pts[PrimingCopies + m] == middle[m])
      && pts[|pts| - 1] == tr.route.points[|tr.route.points| - 1]
  {
    var ppm := tr.frequency / tr.speed;
    var middle := EmitSegments(tr.route, ppm, |tr.route.distances|, toXyz).value;
    var priming := seq(PrimingCopies, _ => tr.route.points[0]);
    var pts := Upsample(tr, toXyz).value.route.points;
    assert pts == priming + middle + [tr.route.points[|tr.route.points| - 1]];
  }

  /** The segments' point counts, as the source computes them. */
  function NeededCounts(tr: TimedRoute): seq<int>
    requires tr.speed != 0.0
  {
    seq(|tr.route.distances|, i requires 0 <= i < |tr.route.distances| =>
      PointsNeeded(tr.route.distances[i], tr.frequency / tr.speed))
  }

  lemma {:induction false} NeededUpToIsSum(r: Route, pointsPerMeter: real, i: nat)
    requires i <= |r.distances|
    requires forall k :: 0 <= k < i ==> PointsNeeded(r.distances[k], pointsPerMeter) >= 1
    ensures NeededUpTo(r, pointsPerMeter, i)
         == Sum(seq(i, k requires 0 <= k < i => PointsNeeded(r.distances[k], pointsPerMeter)))
  {
    var xs := seq(i, k requires 0 <= k < i => PointsNeeded(r.distances[k], pointsPerMeter));
    if i > 0 {
      NeededUpToIsSum(r, pointsPerMeter, i - 1);
      assert xs[..i - 1] == seq(i - 1, k requires 0 <= k < i - 1 => PointsNeeded(r.distances[k], pointsPerMeter));
    }
  }

  /** When every segment needs at least one point the upsampled route has
      `9 + sum(n_i) + 1` points, with `n_i = int(d_i*frequency/speed) - 1`. */
  lemma {:induction false} UpsampleLength(tr: TimedRoute, toXyz: Converter)
    requires tr.route.Valid() && tr.speed != 0.0 && tr.frequency != 0.0
    requires forall i :: 0 <= i < |NeededCounts(tr)| ==> NeededCounts(tr)[i] >= 1
    ensures Upsample(tr, toXyz).Success?
    ensures |Upsample(tr, toXyz).value.route.points| == PrimingCopies + Sum(NeededCounts(tr)) + 1
  {
    var d := |tr.route.distances|;
    assert forall k :: 0 <= k < d ==> PointsNeeded(tr.route.distances[k], tr.frequency / tr.speed) >= 1 by {
      forall k | 0 <= k < d
        ensures PointsNeeded(tr.route.distances[k], tr.frequency / tr.speed) >= 1
      {
        assert NeededCounts(tr)[k] >= 1;
      }
    }
    NeededUpToIsSum(tr.route, tr.frequency / tr.speed, d);
    assert NeededCounts(tr) == seq(d, k requires 0 <= k < d => PointsNeeded(tr.route.distances[k], tr.frequency / tr.speed));
  }

  /** The track opens with nine copies of the original first point; when
      the first segment emits points, its `j = 0` point is a tenth sample at
      the same latitude, longitude and altitude. */
  lemma {:induction false} UpsamplePriming(tr: TimedRoute, toXyz: Converter)
    requires tr.route.Valid() && Upsample(tr, toXyz).Success?
    ensures forall k :: 0 <= k < PrimingCopies ==> Upsample(tr, toXyz).value.route.points[k] == tr.route.points[0]
    ensures |tr.route.distances| > 0 && PointsNeeded(tr.route.distances[0], tr.frequency / tr.speed) > 0 ==>
      var p := Upsample(tr, toXyz).value.route.points[PrimingCopies];
      var s := tr.route.points[0];
      p.latitude == s.latitude && p.longitude == s.longitude && p.altitude == s.altitude
  {
    var ppm := tr.frequency / tr.speed;
    var d := |tr.route.distances|;
    var middle := EmitSegments(tr.route, ppm, d, toXyz).value;
    UpsampleLayout(tr, toXyz);
    if d > 0 && PointsNeeded(tr.route.distances[0], ppm) > 0 {
      SegmentPlacement(tr.route, ppm, d, toXyz, 0, 0);
      assert Upsample(tr, toXyz).value.route.points[PrimingCopies] == middle[0];
    }
  }

  /** The j-th point of an interpolated segment is `S + (E - S)*j/n` in
      every coordinate, with its ECEF triple converted from those. */
  ghost predicate OnSegment(p: Location, s: Location, e: Location, n: int, j: int, toXyz: Converter)
    requires n != 0
  {
    && p.latitude == Fraction(s.latitude, e.latitude, n, j)
    && p.longitude == Fraction(s.longitude, e.longitude, n, j)
    && p.altitude == Fraction(s.altitude, e.altitude, n, j)
    && p.ecef == toXyz(p.latitude, p.longitude, p.altitude)
  }

  /** The value `j/n` of the way from `start` to `end`. */
  ghost function Fraction(start: real, end: real, n: int, j: int): real
    requires n != 0
  {
    start + (end - start) * (j as real) / (n as real)
  }

  lemma {:induction false} InterpolateClosedForm(s: Location, e: Location, n: int, j: nat, toXyz: Converter)
    requires 0 <= j < n
    ensures OnSegment(Interpolate(s, e, n, toXyz)[j], s, e, n, j, toXyz)
  {
    var lat := Lerp(s.latitude, e.latitude, n, j);
    var lon := Lerp(s.longitude, e.longitude, n, j);
    var alt := Lerp(s.altitude, e.altitude, n, j);
    assert Interpolate(s, e, n, toXyz)[j] == Locate(lat, lon, alt, toXyz);
    LocateOnSegment(s, e, n, j, toXyz);
  }

  lemma {:induction false} LocateOnSegment(s: Location, e: Location, n: int, j: nat, toXyz: Converter)
    requires n != 0
    ensures OnSegment(Locate(Lerp(s.latitude, e.latitude, n, j), Lerp(s.longitude, e.longitude, n, j),
                             Lerp(s.altitude, e.altitude, n, j), toXyz), s, e, n, j, toXyz)
  {
    LerpClosedForm(s.latitude, e.latitude, n, j);
    LerpClosedForm(s.longitude, e.longitude, n, j);
    LerpClosedForm(s.altitude, e.altitude, n, j);
  }

  /** Segment k, from S to E with n = points_needed > 0, emits its j-th
      point (0 <= j < n) at position `9 + NeededUpTo(k) + j`, before the
      final point, and that point is `S + (E - S)*j/n` in latitude,
      longitude and altitude. */
  lemma {:induction false} UpsampleSegmentPoint(tr: TimedRoute, toXyz: Converter, k: nat, j: nat)
    requires tr.route.Valid() && Upsample(tr, toXyz).Success?
    requires k < |tr.route.distances|
    requires j < PointsNeeded(tr.route.distances[k], tr.frequency / tr.speed)
    ensures PrimingCopies + NeededUpTo(tr.route, tr.frequency / tr.speed, k) + j < |Upsample(tr, toXyz).value.route.points| - 1
    ensures OnSegment(Upsample(tr, toXyz).value.route.points[PrimingCopies + NeededUpTo(tr.route, tr.frequency / tr.speed, k) + j],
                      tr.route.points[k], tr.route.points[k + 1],
                      PointsNeeded(tr.route.distances[k], tr.frequency / tr.speed), j, toXyz)
  {
    var ppm := tr.frequency / tr.speed;
    var d := |tr.route.distances|;
    UpsampleLayout(tr, toXyz);
    SegmentPlacement(tr.route, ppm, d, toXyz, k, j);
    var n := PointsNeeded(tr.route.distances[k], ppm);
    var middle := EmitSegments(tr.route, ppm, d, toXyz).value;
    var at := NeededUpTo(tr.route, ppm, k) + j;
    assert Upsample(tr, toXyz).value.route.points[PrimingCopies + at] == middle[at];
    InterpolateClosedForm(tr.route.points[k], tr.route.points[k + 1], n, j, toXyz);
  }

  /** The source's `start + (end - start)/n*j` is the point `j/n` of the way
      from start to end. */
  lemma {:induction false} LerpClosedForm(start: real, end: real, n: int, j: int)
    requires n != 0
    ensures Lerp(start, end, n, j) == Fraction(start, end, n, j)
  {
  }

  /** A segment never emits its own end point: for every j < n the j-th
      point differs from E in any coordinate in which S differs from E. */
  lemma {:induction false} SegmentOmitsEnd(start: real, end: real, n: int, j: nat)
    requires 0 <= j < n && start != end
    ensures Lerp(start, end, n, j) != end
  {
    LerpClosedForm(start, end, n, j);
  }

  /** The sample that follows segment k's points lies at E, the segment's
      end: it is the next segment's first point, or the route's final point
      after the last segment. */
  lemma {:induction false} UpsampleSegmentBoundary(tr: TimedRoute, toXyz: Converter, k: nat)
    requires tr.route.Valid() && Upsample(tr, toXyz).Success?
    requires k < |tr.route.distances|
    requires k + 1 == |tr.route.distances| || PointsNeeded(tr.route.distances[k + 1], tr.frequency / tr.speed) > 0
    ensures PrimingCopies + NeededUpTo(tr.route, tr.frequency / tr.speed, k + 1) < |Upsample(tr, toXyz).value.route.points|
    ensures
      var p := Upsample(tr, toXyz).value.route.points[PrimingCopies + NeededUpTo(tr.route, tr.frequency / tr.speed, k + 1)];
      var e := tr.route.points[k + 1];
      p.latitude == e.latitude && p.longitude == e.longitude && p.altitude == e.altitude
  {
    if k + 1 < |tr.route.distances| {
      FirstOfSegment(tr, toXyz, k + 1);
    } else {
      UpsampleFinalIndex(tr, toXyz);
    }
  }

  /** After the last segment's points comes the route's final point. */
  lemma {:induction false} UpsampleFinalIndex(tr: TimedRoute, toXyz: Converter)
    requires tr.route.Valid() && Upsample(tr, toXyz).Success?
    ensures
      var pts := Upsample(tr, toXyz).value.route.points;
      && PrimingCopies + NeededUpTo(tr.route, tr.frequency / tr.speed, |tr.route.distances|) == |pts| - 1
      && pts[|pts| - 1] == tr.route.points[|tr.route.distances|]
  {
    UpsampleLayout(tr, toXyz);
    var ppm := tr.frequency / tr.speed;
    var d := |tr.route.distances|;
    assert |EmitSegments(tr.route, ppm, d, toXyz).value| == NeededUpTo(tr.route, ppm, d);
  }

  /** The first point a segment emits lies at the segment's start. */
  lemma {:induction false} FirstOfSegment(tr: TimedRoute, toXyz: Converter, k: nat)
    requires tr.route.Valid() && Upsample(tr, toXyz).Success?
    requires k < |tr.route.distances| && PointsNeeded(tr.route.distances[k], tr.frequency / tr.speed) > 0
    ensures PrimingCopies + NeededUpTo(tr.route, tr.frequency / tr.speed, k) < |Upsample(tr, toXyz).value.route.points|
    ensures
      var p := Upsample(tr, toXyz).value.route.points[PrimingCopies + NeededUpTo(tr.route, tr.frequency / tr.speed, k)];
      var s := tr.route.points[k];
      p.latitude == s.latitude && p.longitude == s.longitude && p.altitude == s.altitude
  {
    var at := PrimingCopies + NeededUpTo(tr.route, tr.frequency / tr.speed, k);
    UpsampleSegmentPoint(tr, toXyz, k, 0);
    StartOfSegment(Upsample(tr, toXyz).value.route.points[at], tr.route.points[k], tr.route.points[k + 1],
                   PointsNeeded(tr.route.distances[k], tr.frequency / tr.speed), toXyz);
  }

  /** The point at `j = 0` of a segment is the segment's start. */
  lemma {:induction false} StartOfSegment(p: Location, s: Location, e: Location, n: int, toXyz: Converter)
    requires n != 0 && OnSegment(p, s, e, n, 0, toXyz)
    ensures p.latitude == s.latitude && p.longitude == s.longitude && p.altitude == s.altitude
  {
    ZeroStep(s.latitude, e.latitude, n);
    ZeroStep(s.longitude, e.longitude, n);
    ZeroStep(s.altitude, e.altitude, n);
  }

  lemma {:induction false} ZeroStep(start: real, end: real, n: int)
    requires n != 0
    ensures Fraction(start, end, n, 0) == start
  {
  }

  /** The upsampled route ends with the original last point. */
  lemma {:induction false} UpsampleLastPoint(tr: TimedRoute, toXyz: Converter)
    requires tr.route.Valid() && Upsample(tr, toXyz).Success?
    ensures
      var pts := Upsample(tr, toXyz).value.route.points;
      pts[|pts| - 1] == tr.route.points[|tr.route.points| - 1]
  {
  }

  /** A segment too short for one sample (`1 <= d*frequency/speed < 2`
      truncates to `points_needed == 0`) makes `upsample_route` divide by
      zero, and the error names the first such segment. */
  lemma {:induction false} UpsampleShortSegment(tr: TimedRoute, toXyz: Converter, k: nat)
    requires tr.route.Valid() && tr.speed != 0.0
    requires k < |tr.route.distances|
    requires 1.0 <= tr.route.distances[k] * (tr.frequency / tr.speed) < 2.0
    ensures Upsample(tr, toXyz).Failure?
    ensures Upsample(tr, toXyz).error.EmptySegment? && Upsample(tr, toXyz).error.index <= k
  {
    var x := tr.route.distances[k] * (tr.frequency / tr.speed);
    assert Trunc(x) == 1;
    assert PointsNeeded(tr.route.distances[k], tr.frequency / tr.speed) == 0;
    assert !SegmentsDivisible(tr.route, tr.frequency / tr.speed, |tr.route.distances|);
  }

  /** As written, upsampling a two-point route whose 5 m segment is walked
      at 10 m/s and sampled at 10 Hz yields 14 points, 13 distances and still
      1 duration: the route no longer has one duration per segment. */
  lemma {:induction false} UpsampleLeavesDurationsStale(toXyz: Converter)
    ensures
      var origin := Ecef(0.0, 0.0, 0.0);
      var a := Location(0.0, 0.0, 0.0, origin);
      var b := Location(1.0, 1.0, 1.0, origin);
      var tr := TimedRoute(Route([a, b], [5.0], [4.0], ""), 10.0, 10.0);
      && tr.route.Valid()
      && Upsample(tr, toXyz).Success?
      && |Upsample(tr, toXyz).value.route.points| == 14
      && |Upsample(tr, toXyz).value.route.durations| == 1
      && !Upsample(tr, toXyz).value.route.Valid()
  {
    var origin := Ecef(0.0, 0.0, 0.0);
    var a := Location(0.0, 0.0, 0.0, origin);
    var b := Location(1.0, 1.0, 1.0, origin);
    var tr := TimedRoute(Route([a, b], [5.0], [4.0], ""), 10.0, 10.0);
    assert tr.frequency / tr.speed == 1.0;
    assert Trunc(5.0 * 1.0) == 5;
    assert PointsNeeded(5.0, 1.0) == 4;
    assert NeededUpTo(tr.route, 1.0, 1) == 4;
    assert SegmentsDivisible(tr.route, 1.0, 1);
  }

  /** The same route upsampled with the corrected line 162 keeps one
      duration per segment, each `1/frequency` = 0.1 s. */
  lemma {:induction false} UpsampleCorrectedKeepsDurations(toXyz: Converter)
    ensures
      var origin := Ecef(0.0, 0.0, 0.0);
      var a := Location(0.0, 0.0, 0.0, origin);
      var b := Location(1.0, 1.0, 1.0, origin);
      var tr := TimedRoute(Route([a, b], [5.0], [4.0], ""), 10.0, 10.0);
      && UpsampleCorrected(tr, toXyz).Success?
      && |UpsampleCorrected(tr, toXyz).value.route.durations| == 13
      && UpsampleCorrected(tr, toXyz).value.route.durations[0] == 0.1
  {
    var origin := Ecef(0.0, 0.0, 0.0);
    var a := Location(0.0, 0.0, 0.0, origin);
    var b := Location(1.0, 1.0, 1.0, origin);
    var tr := TimedRoute(Route([a, b], [5.0], [4.0], ""), 10.0, 10.0);
    UpsampleLeavesDurationsStale(toXyz);
    var u := UpsampleCorrected(tr, toXyz).value;
    assert u.route.durations[0] * 10.0 == 1.0;
  }
}

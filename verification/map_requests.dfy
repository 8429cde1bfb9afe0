/** The response parsers of map_requests.py, over the already deserialised
    Directions and Elevation API responses. The HTTP client is not part of
    this model; a response is a list of typed records, so a missing
    dictionary key cannot occur. */
module MapRequests {
  import opened Common

  /** A `{"lat": …, "lng": …}` location. */
  datatype LatLng = LatLng(lat: real, lng: real)

  /** One step of a leg: where it starts and ends, and the integer
      `distance.value` (metres) and `duration.value` (seconds). */
  datatype Step = Step(startLocation: LatLng, endLocation: LatLng, distance: int, duration: int)

  datatype Leg = Leg(steps: seq<Step>)

  /** One route of a directions response: its legs and
      `overview_polyline.points`. */
  datatype DirectionsRoute = DirectionsRoute(legs: seq<Leg>, overviewPolyline: string)

  /** The tuple `parse_directions_response` returns. */
  datatype ParsedDirections = ParsedDirections(points: seq<LatLng>, distances: seq<int>, durations: seq<int>,
                                               polyline: string)

  /** The exceptions `parse_directions_response` raises: the `ValueError`
      for an empty response, and the `IndexError`s of `legs[0]` and
      `legs[0]["steps"][0]`. */
  datatype DirectionsError = NoRoutes | NoLegs | NoSteps

  /** The steps of all legs, legs and steps in order. */
  function AllSteps(legs: seq<Leg>): seq<Step>
  {
    if legs == [] then [] else AllSteps(legs[..|legs| - 1]) + legs[|legs| - 1].steps
  }

  lemma {:induction false} AllStepsSnoc(legs: seq<Leg>, i: nat)
    requires i < |legs|
    ensures AllSteps(legs[..i + 1]) == AllSteps(legs[..i]) + legs[i].steps
  {
    assert legs[..i + 1][..i] == legs[..i];
  }

  /** `parse_directions_response`: only the first route is read; its points
      are the start of the first step of the first leg followed by the end
      of every step, with one distance and one duration per step. */
  method ParseDirections(response: seq<DirectionsRoute>) returns (res: Result<ParsedDirections, DirectionsError>)
    ensures response == [] <==> res == Failure(NoRoutes)
    ensures response != [] && response[0].legs == [] ==> res == Failure(NoLegs)
    ensures response != [] && response[0].legs != [] && response[0].legs[0].steps == [] ==> res == Failure(NoSteps)
    ensures res.Success? <==> response != [] && response[0].legs != [] && response[0].legs[0].steps != []
    ensures res.Success? ==>
      var steps := AllSteps(response[0].legs);
      var d := res.value;
      && d.polyline == response[0].overviewPolyline
      && |d.points| == |steps| + 1 && |d.distances| == |steps| && |d.durations| == |steps|
      && d.points[0] == response[0].legs[0].steps[0].startLocation
      && forall k :: 0 <= k < |steps| ==>
           && d.points[k + 1] == steps[k].endLocation
           && d.distances[k] == steps[k].distance
           && d.durations[k] == steps[k].duration
  {
    if |response| == 0 {
      return Failure(NoRoutes);
    }
    var route := response[0];
    var legs := route.legs;
    if |legs| == 0 {
      return Failure(NoLegs);
    }
    if |legs[0].steps| == 0 {
      return Failure(NoSteps);
    }
    var points := [legs[0].steps[0].startLocation];
    var distances: seq<int> := [];
    var durations: seq<int> := [];
    var i := 0;
    while i < |legs|
      invariant 0 <= i <= |legs|
      invariant |points| == |distances| + 1 && |durations| == |distances|
      invariant points[0] == legs[0].steps[0].startLocation
      invariant |distances| == |AllSteps(legs[..i])|
      invariant forall k :: 0 <= k < |distances| ==>
        && points[k + 1] == AllSteps(legs[..i])[k].endLocation
        && distances[k] == AllSteps(legs[..i])[k].distance
        && durations[k] == AllSteps(legs[..i])[k].duration
    {
      ghost var before := AllSteps(legs[..i]);
      var steps := legs[i].steps;
      var j := 0;
      while j < |steps|
        invariant 0 <= j <= |steps|
        invariant |points| == |distances| + 1 && |durations| == |distances|
        invariant points[0] == legs[0].steps[0].startLocation
        invariant |distances| == |before| + j
        invariant forall k :: 0 <= k < |distances| ==>
          && points[k + 1] == (before + steps[..j])[k].endLocation
          && distances[k] == (before + steps[..j])[k].distance
          && durations[k] == (before + steps[..j])[k].duration
      {
        var step := steps[j];
        points := points + [step.endLocation];
        distances := distances + [step.distance];
        durations := durations + [step.duration];
        assert before + steps[..j + 1] == (before + steps[..j]) + [step];
        j := j + 1;
      }
      AllStepsSnoc(legs, i);
      assert steps[..j] == steps;
      i := i + 1;
    }
    assert legs[..i] == legs;
    return Success(ParsedDirections(points, distances, durations, route.overviewPolyline));
  }

  /** One result of an elevation response. */
  datatype ElevationResult = ElevationResult(elevation: real, location: LatLng, resolution: real)

  /** `parse_elevations_response`: the `elevation` of every result, in the
      order of the results. */
  method ParseElevations(results: seq<ElevationResult>) returns (elevations: seq<real>)
    ensures |elevations| == |results|
    ensures forall k :: 0 <= k < |results| ==> elevations[k] == results[k].elevation
  {
    elevations := [];
    var k := 0;
    while k < |results|
      invariant 0 <= k <= |results|
      invariant |elevations| == k
      invariant forall i :: 0 <= i < k ==> elevations[i] == results[i].elevation
    {
      elevations := elevations + [results[k].elevation];
      k := k + 1;
    }
  }
}

/** Track-point extraction of geobeam/gpx_parser.py over an already parsed
    XML tree.

    Python's `float()` on a string is the parameter `toReal`, which answers
    None where `float` raises `ValueError`. */
module GpxParser {
  import opened Common

  /** The namespace every GPX 1.1 tag carries. */
  const Prefix: string := "{http://www.topografix.com/GPX/1/1}"

  /** An ElementTree element: tag, attributes, text, children in document
      order. */
  datatype Element = Element(tag: string, attributes: map<string, string>, text: Option<string>,
                             children: seq<Element>)

  /** One extracted point. */
  datatype GpxPoint = GpxPoint(latitude: real, longitude: real, altitude: real)

  /** The exceptions `parse_gpx_trkpts` can raise: `float(None)` for a
      missing attribute or a missing `ele` text (`TypeError`), and `float`
      of a string that is not a number (`ValueError`). */
  datatype GpxError =
    | MissingAttribute(name: string)
    | MissingText
    | NotANumber(text: string)

  /** `element.find(tag)`: the first direct child with that tag. */
  function Find(e: Element, tag: string): (r: Option<Element>)
    ensures r.None? <==> forall i :: 0 <= i < |e.children| ==> e.children[i].tag != tag
    ensures r.Some? ==> exists i :: 0 <= i < |e.children| && e.children[i] == r.value
                          && r.value.tag == tag
                          && forall j :: 0 <= j < i ==> e.children[j].tag != tag
  {
    FindFrom(e.children, tag, 0)
  }

  function FindFrom(cs: seq<Element>, tag: string, i: nat): (r: Option<Element>)
    requires i <= |cs|
    ensures r.None? <==> forall k :: i <= k < |cs| ==> cs[k].tag != tag
    ensures r.Some? ==> exists k :: i <= k < |cs| && cs[k] == r.value && r.value.tag == tag
                          && forall j :: i <= j < k ==> cs[j].tag != tag
    decreases |cs| - i
  {
    if i == |cs| then None
    else if cs[i].tag == tag then Some(cs[i])
    else FindFrom(cs, tag, i + 1)
  }

  /** Concatenation of a sequence of sequences. */
  function Flatten<T>(xss: seq<seq<T>>): seq<T>
  {
    if xss == [] then [] else Flatten(xss[..|xss| - 1]) + xss[|xss| - 1]
  }

  /** `element.iter()`: the element itself, then its descendants in
      document order. */
  function Iter(e: Element): (r: seq<Element>)
    ensures |r| >= 1 && r[0] == e
  {
    [e] + Flatten(seq(|e.children|, i requires 0 <= i < |e.children| => Iter(e.children[i])))
  }

  /** The `ele` elements under a track point, itself included, in
      document order. */
  function Eles(e: Element): (r: seq<Element>)
    ensures forall k :: 0 <= k < |r| ==> r[k].tag == Prefix + "ele"
  {
    Filter(Iter(e))
  }

  function Filter(es: seq<Element>): (r: seq<Element>)
    ensures forall k :: 0 <= k < |r| ==> r[k].tag == Prefix + "ele"
    ensures |r| <= |es|
  {
    if es == [] then []
    else Filter(es[..|es| - 1]) + (if es[|es| - 1].tag == Prefix + "ele" then [es[|es| - 1]] else [])
  }

  /** `float(element.get(name))`. */
  function Attribute(e: Element, name: string, toReal: string -> Option<real>): (r: Result<real, GpxError>)
    ensures r.Success? <==> name in e.attributes && toReal(e.attributes[name]).Some?
    ensures r.Success? ==> r.value == toReal(e.attributes[name]).value
    ensures name !in e.attributes ==> r == Failure(MissingAttribute(name))
  {
    if name !in e.attributes then Failure(MissingAttribute(name))
    else match toReal(e.attributes[name])
      case None => Failure(NotANumber(e.attributes[name]))
      case Some(v) => Success(v)
  }

  /** `float(element.text)`. */
  function Number(e: Element, toReal: string -> Option<real>): (r: Result<real, GpxError>)
    ensures r.Success? <==> e.text.Some? && toReal(e.text.value).Some?
    ensures r.Success? ==> r.value == toReal(e.text.value).value
  {
    match e.text
    case None => Failure(MissingText)
    case Some(t) =>
      match toReal(t)
      case None => Failure(NotANumber(t))
      case Some(v) => Success(v)
  }

  /** Every `ele` in the list has a numeric text. */
  predicate ElesOk(eles: seq<Element>, toReal: string -> Option<real>)
  {
    forall k :: 0 <= k < |eles| ==> eles[k].text.Some? && toReal(eles[k].text.value).Some?
  }

  /** The numbers of a list of well-formed `ele` elements. */
  function EleValues(eles: seq<Element>, toReal: string -> Option<real>): (r: seq<real>)
    requires ElesOk(eles, toReal)
    ensures |r| == |eles|
  {
    seq(|eles|, k requires 0 <= k < |eles| => toReal(eles[k].text.value).value)
  }

  /** The inner `for data in trkpt.iter()` loop: the altitude starts at the
      previous one and every `ele` overwrites it. */
  function ScanEles(eles: seq<Element>, prev: real, toReal: string -> Option<real>): (r: Result<real, GpxError>)
    ensures r.Success? <==> ElesOk(eles, toReal)
    ensures r.Success? ==>
      r.value == if eles == [] then prev else EleValues(eles, toReal)[|eles| - 1]
  {
    if eles == [] then Success(prev)
    else
      var before :- ScanEles(eles[..|eles| - 1], prev, toReal);
      var v :- Number(eles[|eles| - 1], toReal);
      assert ElesOk(eles[..|eles| - 1], toReal);
      assert forall k :: 0 <= k < |eles| - 1 ==> eles[..|eles| - 1][k] == eles[k];
      Success(v)
  }

  /** The altitude a well-formed track point ends with when the loop
      reaches it holding `prev`: its last `ele` value, or `prev` if it has
      none. */
  function Altitude(e: Element, prev: real, toReal: string -> Option<real>): real
    requires ElesOk(Eles(e), toReal)
  {
    if Eles(e) == [] then prev else EleValues(Eles(e), toReal)[|Eles(e)| - 1]
  }

  /** Well-formed track point: numeric `lat` and `lon` attributes and
      numeric `ele` texts. */
  predicate PointOk(e: Element, toReal: string -> Option<real>)
  {
    && "lat" in e.attributes && toReal(e.attributes["lat"]).Some?
    && "lon" in e.attributes && toReal(e.attributes["lon"]).Some?
    && ElesOk(Eles(e), toReal)
  }

  /** One pass of the outer loop of `parse_gpx_trkpts`. */
  function ParsePoint(e: Element, prev: real, toReal: string -> Option<real>): (r: Result<GpxPoint, GpxError>)
    ensures r.Success? <==> PointOk(e, toReal)
    ensures r.Success? ==>
      && r.value.latitude == toReal(e.attributes["lat"]).value
      && r.value.longitude == toReal(e.attributes["lon"]).value
      && r.value.altitude == Altitude(e, prev, toReal)
  {
    var lat :- Attribute(e, "lat", toReal);
    var lon :- Attribute(e, "lon", toReal);
    var altitude :- ScanEles(Eles(e), prev, toReal);
    Success(GpxPoint(lat, lon, altitude))
  }

  /** The outer loop over the children of the track segment, entered with
      `prev_altitude == prev`: every child is read as a track point, and the
      altitude it ends with is the one carried into the next. */
  function ParsePoints(pts: seq<Element>, prev: real, toReal: string -> Option<real>)
    : (r: Result<seq<GpxPoint>, GpxError>)
    ensures r.Success? <==> forall k :: 0 <= k < |pts| ==> PointOk(pts[k], toReal)
    ensures r.Success? ==> |r.value| == |pts|
  {
    if pts == [] then Success([])
    else
      match ParsePoint(pts[0], prev, toReal)
      case Failure(e) => Failure(e)
      case Success(p) =>
        match ParsePoints(pts[1..], p.altitude, toReal)
        case Failure(e) => Failure(e)
        case Success(rest) =>
          assert forall k :: 1 <= k < |pts| ==> pts[k] == pts[1..][k - 1];
          Success([p] + rest)
  }

  /** One pass of the outer loop: the first point is read with the
      altitude the loop was entered with, and the rest with the first
      point's altitude. */
  lemma {:induction false} ParsePointsFirst(pts: seq<Element>, prev: real, toReal: string -> Option<real>)
    requires pts != []
    ensures
      var r := ParsePoints(pts, prev, toReal);
      r.Success? ==>
        && ParsePoint(pts[0], prev, toReal).Success?
        && r.value[0] == ParsePoint(pts[0], prev, toReal).value
        && ParsePoints(pts[1..], r.value[0].altitude, toReal).Success?
        && r.value[1..] == ParsePoints(pts[1..], r.value[0].altitude, toReal).value
  {
    var r := ParsePoints(pts, prev, toReal);
    if r.Success? {
      var p := ParsePoint(pts[0], prev, toReal);
      assert p.Success?;
      var rest := ParsePoints(pts[1..], p.value.altitude, toReal);
      assert rest.Success?;
      assert r.value == [p.value] + rest.value;
    }
  }

  /** The altitude of point k is its own last `ele` value when it has one,
      and otherwise the altitude of the point before it, or the altitude
      the loop was entered with for the first point. */
  lemma {:induction false} AltitudeCarriesForward(pts: seq<Element>, prev: real, toReal: string -> Option<real>, k: nat)
    ensures ParsePoints(pts, prev, toReal).Success? && k < |pts| ==>
      var r := ParsePoints(pts, prev, toReal).value;
      r[k].altitude == Altitude(pts[k], if k == 0 then prev else r[k - 1].altitude, toReal)
  {
    var res := ParsePoints(pts, prev, toReal);
    if res.Success? && k < |pts| {
      var r := res.value;
      ParsePointsFirst(pts, prev, toReal);
      if k > 0 {
        var rest := r[1..];
        AltitudeCarriesForward(pts[1..], r[0].altitude, toReal, k - 1);
        assert pts[1..][k - 1] == pts[k];
        assert rest[k - 1] == r[k];
        if k >= 2 {
          assert rest[k - 2] == r[k - 1];
        }
      }
    }
  }

  /** The first `trkseg` of the first `trk`, if there is one. */
  function Segment(root: Element): Option<Element>
  {
    match Find(root, Prefix + "trk")
    case None => None
    case Some(trk) => Find(trk, Prefix + "trkseg")
  }

  /** `parse_gpx_trkpts`: None when there is no `trk`, no `trkseg` in the
      first `trk`, or the first `trkseg` has no children; otherwise one
      point per child of that segment, and an error as soon as a child is
      not a well-formed point. The altitude is carried forward from
      `prev_altitude = 0`. */
  function ParseTrkpts(root: Element, toReal: string -> Option<real>): (r: Result<Option<seq<GpxPoint>>, GpxError>)
    ensures Find(root, Prefix + "trk").None? ==> r == Success(None)
    ensures (Segment(root).None? || |Segment(root).value.children| == 0) <==> r == Success(None)
    ensures Segment(root).Some? ==>
      (r.Success? <==> forall k :: 0 <= k < |Segment(root).value.children| ==>
                         PointOk(Segment(root).value.children[k], toReal))
    ensures r.Success? && r.value.Some? ==>
      var seg := Segment(root).value;
      && |r.value.value| == |seg.children|
      && forall k :: 0 <= k < |seg.children| ==>
           && PointOk(seg.children[k], toReal)
           && r.value.value[k].latitude == toReal(seg.children[k].attributes["lat"]).value
           && r.value.value[k].longitude == toReal(seg.children[k].attributes["lon"]).value
           && r.value.value[k].altitude
              == Altitude(seg.children[k], if k == 0 then 0.0 else r.value.value[k - 1].altitude, toReal)
  {
    match Segment(root)
    case None => Success(None)
    case Some(seg) =>
      if |seg.children| == 0 then Success(None)
      else
        match ParsePoints(seg.children, 0.0, toReal)
        case Failure(e) => Failure(e)
        case Success(pts) =>
          PointsFromAttributes(seg.children, 0.0, toReal);
          forall k | 0 <= k < |seg.children|
            ensures pts[k].altitude == Altitude(seg.children[k], if k == 0 then 0.0 else pts[k - 1].altitude, toReal)
          {
            AltitudeCarriesForward(seg.children, 0.0, toReal, k);
          }
          Success(Some(pts))
  }

  /** Each point's latitude and longitude are its own attributes. */
  lemma {:induction false} PointsFromAttributes(pts: seq<Element>, prev: real, toReal: string -> Option<real>)
    ensures ParsePoints(pts, prev, toReal).Success? ==>
      forall k :: 0 <= k < |pts| ==>
        && ParsePoints(pts, prev, toReal).value[k].latitude == toReal(pts[k].attributes["lat"]).value
        && ParsePoints(pts, prev, toReal).value[k].longitude == toReal(pts[k].attributes["lon"]).value
  {
    var r := ParsePoints(pts, prev, toReal);
    if pts != [] && r.Success? {
      PointsFromAttributes(pts[1..], r.value[0].altitude, toReal);
      forall k | 0 <= k < |pts|
        ensures r.value[k].latitude == toReal(pts[k].attributes["lat"]).value
        ensures r.value[k].longitude == toReal(pts[k].attributes["lon"]).value
      {
        if k > 0 {
          assert r.value[k] == r.value[1..][k - 1];
          assert pts[k] == pts[1..][k - 1];
        }
      }
    }
  }

  /** `parse_file` after `splitext`: only the exact extensions `.xml` and
      `.gpx` are parsed; anything else gives None. */
  function ParseFile(extension: string, root: Element, toReal: string -> Option<real>)
    : (r: Result<Option<seq<GpxPoint>>, GpxError>)
    ensures extension != ".xml" && extension != ".gpx" ==> r == Success(None)
    ensures extension == ".xml" || extension == ".gpx" ==> r == ParseTrkpts(root, toReal)
  {
    if extension == ".xml" || extension == ".gpx" then ParseTrkpts(root, toReal)
    else Success(None)
  }
}

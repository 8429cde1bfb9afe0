/** The altitude carry-forward of `parse_gpx_trkpts`: point by point, and
    against the `ele` values of the whole segment read so far. */
module GpxProofs {
  import opened Common
  import opened GpxParser

  /** Every track point of the list is well formed. */
  predicate AllOk(pts: seq<Element>, toReal: string -> Option<real>)
  {
    forall k :: 0 <= k < |pts| ==> PointOk(pts[k], toReal)
  }

  /** The `ele` numbers of a run of well-formed track points, in document
      order. */
  function AllEleValues(pts: seq<Element>, toReal: string -> Option<real>): seq<real>
    requires AllOk(pts, toReal)
  {
    if pts == [] then []
    else
      assert PointOk(pts[0], toReal);
      assert forall k :: 0 <= k < |pts| - 1 ==> pts[1..][k] == pts[k + 1];
      EleValues(Eles(pts[0]), toReal) + AllEleValues(pts[1..], toReal)
  }

  /** The last of a list of numbers, or `d` for none. */
  function LastOr(d: real, vs: seq<real>): real
  {
    if vs == [] then d else vs[|vs| - 1]
  }

  lemma {:induction false} LastOrAppend(d: real, xs: seq<real>, ys: seq<real>)
    ensures LastOr(d, xs + ys) == LastOr(LastOr(d, xs), ys)
  {
    if ys == [] {
      assert xs + ys == xs;
    }
  }

  /** Splitting the first point off the prefix of `k + 1` points. */
  lemma {:induction false} PrefixValues(pts: seq<Element>, toReal: string -> Option<real>, k: nat)
    requires AllOk(pts, toReal) && 0 < k < |pts|
    ensures AllOk(pts[..k + 1], toReal) && AllOk(pts[1..][..k], toReal)
    ensures AllEleValues(pts[..k + 1], toReal)
      == EleValues(Eles(pts[0]), toReal) + AllEleValues(pts[1..][..k], toReal)
  {
    assert pts[..k + 1][0] == pts[0];
    assert pts[..k + 1][1..] == pts[1..][..k];
  }

  /** The altitude of point k is the last `ele` value found in points 0
      to k, or the altitude the loop was entered with if there is none:
      the whole-segment reading of the carry-forward. */
  lemma {:induction false} AltitudeIsLastEleSoFar(pts: seq<Element>, prev: real, toReal: string -> Option<real>, k: nat)
    ensures ParsePoints(pts, prev, toReal).Success? && k < |pts| ==>
      && AllOk(pts[..k + 1], toReal)
      && ParsePoints(pts, prev, toReal).value[k].altitude == LastOr(prev, AllEleValues(pts[..k + 1], toReal))
  {
    var res := ParsePoints(pts, prev, toReal);
    if res.Success? && k < |pts| {
      var r := res.value;
      ParsePointsFirst(pts, prev, toReal);
      assert AllOk(pts, toReal);
      assert AllOk(pts[..k + 1], toReal);
      var own := EleValues(Eles(pts[0]), toReal);
      assert r[0].altitude == LastOr(prev, own);
      if k == 0 {
        assert pts[..1] == [pts[0]];
        assert AllEleValues(pts[..1], toReal) == own + AllEleValues(pts[1..1], toReal);
      } else {
        AltitudeIsLastEleSoFar(pts[1..], r[0].altitude, toReal, k - 1);
        assert r[k] == r[1..][k - 1];
        PrefixValues(pts, toReal, k);
        LastOrAppend(prev, own, AllEleValues(pts[1..][..k], toReal));
      }
    }
  }

  /** Points that carry no `ele` at all all take the altitude the loop was
      entered with: 0 for a whole segment without elevations. */
  lemma {:induction false} NoElevationsKeepsStart(pts: seq<Element>, prev: real, toReal: string -> Option<real>)
    ensures ParsePoints(pts, prev, toReal).Success? && (forall k :: 0 <= k < |pts| ==> Eles(pts[k]) == []) ==>
      forall k :: 0 <= k < |pts| ==> ParsePoints(pts, prev, toReal).value[k].altitude == prev
  {
    var res := ParsePoints(pts, prev, toReal);
    if res.Success? && pts != [] && (forall k :: 0 <= k < |pts| ==> Eles(pts[k]) == []) {
      var r := res.value;
      ParsePointsFirst(pts, prev, toReal);
      assert r[0].altitude == prev;
      NoElevationsKeepsStart(pts[1..], prev, toReal);
      assert forall k :: 0 <= k < |pts| - 1 ==> Eles(pts[1..][k]) == [] by {
        forall k | 0 <= k < |pts| - 1 ensures Eles(pts[1..][k]) == [] {
          assert pts[1..][k] == pts[k + 1];
        }
      }
      forall k | 0 <= k < |pts| ensures r[k].altitude == prev {
        if k > 0 {
          assert r[k] == r[1..][k - 1];
        }
      }
    }
  }

  /** The altitudes `parse_gpx_trkpts` returns: point k's is the last `ele`
      value among points 0 to k of the segment, or 0 if none of them has
      one. */
  lemma {:induction false} TrkptsAltitudeIsLastEleSoFar(root: Element, toReal: string -> Option<real>, k: nat)
    ensures var r := ParseTrkpts(root, toReal);
      r.Success? && r.value.Some? && k < |r.value.value| ==>
        && AllOk(Segment(root).value.children[..k + 1], toReal)
        && r.value.value[k].altitude == LastOr(0.0, AllEleValues(Segment(root).value.children[..k + 1], toReal))
  {
    var r := ParseTrkpts(root, toReal);
    if r.Success? && r.value.Some? && k < |r.value.value| {
      var seg := Segment(root).value;
      assert r.value.value == ParsePoints(seg.children, 0.0, toReal).value;
      AltitudeIsLastEleSoFar(seg.children, 0.0, toReal, k);
    }
  }
}

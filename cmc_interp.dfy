/** Blob construction for one peak (cmc/cmc.c:150-168, 173-354): the
    choice of neighbour samples, the clamp and calibration-curve lookup of
    every sample, the degenerate fallbacks and the final clamp.  The
    numerics of the linear, parabolic and cubic strategies are single
    precision float formulas; they are an opaque `Formula` here. */
module Interp {
  import opened CmcTypes
  import Scan

  /** `config.interpolation.order`. */
  datatype Strategy = Nearest | Linear | Parabolic | Cubic

  /** The float formula of a strategy: from the window's coordinates, its
      looked-up magnitudes and the sensor spacing to a raw (x, y). */
  type Formula = (Strategy, seq<real>, seq<real>, real) -> (real, real)

  /** The calibration curve has one entry per index 0 .. 0x7FF. */
  const CURVE_SIZE: nat := 0x800

  /** `(uint16_t)(y * 0x7FF)` for a clamped magnitude. */
  function CurveIndex(y: real): (i: nat)
    requires 0.0 <= y <= 1.0
    ensures i <= 0x7FF
    ensures i as real <= y * 2047.0 < i as real + 1.0
  {
    (y * 2047.0).Floor
  }

  /** A magnitude clamped into [0,1] and looked up in the curve. */
  function Lookup(curve: seq<real>, y: real): real
    requires |curve| >= CURVE_SIZE
  {
    curve[CurveIndex(Clamp01(y))]
  }

  /** Whether the neighbour on the left is taken (`tm1 >= tp1`). */
  predicate LeftHeavy(v: seq<real>, p: nat)
    requires 1 <= p && p + 1 < |v|
  {
    v[p - 1] >= v[p + 1]
  }

  /** The slots read by the cubic strategy, as written: the left-heavy
      window starts at `P - 2`. */
  function CubicSlotsAsWritten(v: seq<real>, p: nat): (r: seq<int>)
    requires 1 <= p && p + 2 < |v|
    ensures |r| == 4
  {
    if LeftHeavy(v, p) then [p - 2, p - 1, p, p + 1] else [p - 1, p, p + 1, p + 2]
  }

  /** The slots read by the cubic strategy with the left guard slot 0 used
      in place of the slot before the vector when the peak is at slot 1. */
  function CubicSlots(v: seq<real>, p: nat): (r: seq<nat>)
    requires 1 <= p && p + 2 < |v|
    ensures |r| == 4 && forall k :: 0 <= k < 4 ==> r[k] < |v|
    ensures forall k :: 0 <= k < 4 ==> CubicSlotsAsWritten(v, p)[k] >= 0 ==> r[k] == CubicSlotsAsWritten(v, p)[k]
  {
    if LeftHeavy(v, p) then [if p >= 2 then p - 2 else 0, p - 1, p, p + 1]
    else [p - 1, p, p + 1, p + 2]
  }

  /** The raw, unclamped (x, y) of a strategy at peak slot p. */
  function RawPoint(s: Strategy, f: Formula, v: seq<real>, xs: seq<real>, curve: seq<real>, d: real, p: nat): (real, real)
    requires 1 <= p && p + 2 < |v| && |xs| == |v| && |curve| >= CURVE_SIZE
  {
    match s
    case Nearest => (xs[p], Lookup(curve, v[p]))
    case Linear =>
      var side := if LeftHeavy(v, p) then p - 1 else p + 1;
      f(Linear, [xs[side], xs[p]], [Lookup(curve, v[side]), Lookup(curve, v[p])], d)
    case Parabolic =>
      var y0, y1, y2 := Lookup(curve, v[p - 1]), Lookup(curve, v[p]), Lookup(curve, v[p + 1]);
      if y0 - 2.0 * y1 + y2 == 0.0 then (xs[p], y1)
      else f(Parabolic, [xs[p]], [y0, y1, y2], d)
    case Cubic =>
      var w := CubicSlots(v, p);
      var x1 := if LeftHeavy(v, p) then xs[p - 1] else xs[p];
      var ys := [Lookup(curve, v[w[0]]), Lookup(curve, v[w[1]]), Lookup(curve, v[w[2]]), Lookup(curve, v[w[3]])];
      if CubicLead(ys) == 0.0 then (x1, ys[1])
      else f(Cubic, [x1], ys, d)
  }

  /** `A = 3 * a0` of the Catmull-Rom spline through four samples. */
  function CubicLead(ys: seq<real>): real
    requires |ys| == 4
  {
    3.0 * (-0.5 * ys[0] + 1.5 * ys[1] - 1.5 * ys[2] + 0.5 * ys[3])
  }

  /** The (x, p) of the blob built at peak slot p. */
  function Point(s: Strategy, f: Formula, v: seq<real>, xs: seq<real>, curve: seq<real>, d: real, p: nat): (r: (real, real))
    requires 1 <= p && p + 2 < |v| && |xs| == |v| && |curve| >= CURVE_SIZE
    ensures 0.0 <= r.0 <= 1.0 && 0.0 <= r.1 <= 1.0
    ensures r == (Clamp01(RawPoint(s, f, v, xs, curve, d, p).0), Clamp01(RawPoint(s, f, v, xs, curve, d, p).1))
  {
    var raw := RawPoint(s, f, v, xs, curve, d, p);
    (Clamp01(raw.0), Clamp01(raw.1))
  }

  /** The blob built for peak slot p: no session yet, no group, pole and
      above-threshold flag of the peak's sensor, state INVALID. */
  function NewBlob(s: Strategy, f: Formula, v: seq<real>, xs: seq<real>, north: seq<Pole>, above: seq<bool>,
                   curve: seq<real>, d: real, p: nat): (b: Blob)
    requires 1 <= p && p + 2 < |v| && |xs| == |v| == |north| == |above| && |curve| >= CURVE_SIZE
    ensures b.sid == -1 && b.group == None && b.state == Invalid
    ensures b.pid == (if north[p] == PoleNorth then NORTH else SOUTH)
    ensures b.aboveThresh == above[p]
    ensures 0.0 <= b.x <= 1.0 && 0.0 <= b.p <= 1.0
    ensures (b.x, b.p) == Point(s, f, v, xs, curve, d, p)
  {
    var pt := Point(s, f, v, xs, curve, d, p);
    Blob(-1, if north[p] == PoleNorth then NORTH else SOUTH, None, pt.0, pt.1, above[p], Invalid)
  }

  /** The blobs built for a peak list, one per peak in peak order. */
  function Blobs(s: Strategy, f: Formula, v: seq<real>, xs: seq<real>, north: seq<Pole>, above: seq<bool>,
                 curve: seq<real>, d: real, ps: seq<nat>): (r: seq<Blob>)
    requires |xs| == |v| == |north| == |above| && |curve| >= CURVE_SIZE
    requires forall q :: 0 <= q < |ps| ==> 1 <= ps[q] && ps[q] + 2 < |v|
    ensures |r| == |ps|
  {
    seq(|ps|, q requires 0 <= q < |ps| => NewBlob(s, f, v, xs, north, above, curve, d, ps[q]))
  }

  /** Building one more peak appends its blob. */
  lemma BlobsSnoc(s: Strategy, f: Formula, v: seq<real>, xs: seq<real>, north: seq<Pole>, above: seq<bool>,
                  curve: seq<real>, d: real, ps: seq<nat>, p: nat)
    requires |xs| == |v| == |north| == |above| && |curve| >= CURVE_SIZE && p < |ps|
    requires forall q :: 0 <= q < |ps| ==> 1 <= ps[q] && ps[q] + 2 < |v|
    ensures Blobs(s, f, v, xs, north, above, curve, d, ps[..p + 1]) ==
      Blobs(s, f, v, xs, north, above, curve, d, ps[..p]) + [NewBlob(s, f, v, xs, north, above, curve, d, ps[p])]
  {
    var r := Blobs(s, f, v, xs, north, above, curve, d, ps[..p + 1]);
    var r' := Blobs(s, f, v, xs, north, above, curve, d, ps[..p]) + [NewBlob(s, f, v, xs, north, above, curve, d, ps[p])];
    forall q | 0 <= q < p + 1 ensures r[q] == r'[q] {
      assert ps[..p + 1][q] == ps[q];
      if q < p {
        assert ps[..p][q] == ps[q];
      }
    }
  }

  /** A freshly built list is placed, ungrouped, without sessions and INVALID. */
  lemma BlobsFresh(s: Strategy, f: Formula, v: seq<real>, xs: seq<real>, north: seq<Pole>, above: seq<bool>,
                   curve: seq<real>, d: real, ps: seq<nat>)
    requires |xs| == |v| == |north| == |above| && |curve| >= CURVE_SIZE
    requires forall q :: 0 <= q < |ps| ==> 1 <= ps[q] && ps[q] + 2 < |v|
    ensures var bs := Blobs(s, f, v, xs, north, above, curve, d, ps);
      Placed(bs) && forall q :: 0 <= q < |bs| ==>
        bs[q].sid == -1 && bs[q].group == None && bs[q].state == Invalid && bs[q].aboveThresh == above[ps[q]]
  {
  }

  /** Every clamped magnitude lands on a curve index in 0 .. 0x7FF, the top
      of the range on 0x7FF itself. */
  lemma CurveIndexRange(y: real)
    ensures CurveIndex(Clamp01(y)) <= 0x7FF
    ensures y >= 1.0 ==> CurveIndex(Clamp01(y)) == 0x7FF
    ensures y <= 0.0 ==> CurveIndex(Clamp01(y)) == 0
  {
  }

  /** Nearest: the position of the peak's own sensor and its looked-up magnitude. */
  lemma NearestPoint(f: Formula, v: seq<real>, xs: seq<real>, curve: seq<real>, d: real, p: nat)
    requires 1 <= p && p + 2 < |v| && |xs| == |v| && |curve| >= CURVE_SIZE
    ensures Point(Nearest, f, v, xs, curve, d, p) == (Clamp01(xs[p]), Clamp01(curve[CurveIndex(Clamp01(v[p]))]))
  {
  }

  /** Parabolic with zero curvature falls back to the peak's position and
      its looked-up magnitude, whatever the formula. */
  lemma ParabolicFlatFallback(f: Formula, g: Formula, v: seq<real>, xs: seq<real>, curve: seq<real>, d: real, p: nat)
    requires 1 <= p && p + 2 < |v| && |xs| == |v| && |curve| >= CURVE_SIZE
    requires Lookup(curve, v[p - 1]) - 2.0 * Lookup(curve, v[p]) + Lookup(curve, v[p + 1]) == 0.0
    ensures Point(Parabolic, f, v, xs, curve, d, p) == Point(Nearest, g, v, xs, curve, d, p)
  {
  }

  /** Cubic with a zero leading coefficient takes mu = 0: the window's
      second sample, whatever the formula. */
  lemma CubicFlatFallback(f: Formula, v: seq<real>, xs: seq<real>, curve: seq<real>, d: real, p: nat)
    requires 1 <= p && p + 2 < |v| && |xs| == |v| && |curve| >= CURVE_SIZE
    requires var w := CubicSlots(v, p);
      CubicLead([Lookup(curve, v[w[0]]), Lookup(curve, v[w[1]]), Lookup(curve, v[w[2]]), Lookup(curve, v[w[3]])]) == 0.0
    ensures LeftHeavy(v, p) ==>
      Point(Cubic, f, v, xs, curve, d, p) == (Clamp01(xs[p - 1]), Clamp01(Lookup(curve, v[p - 1])))
    ensures !LeftHeavy(v, p) ==>
      Point(Cubic, f, v, xs, curve, d, p) == (Clamp01(xs[p]), Clamp01(Lookup(curve, v[p])))
  {
  }

  /** As written, the cubic strategy reads the slot before the magnitude
      vector.  Sensors 0 and 2 above threshold, sensors 1 and 3 not, sensor
      2 weaker: slot 1 is the only peak, both of its neighbours hold 0, so
      the window is left-heavy and starts at slot -1. */
  lemma CubicReadsBeforeVector()
    ensures var rela, thresh, u := [100, 0, 50, 0], [10, 10, 10, 10], [0.01, 0.01, 0.01, 0.01];
      var v := Scan.Levels(rela, thresh, u, 0.0);
      Scan.PeakList(Scan.Aoi(rela, thresh), v) == [1] &&
      CubicSlotsAsWritten(v, 1)[0] == -1 && CubicSlots(v, 1)[0] == 0
  {
    var rela, thresh, u := [100, 0, 50, 0], [10, 10, 10, 10], [0.01, 0.01, 0.01, 0.01];
    var v := Scan.Levels(rela, thresh, u, 0.0);
    assert v == [0.0, 1.0, 0.0, 0.5, 0.0, 0.0];
    assert Scan.AoiUpTo(rela, thresh, 1) == [1];
    assert Scan.AoiUpTo(rela, thresh, 2) == [1];
    assert Scan.AoiUpTo(rela, thresh, 3) == [1, 3];
    assert Scan.Aoi(rela, thresh) == [1, 3];
    assert Scan.PeaksUpTo([1, 3], v, 2) == [1];
  }
}

/** The blob tracking engine's module state and its operations
    (cmc/cmc.c): the scan buffers, the double buffer of blob lists, the
    counters and the group and engine tables, updated in place by
    `cmc_init`, `cmc_process`, `cmc_group_*` and `cmc_engines_update`.
    Each phase of `cmc_process` is a method proved against the reference
    definitions of its own module. */
module Cmc {
  import opened CmcTypes
  import opened Arith
  import Scan
  import Interp
  import Match
  import Groups
  import Pacer
  import Dispatch

  /** The calibration of the sensor array (`range`): per-sensor thresholds
      and gains and the common offset. */
  datatype Range = Range(thresh: seq<int>, u: seq<real>, w: real)

  /** The part of `config` the engine reads. */
  datatype Config = Config(order: Interp.Strategy, pacemaker: nat)

  /** The output engines in the order `cmc_engines_update` lists them. */
  const ENGINE_ORDER: seq<EngineId> := [Tuio2, Tuio1, Scsynth, Oscmidi, Dummy, Rtpmidi]

  /** The enabled engines among the first k of `ENGINE_ORDER`, in that order. */
  function EnabledUpTo(enabled: seq<bool>, k: nat): (r: seq<EngineId>)
    requires k <= |enabled| == |ENGINE_ORDER|
    ensures |r| <= k
  {
    if k == 0 then []
    else EnabledUpTo(enabled, k - 1) + (if enabled[k - 1] then [ENGINE_ORDER[k - 1]] else [])
  }

  /** Enabling is decided engine by engine: later engines only append. */
  lemma {:induction false} EnabledPrefix(enabled: seq<bool>, k: nat, k': nat)
    requires k <= k' <= |enabled| == |ENGINE_ORDER|
    ensures EnabledUpTo(enabled, k) <= EnabledUpTo(enabled, k')
    decreases k' - k
  {
    if k < k' {
      EnabledPrefix(enabled, k, k' - 1);
    }
  }

  /** The table entries of a list of engines. */
  function Listed(es: seq<EngineId>): (r: seq<Option<EngineId>>)
    ensures |r| == |es| && forall t :: 0 <= t < |es| ==> r[t] == Some(es[t])
  {
    seq(|es|, t requires 0 <= t < |es| => Some(es[t]))
  }

  /** Listing one more engine appends its entry. */
  lemma ListedSnoc(es: seq<EngineId>, e: EngineId)
    ensures Listed(es + [e]) == Listed(es) + [Some(e)]
  {
    assert forall t :: 0 <= t < |es| ==> (es + [e])[t] == es[t];
  }

  /** Where an engine stands in `ENGINE_ORDER`. */
  function Rank(e: EngineId): (r: nat)
    ensures r < |ENGINE_ORDER| && ENGINE_ORDER[r] == e
  {
    match e
    case Tuio2 => 0
    case Tuio1 => 1
    case Scsynth => 2
    case Oscmidi => 3
    case Dummy => 4
    case Rtpmidi => 5
  }

  /** The list holds exactly the enabled engines, each once, in the fixed order. */
  lemma {:induction false} EnabledInOrder(enabled: seq<bool>, k: nat)
    requires k <= |enabled| == |ENGINE_ORDER|
    ensures forall e :: e in EnabledUpTo(enabled, k) <==> Rank(e) < k && enabled[Rank(e)]
    ensures forall p, q :: 0 <= p < q < |EnabledUpTo(enabled, k)| ==>
      Rank(EnabledUpTo(enabled, k)[p]) < Rank(EnabledUpTo(enabled, k)[q])
    ensures forall q :: 0 <= q < |EnabledUpTo(enabled, k)| ==> Rank(EnabledUpTo(enabled, k)[q]) < k
  {
    if k > 0 {
      EnabledInOrder(enabled, k - 1);
      var e := ENGINE_ORDER[k - 1];
      assert Rank(e) == k - 1;
    }
  }

  /** The list, the old list and the counter after the correspondence,
      compaction and classification steps of a frame.  A frame without old
      or new blobs gives empty lists and leaves the counter. */
  function Track(ns: seq<Blob>, os: seq<Blob>, sid: nat, gs: seq<Group>): (r: Groups.Pass)
    requires Match.Tracked(os, sid) && Grouped(os, |gs|) && Placed(ns)
    requires Groups.CoversUnit(gs) && Groups.Table(gs)
    ensures Match.Tracked(r.blobs, r.sid) && r.sid >= sid
    ensures Grouped(r.blobs, |gs|) && Placed(r.blobs)
    ensures Dispatch.GoneGrouped(r.prior, |gs|) && |r.prior| == |os|
    ensures |r.blobs| <= |ns|
  {
    var rel := Match.Relate(ns, os, sid);
    var surv := Match.Survivors(rel.curr);
    TrackFacts(ns, os, sid, gs);
    Groups.ClassifyUpTo(surv, rel.prior, rel.sid, gs, |surv|)
  }

  lemma TrackFacts(ns: seq<Blob>, os: seq<Blob>, sid: nat, gs: seq<Group>)
    requires Match.Tracked(os, sid) && Grouped(os, |gs|) && Placed(ns)
    requires Groups.CoversUnit(gs) && Groups.Table(gs)
    ensures var rel := Match.Relate(ns, os, sid);
      var surv := Match.Survivors(rel.curr);
      var r := Groups.ClassifyUpTo(surv, rel.prior, rel.sid, gs, |surv|);
      Match.Tracked(r.blobs, r.sid) && r.sid >= sid &&
      Grouped(r.blobs, |gs|) && Placed(r.blobs) && Dispatch.GoneGrouped(r.prior, |gs|) && |r.prior| == |os|
  {
    var rel := Match.Relate(ns, os, sid);
    var surv := Match.Survivors(rel.curr);
    Match.RelateKeepsSessions(ns, os, sid);
    Match.RelateKeepsPlaces(ns, os, sid);
    Match.RelateKeepsGroups(ns, os, sid, |gs|);
    Match.SurvivorsTracked(rel.curr, rel.sid);
    forall k | 0 <= k < |surv| ensures 0.0 <= surv[k].x <= 1.0 && (surv[k].pid == NORTH || surv[k].pid == SOUTH) {
      Match.SurvivorsMembers(rel.curr, surv[k]);
    }
    Groups.ClassifyKeepsSessions(surv, rel.prior, rel.sid, gs, |surv|);
    Groups.ClassifyShape(surv, rel.prior, rel.sid, gs, |surv|);
    Groups.ClassifyGroupsEveryBlob(surv, rel.prior, rel.sid, gs);
    var r := Groups.ClassifyUpTo(surv, rel.prior, rel.sid, gs, |surv|);
    assert r.blobs + surv[|surv|..] == r.blobs;
  }

  /** The peak slots of a scan. */
  function Peaks(rela: seq<int>, range: Range): (r: seq<nat>)
    requires |rela| == |range.thresh| == |range.u|
    ensures forall q :: 0 <= q < |r| ==> 1 <= r[q] && r[q] + 2 < |rela| + 2
  {
    Scan.ScanPeaksInRange(rela, range.thresh, range.u, range.w);
    Scan.PeakList(Scan.Aoi(rela, range.thresh), Scan.Levels(rela, range.thresh, range.u, range.w))
  }

  /** The new blob list of a scan: one unassigned blob per peak, built
      from the levels, the poles and the above-threshold flags the scan
      leaves in the slots (n0 and a0 being the slot values before it). */
  function Detected(order: Interp.Strategy, formula: Interp.Formula, rela: seq<int>, range: Range,
                    n0: seq<Pole>, a0: seq<bool>, xs: seq<real>, d: real, curve: seq<real>): (r: seq<Blob>)
    requires |rela| == |range.thresh| == |range.u| && |n0| == |a0| == |xs| == |rela| + 2
    requires |curve| >= Interp.CURVE_SIZE
    ensures |r| == |Peaks(rela, range)| && Placed(r)
    ensures forall q :: 0 <= q < |r| ==> r[q].sid == -1 && r[q].group == None && r[q].state == Invalid
  {
    var lv := Scan.Levels(rela, range.thresh, range.u, range.w);
    var north := Scan.Poles(n0, rela, range.thresh);
    var strong := Scan.Strong(a0, rela, range.thresh);
    Interp.BlobsFresh(order, formula, lv, xs, north, strong, curve, d, Peaks(rela, range));
    Interp.Blobs(order, formula, lv, xs, north, strong, curve, d, Peaks(rela, range))
  }

  /** A frame without old or new blobs leaves the lists empty and the counter alone. */
  lemma TrackIdle(sid: nat, gs: seq<Group>)
    requires Groups.CoversUnit(gs) && Groups.Table(gs)
    ensures Track([], [], sid, gs) == Groups.Pass([], [], sid)
  {
    assert Match.Relate([], [], sid) == Match.Related([], [], sid);
    assert Match.Survivors([]) == [];
  }

  /** The position of slot i, `cmc.d * i - cmc.d_2`: the centre of sensor
      i - 1, so the guard slots lie half a spacing outside [0,1]. */
  function SensorX(d: real, i: nat): real
  {
    d * i as real - d / 2.0
  }

  /** The positions of slots 0 .. count - 1. */
  function SensorXs(d: real, count: nat): (r: seq<real>)
    ensures |r| == count && forall i :: 0 <= i < count ==> r[i] == SensorX(d, i)
  {
    seq(count, i requires 0 <= i => SensorX(d, i))
  }

  class Tracker {
    /** SENSOR_N, BLOB_MAX, GROUP_MAX and ENGINE_MAX of the build. */
    const sensorN: nat
    const blobMax: nat
    const groupMax: nat
    const engineMax: nat
    /** The sensor spacing `cmc.d`. */
    const d: real

    /** Per-slot sensor positions, magnitudes, poles and above-threshold
        flags; slot pos + 1 belongs to sensor pos, slots 0 and SENSOR_N + 1
        are guards. */
    const x: array<real>
    const v: array<real>
    const n: array<Pole>
    const a: array<bool>

    /** The areas of interest and the peaks of the current scan. */
    const aoi: array<nat>
    var nAoi: nat
    const peaks: array<nat>
    var nPeaks: nat

    const groups: array<Group>

    /** `cmc_old` and `cmc_neu`: the blob lists of the previous and the
        current frame, swapped at the end of every frame. */
    var prev: array<Blob>
    var curr: array<Blob>
    var I: nat
    var J: nat

    var fid: nat
    var sid: nat
    var idleWord: nat
    var idleBit: nat

    /** The global `engines` table and `cmc_engines_active`. */
    const table: array<Option<EngineId>>
    var active: nat

    /** The engine callbacks made so far. */
    var trace: seq<Event>

    /** The sizes of the fixed arrays, set once by `cmc_init`. */
    predicate Dims()
    {
      sensorN >= 1 && blobMax >= 1 && groupMax >= 1 &&
      x.Length == sensorN + 2 && v.Length == sensorN + 2 && n.Length == sensorN + 2 && a.Length == sensorN + 2 &&
      x != v && aoi != peaks &&
      aoi.Length == 13 * blobMax && peaks.Length == blobMax &&
      groups.Length == groupMax && table.Length == engineMax + 1
    }

    /** The sizes and bounds every phase relies on. */
    predicate Shape()
      reads this`nAoi, this`nPeaks, this`prev, this`curr, this`I, this`J, v
    {
      Dims() && prev != curr &&
      prev.Length == blobMax && curr.Length == blobMax &&
      nAoi <= aoi.Length && nPeaks <= blobMax && I <= blobMax && J <= blobMax &&
      v[0] == 0.0 && v[sensorN + 1] == 0.0
    }

    /** The filled part of the area list lies within its array and the
        guard slots of the magnitudes hold zero. */
    predicate Scanning()
      reads this`nAoi, v
    {
      Dims() && nAoi <= aoi.Length && v[0] == 0.0 && v[sensorN + 1] == 0.0
    }

    /** The filled parts of the area and peak lists lie within their arrays. */
    predicate Room()
      reads this`nAoi, this`nPeaks
    {
      aoi != peaks && nAoi <= aoi.Length && nPeaks <= peaks.Length
    }

    /** The two blob lists are distinct arrays whose filled parts lie
        within them, and the group table has its configured size. */
    predicate Lists()
      reads this`prev, this`curr, this`I, this`J
    {
      prev != curr && I <= prev.Length && J <= curr.Length && groups.Length == groupMax
    }

    /** The slot positions `cmc_init` sets and the form of the group table. */
    predicate Fixed()
      reads x, groups
    {
      x[..] == SensorXs(d, sensorN + 2) && Groups.Table(groups[..])
    }

    /** The state between two frames. */
    predicate Valid()
      reads this`nAoi, this`nPeaks, this`prev, this`curr, this`I, this`J, this`sid, this`idleWord, this`idleBit, x, v, groups, prev
    {
      Shape() && Fixed() &&
      Pacer.Bounded(Pacer.Idle(idleWord, idleBit)) &&
      Match.Tracked(prev[..I], sid) && Grouped(prev[..I], groupMax) && Placed(prev[..I])
    }

    /** `cmc_init` together with the zero initialisation of the statics. */
    constructor (sensors: nat, blobs: nat, groupCount: nat, engineCount: nat)
      requires sensors >= 1 && blobs >= 1 && groupCount >= 1
      ensures Valid() && d == 1.0 / sensors as real
      ensures sensorN == sensors && blobMax == blobs && groupMax == groupCount && engineMax == engineCount
      ensures I == 0 && J == 0 && fid == 0 && sid == 0 && idleWord == 0 && idleBit == 0
      ensures active == 0 && trace == []
      ensures groups[..] == Groups.Cleared(groupMax)
      ensures forall i :: 0 <= i < v.Length ==> v[i] == 0.0
      ensures fresh(x) && fresh(v) && fresh(n) && fresh(a) && fresh(aoi) && fresh(peaks)
      ensures fresh(groups) && fresh(prev) && fresh(curr) && fresh(table)
    {
      sensorN, blobMax, groupMax, engineMax := sensors, blobs, groupCount, engineCount;
      d := 1.0 / sensors as real;
      x := new real[sensors + 2];
      v := new real[sensors + 2];
      n := new Pole[sensors + 2];
      a := new bool[sensors + 2];
      aoi := new nat[13 * blobs];
      peaks := new nat[blobs];
      groups := new Group[groupCount];
      prev := new Blob[blobs];
      curr := new Blob[blobs];
      table := new Option<EngineId>[engineCount + 1];
      nAoi, nPeaks, I, J, fid, sid, idleWord, idleBit, active := 0, 0, 0, 0, 0, 0, 0, 0, 0;
      trace := [];
      new;
      Init();
    }

    /** The slot and group initialisation of `cmc_init` on fresh arrays. */
    method Init()
      requires Dims() && prev != curr && prev.Length == blobMax && curr.Length == blobMax
      requires nAoi == 0 && nPeaks == 0 && I == 0 && J == 0 && sid == 0 && idleWord == 0 && idleBit == 0
      modifies x, v, n, groups
      ensures Valid()
      ensures groups[..] == Groups.Cleared(groupMax)
      ensures forall i :: 0 <= i < v.Length ==> v[i] == 0.0
    {
      InitSlots();
      GroupClear();
      assert prev[..I] == [];
    }

    /** The slot loop of `cmc_init`. */
    method InitSlots()
      requires x.Length == sensorN + 2 && v.Length == sensorN + 2 && n.Length == sensorN + 2 && x != v
      modifies x, v, n
      ensures x[..] == SensorXs(d, sensorN + 2)
      ensures forall k :: 0 <= k < v.Length ==> v[k] == 0.0
    {
      var i := 0;
      while i < sensorN + 2
        invariant i <= sensorN + 2
        invariant forall k :: 0 <= k < i ==> x[k] == SensorX(d, k)
        invariant forall k :: 0 <= k < i ==> v[k] == 0.0
      {
        x[i] := SensorX(d, i);
        v[i] := 0.0;
        n[i] := PoleNorth;
        i := i + 1;
      }
      assert x[..] == SensorXs(d, sensorN + 2);
    }

    // -------------------------------------------------------------------
    // The group table

    /** `cmc_group_clear`: every row becomes (gid, BOTH, 0, 1, 1). */
    method GroupClear()
      requires groups.Length == groupMax
      modifies groups
      ensures groups[..] == Groups.Cleared(groupMax)
      ensures Groups.Table(groups[..])
    {
      var gid := 0;
      while gid < groupMax
        invariant gid <= groupMax
        invariant forall k :: 0 <= k < gid ==> groups[k] == Group(k, BOTH, 0.0, 1.0, 1.0)
      {
        groups[gid] := Group(gid, BOTH, 0.0, 1.0, 1.0);
        gid := gid + 1;
      }
    }

    /** `cmc_group_get`: the stored polarity and range of a row. */
    method GroupGet(gid: nat) returns (ok: bool, pid: bv16, x0: real, x1: real)
      requires gid < groups.Length
      ensures ok && pid == groups[gid].pid && x0 == groups[gid].x0 && x1 == groups[gid].x1
    {
      var grp := groups[gid];
      pid, x0, x1 := grp.pid, grp.x0, grp.x1;
      ok := true;
    }

    /** `cmc_group_set`: a row takes the polarity and range and the scale
        that maps the range onto [0,1]; its gid stays. */
    method GroupSet(gid: nat, pid: bv16, x0: real, x1: real) returns (ok: bool)
      requires Valid() && gid < groupMax && x0 < x1
      modifies groups
      ensures Valid() && ok
      ensures groups[..] == old(groups[..])[gid := Groups.Configured(gid, pid, x0, x1)]
    {
      var grp := groups[gid];
      groups[gid] := grp.(pid := pid, x0 := x0, x1 := x1, m := 1.0 / (x1 - x0));
      ok := true;
    }

    // -------------------------------------------------------------------
    // The engine table

    /** `cmc_engines_update`: the enabled engines, in the fixed order,
        followed by the NULL terminator. */
    method EnginesUpdate(enabled: seq<bool>)
      requires table.Length == engineMax + 1
      requires |enabled| == |ENGINE_ORDER| && |EnabledUpTo(enabled, |ENGINE_ORDER|)| <= engineMax
      modifies table, this`active
      ensures active == |EnabledUpTo(enabled, |ENGINE_ORDER|)|
      ensures table[..active] == Listed(EnabledUpTo(enabled, |ENGINE_ORDER|))
      ensures table[active] == None
      ensures forall t :: active < t < table.Length ==> table[t] == old(table[t])
    {
      active := 0;
      Enlist(enabled, 0);
      Enlist(enabled, 1);
      Enlist(enabled, 2);
      Enlist(enabled, 3);
      Enlist(enabled, 4);
      Enlist(enabled, 5);
      table[active] := None;
    }

    /** One `if (config.e.enabled) engines[cmc_engines_active++] = &e`, for
        engine k of the fixed order. */
    method Enlist(enabled: seq<bool>, k: nat)
      requires |enabled| == |ENGINE_ORDER| && k < |ENGINE_ORDER| && |EnabledUpTo(enabled, |ENGINE_ORDER|)| <= engineMax
      requires table.Length == engineMax + 1 && active == |EnabledUpTo(enabled, k)| <= engineMax
      requires table[..active] == Listed(EnabledUpTo(enabled, k))
      modifies table, this`active
      ensures active == |EnabledUpTo(enabled, k + 1)| <= engineMax
      ensures table[..active] == Listed(EnabledUpTo(enabled, k + 1))
      ensures forall t :: active <= t < table.Length ==> table[t] == old(table[t])
    {
      EnabledPrefix(enabled, k + 1, |ENGINE_ORDER|);
      ghost var listed := table[..active];
      if enabled[k] {
        ListedSnoc(EnabledUpTo(enabled, k), ENGINE_ORDER[k]);
        table[active] := Some(ENGINE_ORDER[k]);
        assert table[..active + 1] == listed + [Some(ENGINE_ORDER[k])];
        active := active + 1;
      }
    }

    // -------------------------------------------------------------------
    // The phases of a frame

    /** Area-of-interest scan: every sensor flagged by its threshold is
        listed, its pole, above-threshold flag and magnitude recorded; every
        other sensor's magnitude is zeroed. */
    method ScanAreas(rela: seq<int>, range: Range)
      requires Shape() && |rela| == sensorN && |range.thresh| == sensorN && |range.u| == sensorN
      requires |Scan.Aoi(rela, range.thresh)| <= aoi.Length
      modifies this`nAoi, aoi, v, n, a
      ensures Shape()
      ensures aoi[..nAoi] == Scan.Aoi(rela, range.thresh)
      ensures v[..] == Scan.Levels(rela, range.thresh, range.u, range.w)
      ensures n[..] == Scan.Poles(old(n[..]), rela, range.thresh)
      ensures a[..] == Scan.Strong(old(a[..]), rela, range.thresh)
    {
      ghost var n0, a0 := n[..], a[..];
      nAoi := 0;
      ScanSensors(rela, range);
      ghost var lv := Scan.Levels(rela, range.thresh, range.u, range.w);
      forall k | 0 <= k < v.Length ensures v[k] == lv[k] { }
      ghost var ns := Scan.Poles(n0, rela, range.thresh);
      forall k | 0 <= k < n.Length ensures n[k] == ns[k] { }
      ghost var st := Scan.Strong(a0, rela, range.thresh);
      forall k | 0 <= k < a.Length ensures a[k] == st[k] { }
    }

    /** The sensor loop of the scan, from an empty area list. */
    method ScanSensors(rela: seq<int>, range: Range)
      requires Scanning() && nAoi == 0 && |rela| == sensorN && |range.thresh| == sensorN && |range.u| == sensorN
      requires |Scan.Aoi(rela, range.thresh)| <= aoi.Length
      modifies this`nAoi, aoi, v, n, a
      ensures Scanning()
      ensures aoi[..nAoi] == Scan.Aoi(rela, range.thresh)
      ensures forall k :: 1 <= k <= sensorN ==> v[k] == Scan.Level(rela, range.thresh, range.u, range.w, k)
      ensures forall k :: 0 <= k < n.Length ==> n[k] == Scan.PoleAt(old(n[..]), rela, range.thresh, k)
      ensures forall k :: 0 <= k < a.Length ==> a[k] == Scan.StrongAt(old(a[..]), rela, range.thresh, k)
    {
      ghost var n0, a0 := n[..], a[..];
      var pos := 0;
      while pos < sensorN
        invariant Scanning() && pos <= sensorN
        invariant aoi[..nAoi] == Scan.AoiUpTo(rela, range.thresh, pos)
        invariant forall k :: 1 <= k <= pos ==> v[k] == Scan.Level(rela, range.thresh, range.u, range.w, k)
        invariant forall k :: 0 <= k < n.Length ==>
          n[k] == (if 1 <= k <= pos then Scan.PoleAt(n0, rela, range.thresh, k) else n0[k])
        invariant forall k :: 0 <= k < a.Length ==>
          a[k] == (if 1 <= k <= pos then Scan.StrongAt(a0, rela, range.thresh, k) else a0[k])
      {
        Scan.AoiPrefix(rela, range.thresh, pos + 1, sensorN);
        ScanSensor(rela, range, pos);
        pos := pos + 1;
      }
    }

    /** One sensor of the scan. */
    method ScanSensor(rela: seq<int>, range: Range, pos: nat)
      requires Scanning() && pos < sensorN && |rela| == sensorN && |range.thresh| == sensorN && |range.u| == sensorN
      requires Scan.Flagged(rela[pos], range.thresh[pos]) ==> nAoi < aoi.Length
      modifies this`nAoi, aoi, v, n, a
      ensures Scanning()
      ensures var flagged := Scan.Flagged(rela[pos], range.thresh[pos]);
        aoi[..nAoi] == old(aoi[..nAoi]) + (if flagged then [pos + 1] else [])
      ensures forall k :: 0 <= k < v.Length ==>
        v[k] == (if k == pos + 1 then Scan.Level(rela, range.thresh, range.u, range.w, k) else old(v[k]))
      ensures forall k :: 0 <= k < n.Length ==>
        n[k] == (if k == pos + 1 then Scan.PoleAt(old(n[..]), rela, range.thresh, k) else old(n[k]))
      ensures forall k :: 0 <= k < a.Length ==>
        a[k] == (if k == pos + 1 then Scan.StrongAt(old(a[..]), rela, range.thresh, k) else old(a[k]))
    {
      var newpos := pos + 1;
      var val := rela[pos];
      var aval := Scan.IAbs(val);
      ghost var listed := aoi[..nAoi];
      if 2 * aval > range.thresh[pos] {
        aoi[nAoi] := newpos;
        nAoi := nAoi + 1;
        assert aoi[..nAoi] == listed + [newpos];
        n[newpos] := if val < 0 then PoleNorth else PoleSouth;
        a[newpos] := aval > range.thresh[pos];
        v[newpos] := aval as real * range.u[pos] - range.w;
      } else {
        v[newpos] := 0.0;
      }
    }

    /** Peak detection: the up/down run walk over the areas of interest. */
    method DetectPeaks()
      requires Shape() && Scan.Indexes(aoi[..nAoi], v[..])
      requires |Scan.PeakList(aoi[..nAoi], v[..])| <= peaks.Length
      modifies this`nPeaks, peaks
      ensures Shape()
      ensures peaks[..nPeaks] == Scan.PeakList(aoi[..nAoi], v[..])
    {
      ghost var A, V := aoi[..nAoi], v[..];
      nPeaks := 0;
      var up := true;
      var p1 := aoi[0];
      var k := 1;
      while k < nAoi
        invariant Room() && A == aoi[..nAoi] && V == v[..]
        invariant 1 <= k && (nAoi >= 1 ==> k <= nAoi)
        invariant nAoi >= 1 ==> p1 == A[k - 1] && up == Scan.Up(A, V, k) && peaks[..nPeaks] == Scan.PeaksUpTo(A, V, k)
        invariant nAoi == 0 ==> nPeaks == 0
      {
        up, p1 := PeakStep(A, V, k, up, p1);
        k := k + 1;
      }
    }

    /** One comparison of the walk: aoi[k - 1] against aoi[k]. */
    method PeakStep(ghost A: seq<nat>, ghost V: seq<real>, k: nat, up: bool, p0: nat) returns (up': bool, p1: nat)
      requires Room() && A == aoi[..nAoi] && V == v[..] && Scan.Indexes(A, V)
      requires 1 <= k < nAoi && |Scan.PeakList(A, V)| <= peaks.Length
      requires p0 == A[k - 1] && up == Scan.Up(A, V, k) && peaks[..nPeaks] == Scan.PeaksUpTo(A, V, k)
      modifies this`nPeaks, peaks
      ensures Room()
      ensures p1 == A[k] && up' == Scan.Up(A, V, k + 1) && peaks[..nPeaks] == Scan.PeaksUpTo(A, V, k + 1)
    {
      p1 := aoi[k];
      up' := up;
      ghost var emitted := peaks[..nPeaks];
      if up {
        if v[p1] < v[p0] {
          Scan.PeaksGrow(A, V, k + 1, nAoi);
          peaks[nPeaks] := p0;
          nPeaks := nPeaks + 1;
          assert peaks[..nPeaks] == emitted + [p0];
          up' := false;
        }
      } else {
        if v[p1] > v[p0] {
          up' := true;
        }
      }
    }

    /** Blob construction: one blob per peak, in peak order, at the front
        of the current list. */
    method BuildBlobs(order: Interp.Strategy, formula: Interp.Formula, curve: seq<real>)
      requires Shape() && |curve| >= Interp.CURVE_SIZE
      requires forall q :: 0 <= q < nPeaks ==> 1 <= peaks[q] && peaks[q] + 2 < v.Length
      modifies curr, this`J
      ensures Shape() && J == nPeaks
      ensures curr[..J] == Interp.Blobs(order, formula, v[..], x[..], n[..], a[..], curve, d, peaks[..nPeaks])
    {
      ghost var ps, V, X, N, Av := peaks[..nPeaks], v[..], x[..], n[..], a[..];
      J := 0;
      var p := 0;
      while p < nPeaks
        invariant p <= nPeaks && J == p
        invariant V == v[..] && X == x[..] && N == n[..] && Av == a[..]
        invariant curr[..J] == Interp.Blobs(order, formula, V, X, N, Av, curve, d, ps[..J])
      {
        BuildBlob(order, formula, curve, ps);
        p := p + 1;
      }
      assert ps[..p] == ps;
    }

    /** The blob of the next peak, appended to the current list (cmc/cmc.c:150-168). */
    method BuildBlob(order: Interp.Strategy, formula: Interp.Formula, curve: seq<real>, ghost ps: seq<nat>)
      requires Shape() && |curve| >= Interp.CURVE_SIZE && J < nPeaks && ps == peaks[..nPeaks]
      requires forall q :: 0 <= q < nPeaks ==> 1 <= peaks[q] && peaks[q] + 2 < v.Length
      requires curr[..J] == Interp.Blobs(order, formula, v[..], x[..], n[..], a[..], curve, d, ps[..J])
      modifies curr, this`J
      ensures J == old(J) + 1
      ensures curr[..J] == Interp.Blobs(order, formula, v[..], x[..], n[..], a[..], curve, d, ps[..J])
    {
      var P := peaks[J];
      var pt := Interp.Point(order, formula, v[..], x[..], curve, d, P);
      ghost var built := curr[..J];
      curr[J] := Blob(-1, if n[P] == PoleNorth then NORTH else SOUTH, None, pt.0, pt.1, a[P], Invalid);
      assert curr[J] == Interp.NewBlob(order, formula, v[..], x[..], n[..], a[..], curve, d, ps[J]);
      assert curr[..J + 1] == built + [curr[J]];
      Interp.BlobsSnoc(order, formula, v[..], x[..], n[..], a[..], curve, d, ps, J);
      J := J + 1;
    }

    /** J == I: current blob j takes over the session and group of old
        blob j (cmc/cmc.c:420-428). */
    method RelateEqual()
      requires Shape() && J == I
      modifies curr
      ensures Shape()
      ensures Match.Related(curr[..J], prev[..I], sid) == Match.Relate(old(curr[..J]), prev[..I], sid)
    {
      ghost var os, ns := prev[..I], curr[..J];
      ghost var m := Match.Identity(J);
      var j := 0;
      while j < J
        invariant j <= J && Shape() && prev[..I] == os
        invariant Match.NewWalked(ns, os, m, j, curr[..J])
      {
        ghost var before := curr[..J];
        Match.NewWalkedStep(ns, os, m, j, before);
        assert before[j] == ns[j] && os[j] == prev[j];
        curr[j] := Match.Inherit(curr[j], prev[j]);
        assert curr[..J] == before[j := Match.Inherit(ns[j], os[m[j]])];
        j := j + 1;
      }
      Match.EqualCase(ns, os, sid);
      Match.NewWalkedDone(ns, os, m, curr[..J]);
    }

    /** The state of the J < I walk at old cursor i and current cursor j,
        `less` drops still to find: os and ns are the lists it started from
        and m the reference match (`Match.ShrinkMatch`). */
    ghost predicate Shrinking(os: seq<Blob>, ns: seq<Blob>, m: seq<nat>, i: nat, j: nat, less: nat)
      reads this`nAoi, this`nPeaks, this`prev, this`curr, this`I, this`J, this`sid, v, prev, curr
    {
      Shape() && J < I && |os| == I && |ns| == J &&
      m == Match.ShrinkMatch(Xs(os), Xs(ns)) && |m| == J &&
      j <= J && i + J + less == j + I &&
      m[j..] == Match.ShrinkFrom(Xs(os), Xs(ns), i, j, less) &&
      (forall q :: 0 <= q < j ==> m[q] < i) &&
      Match.OldWalked(os, m, i, prev[..I]) && Match.NewWalked(ns, os, m, j, curr[..J])
    }

    /** J < I: the walk that drops the old blobs that have disappeared and
        hands every current blob the session and group of its old blob. */
    method RelateShrink()
      requires Shape() && J < I
      modifies prev, curr
      ensures Shape()
      ensures Match.Related(curr[..J], prev[..I], sid) == Match.Relate(old(curr[..J]), old(prev[..I]), sid)
    {
      ghost var os, ns := prev[..I], curr[..J];
      ghost var m := Match.ShrinkMatch(Xs(os), Xs(ns));
      var nLess: nat := I - J;
      var i: nat, j: nat := 0, 0;
      Match.ShrinkShape(Xs(os), Xs(ns), 0, 0, nLess);
      while j < J
        invariant Shrinking(os, ns, m, i, j, nLess)
        decreases J - j + nLess
      {
        i, j, nLess := ShrinkStep(os, ns, m, i, j, nLess);
      }
      DropTail(os, ns, m, i);
      Match.ShrinkCase(ns, os, sid);
      Match.ShrunkParts(ns, os, m, prev[..I], curr[..J]);
    }

    /** The tail of the J < I walk: old blobs i.. had no current blob left,
        and those before t are already marked DISAPPEARED. */
    ghost predicate Dropping(os: seq<Blob>, ns: seq<Blob>, m: seq<nat>, i: nat, t: nat)
      reads this`nAoi, this`nPeaks, this`prev, this`curr, this`I, this`J, this`sid, v, prev, curr
    {
      Shape() && J < I && |os| == I && |ns| == J && |m| == J && i <= t <= I &&
      (forall q :: 0 <= q < J ==> m[q] < i) &&
      Match.OldWalked(os, m, t, prev[..I]) && Match.NewWalked(ns, os, m, J, curr[..J])
    }

    /** The loop marking the unmatched last old blobs DISAPPEARED (cmc/cmc.c:408-418). */
    method DropTail(ghost os: seq<Blob>, ghost ns: seq<Blob>, ghost m: seq<nat>, i: nat)
      requires i <= I && Shrinking(os, ns, m, i, J, I - i)
      modifies prev
      ensures Dropping(os, ns, m, i, I)
      ensures curr[..J] == old(curr[..J])
    {
      var t := i;
      while t < I
        invariant Dropping(os, ns, m, i, t)
      {
        assert t !in m;
        ghost var before := prev[..I];
        Match.OldWalkedStep(os, m, t, before);
        prev[t] := prev[t].(state := Disappeared);
        assert prev[..I] == before[t := os[t].(state := Disappeared)];
        t := t + 1;
      }
    }

    /** One turn of the J < I walk (cmc/cmc.c:375-404): the old blob at the
        cursor is dropped when the current blob is strictly closer to the
        next old one and drops are left, else the two are related. */
    method ShrinkStep(ghost os: seq<Blob>, ghost ns: seq<Blob>, ghost m: seq<nat>, i: nat, j: nat, less: nat)
      returns (i': nat, j': nat, less': nat)
      requires Shrinking(os, ns, m, i, j, less) && j < J
      modifies prev, curr
      ensures Shrinking(os, ns, m, i', j', less')
      ensures J - j' + less' < J - j + less
    {
      assert curr[..J][j] == ns[j] && prev[..I][i] == os[i];
      assert less > 0 ==> prev[..I][i + 1] == os[i + 1];
      if less > 0 && Match.Dist(curr[j].x, prev[i + 1].x) < Match.Dist(curr[j].x, prev[i].x) {
        ShrinkDrop(os, ns, m, i, j, less);
        i', j', less' := i + 1, j, less - 1;
      } else {
        ShrinkKeep(os, ns, m, i, j, less);
        i', j', less' := i + 1, j + 1, less;
      }
    }

    /** Old blob i has disappeared. */
    method ShrinkDrop(ghost os: seq<Blob>, ghost ns: seq<Blob>, ghost m: seq<nat>, i: nat, j: nat, less: nat)
      requires Shrinking(os, ns, m, i, j, less) && j < J && less > 0
      requires Match.Dist(ns[j].x, os[i + 1].x) < Match.Dist(ns[j].x, os[i].x)
      modifies prev
      ensures Shrinking(os, ns, m, i + 1, j, less - 1)
    {
      ghost var ox, nx := Xs(os), Xs(ns);
      assert m[j..] == Match.ShrinkFrom(ox, nx, i + 1, j, less - 1);
      Match.ShrinkShape(ox, nx, i + 1, j, less - 1);
      assert i !in m by {
        forall q | 0 <= q < |m| ensures m[q] != i {
          if q >= j {
            assert m[q] == m[j..][q - j];
          }
        }
      }
      Match.OldWalkedStep(os, m, i, prev[..I]);
      prev[i] := prev[i].(state := Disappeared);
      assert prev[..I] == old(prev[..I])[i := os[i].(state := Disappeared)];
    }

    /** Current blob j takes over old blob i. */
    method ShrinkKeep(ghost os: seq<Blob>, ghost ns: seq<Blob>, ghost m: seq<nat>, i: nat, j: nat, less: nat)
      requires Shrinking(os, ns, m, i, j, less) && j < J
      requires !(less > 0 && Match.Dist(ns[j].x, os[i + 1].x) < Match.Dist(ns[j].x, os[i].x))
      modifies curr
      ensures Shrinking(os, ns, m, i + 1, j + 1, less)
    {
      ghost var ox, nx := Xs(os), Xs(ns);
      assert m[j..] == [i] + Match.ShrinkFrom(ox, nx, i + 1, j + 1, less);
      assert m[j] == i && m[j + 1..] == Match.ShrinkFrom(ox, nx, i + 1, j + 1, less);
      assert i in m;
      Match.OldWalkedStep(os, m, i, prev[..I]);
      Match.NewWalkedStep(ns, os, m, j, curr[..J]);
      assert curr[..J][j] == ns[j] && prev[..I][i] == os[i];
      curr[j] := Match.Inherit(curr[j], prev[i]);
      assert curr[..J] == old(curr[..J])[j := Match.Inherit(ns[j], os[m[j]])];
    }

    /** The state of the J > I walk at old cursor i and current cursor j,
        `more` appearances still to find: os and ns are the lists it started
        from, f the reference fates (`Match.GrowMatch`) and sid0 the session
        counter it started from. */
    ghost predicate Growing(os: seq<Blob>, ns: seq<Blob>, f: seq<Option<nat>>, sid0: nat, i: nat, j: nat, more: nat)
      reads this`prev, this`curr, this`I, this`J, this`sid, prev, curr
    {
      prev.Length == blobMax && curr.Length == blobMax && prev != curr && I < J <= blobMax &&
      |os| == I && |ns| == J && |f| == J &&
      (forall q :: 0 <= q < J && f[q].Some? ==> f[q].value < I) &&
      i <= I && j + more + I == i + J &&
      f[j..] == Match.GrowFrom(Xs(os), Xs(ns), i, j, more) &&
      prev[..I] == os && sid == sid0 + Match.FreshBefore(f, ns, j) &&
      Match.GrewTo(ns, os, f, sid0, j, curr[..J])
    }

    /** J > I: the walk that finds the new blobs, hands each a fresh session
        id or ignores it, and relates the others 1:1 (cmc/cmc.c:431-474). */
    method RelateGrow()
      requires Shape() && I < J
      modifies curr, this`sid
      ensures Shape()
      ensures Match.Related(curr[..J], prev[..I], sid) == Match.Relate(old(curr[..J]), prev[..I], old(sid))
    {
      ghost var os, ns, sid0 := prev[..I], curr[..J], sid;
      ghost var f := Match.GrowMatch(Xs(os), Xs(ns));
      Match.GrowCase(ns, os, sid);
      Match.GrowShape(Xs(os), Xs(ns), 0, 0, J - I);
      assert f[0..] == f;
      assert Match.GrewTo(ns, os, f, sid0, 0, curr[..J]);
      GrowWalk(os, ns, f, sid0);
      Match.GrewDone(ns, os, f, sid0, curr[..J]);
      assert Match.Relate(ns, os, sid0) == Match.Related(curr[..J], prev[..I], sid);
    }

    /** The J > I walk from the first blobs to the last. */
    method GrowWalk(ghost os: seq<Blob>, ghost ns: seq<Blob>, ghost f: seq<Option<nat>>, ghost sid0: nat)
      requires I < J && Growing(os, ns, f, sid0, 0, 0, J - I)
      modifies curr, this`sid
      ensures Growing(os, ns, f, sid0, I, J, 0)
    {
      var more: nat := J - I;
      var i: nat, j: nat := 0, 0;
      while i < I
        invariant Growing(os, ns, f, sid0, i, j, more)
        decreases I - i + more
      {
        i, j, more := GrowStep(os, ns, f, sid0, i, j, more);
      }
      GrowTail(os, ns, f, sid0, j);
    }

    /** The tail of the J > I walk: the current blobs j.. had no old blob
        left, so each is new (cmc/cmc.c:461-472). */
    method GrowTail(ghost os: seq<Blob>, ghost ns: seq<Blob>, ghost f: seq<Option<nat>>, ghost sid0: nat, j0: nat)
      requires j0 <= J && Growing(os, ns, f, sid0, I, j0, J - j0)
      modifies curr, this`sid
      ensures Growing(os, ns, f, sid0, I, J, 0)
    {
      var j := j0;
      while j < J
        invariant j <= J && Growing(os, ns, f, sid0, I, j, J - j)
      {
        GrowLast(os, ns, f, sid0, j);
        j := j + 1;
      }
    }

    /** One turn of the tail: current blob j is new. */
    method GrowLast(ghost os: seq<Blob>, ghost ns: seq<Blob>, ghost f: seq<Option<nat>>, ghost sid0: nat, j: nat)
      requires j < J && Growing(os, ns, f, sid0, I, j, J - j)
      modifies curr, this`sid
      ensures Growing(os, ns, f, sid0, I, j + 1, J - j - 1)
    {
      Match.GrowTailAt(Xs(os), Xs(ns), f, j, J - j);
      GrowNew(os, ns, f, sid0, I, j, J - j);
    }

    /** One turn of the J > I walk: the current blob at the cursor is new
        when the next one is strictly closer to the old blob at the cursor
        and appearances are left, else the two are related. */
    method GrowStep(ghost os: seq<Blob>, ghost ns: seq<Blob>, ghost f: seq<Option<nat>>, ghost sid0: nat,
                    i: nat, j: nat, more: nat) returns (i': nat, j': nat, more': nat)
      requires Growing(os, ns, f, sid0, i, j, more) && i < I
      modifies curr, this`sid
      ensures Growing(os, ns, f, sid0, i', j', more')
      ensures I - i' + more' < I - i + more
    {
      assert j < J && curr[..J][j] == ns[j] && prev[..I][i] == os[i];
      assert more > 0 ==> curr[..J][j + 1] == ns[j + 1];
      if more > 0 && Match.Dist(curr[j + 1].x, prev[i].x) < Match.Dist(curr[j].x, prev[i].x) {
        Match.GrowNewAt(Xs(os), Xs(ns), f, i, j, more);
        GrowNew(os, ns, f, sid0, i, j, more);
        i', j', more' := i, j + 1, more - 1;
      } else {
        GrowKeep(os, ns, f, sid0, i, j, more);
        i', j', more' := i + 1, j + 1, more;
      }
    }

    /** Current blob j is new (cmc/cmc.c:443-456 and 461-472). */
    method GrowNew(ghost os: seq<Blob>, ghost ns: seq<Blob>, ghost f: seq<Option<nat>>, ghost sid0: nat,
                   i: nat, j: nat, more: nat)
      requires Growing(os, ns, f, sid0, i, j, more) && more > 0 && j < J
      requires f[j] == None && f[j + 1..] == Match.GrowFrom(Xs(os), Xs(ns), i, j + 1, more - 1)
      modifies curr, this`sid
      ensures Growing(os, ns, f, sid0, i, j + 1, more - 1)
    {
      ghost var before := curr[..J];
      Match.GrewStep(ns, os, f, sid0, j, before);
      assert before[j] == ns[j];
      ghost var fate := Match.Appear(ns[j], sid + 1);
      assert sid0 + Match.FreshBefore(f, ns, j) + 1 == sid + 1;
      Match.FateOfNew(ns[j], os, f[j], sid + 1);
      if curr[j].aboveThresh {
        sid := sid + 1;
        curr[j] := curr[j].(sid := sid, group := None, state := Appeared);
      } else {
        curr[j] := curr[j].(state := Ignored);
      }
      assert curr[j] == fate;
      assert curr[..J] == before[j := fate];
    }

    /** Current blob j takes over old blob i (cmc/cmc.c:457-464). */
    method GrowKeep(ghost os: seq<Blob>, ghost ns: seq<Blob>, ghost f: seq<Option<nat>>, ghost sid0: nat,
                    i: nat, j: nat, more: nat)
      requires Growing(os, ns, f, sid0, i, j, more) && i < I
      requires !(more > 0 && Match.Dist(ns[j + 1].x, os[i].x) < Match.Dist(ns[j].x, os[i].x))
      modifies curr
      ensures Growing(os, ns, f, sid0, i + 1, j + 1, more)
    {
      Match.GrowKeepAt(Xs(os), Xs(ns), f, i, j, more);
      ghost var before := curr[..J];
      Match.GrewStep(ns, os, f, sid0, j, before);
      assert before[j] == ns[j] && prev[..I][i] == os[i];
      ghost var fate := Match.Fate(ns[j], os, f[j], sid0 + Match.FreshBefore(f, ns, j) + 1);
      assert fate == Match.Inherit(ns[j], os[i]);
      curr[j] := Match.Inherit(curr[j], prev[i]);
      assert curr[j] == fate;
      assert curr[..J] == before[j := fate];
    }

    /** Compaction (cmc/cmc.c:479-491): IGNORED blobs are overwritten by
        moving every later blob down, keeping their order. */
    method Compact()
      requires Shape()
      modifies curr, this`J
      ensures Shape()
      ensures curr[..J] == Match.Survivors(old(curr[..J]))
    {
      ghost var cs := curr[..J];
      var newJ: nat := 0;
      var j: nat := 0;
      while j < J
        modifies curr
        invariant newJ <= j <= J
        invariant curr[..newJ] == Match.Survivors(cs[..j])
        invariant curr[j..J] == cs[j..]
      {
        newJ := CompactStep(cs, j, newJ);
        j := j + 1;
      }
      assert cs[..J] == cs;
      J := newJ;
    }

    /** One turn of the compaction: blob j moves down to slot newJ, which
        it keeps unless it is IGNORED. */
    method CompactStep(ghost cs: seq<Blob>, j: nat, newJ: nat) returns (newJ': nat)
      requires Lists() && newJ <= j < J && |cs| == J
      requires curr[..newJ] == Match.Survivors(cs[..j]) && curr[j..J] == cs[j..]
      modifies curr
      ensures newJ' <= j + 1
      ensures curr[..newJ'] == Match.Survivors(cs[..j + 1]) && curr[j + 1..J] == cs[j + 1..]
    {
      var ignore := curr[j].state == Ignored;
      assert curr[j] == cs[j] by {
        assert curr[j..J][0] == cs[j..][0];
      }
      ghost var kept := curr[..newJ];
      if newJ != j {
        curr[newJ] := curr[j];
      }
      assert curr[j + 1..J] == cs[j + 1..] by {
        forall k | j + 1 <= k < J ensures curr[k] == cs[k] {
          assert old(curr[..J])[j..][k - j] == cs[k];
        }
      }
      newJ' := newJ;
      if !ignore {
        assert curr[..newJ + 1] == kept + [cs[j]];
        newJ' := newJ + 1;
      } else {
        assert curr[..newJ] == kept;
      }
      assert cs[..j + 1] == cs[..j] + [cs[j]];
    }

    /** The search for the first group accepting a blob (the inner loop of
        cmc/cmc.c:500-528 up to its `break`). */
    method FindGroup(pid: bv16, x: real) returns (g: Option<nat>)
      requires groups.Length == groupMax
      ensures g == Groups.FirstGroup(groups[..], pid, x)
    {
      ghost var gs := groups[..];
      var gid := 0;
      while gid < groupMax
        invariant gid <= groupMax
        invariant Groups.FirstFrom(gs, pid, x, gid) == Groups.FirstGroup(gs, pid, x)
      {
        var ptr := groups[gid];
        assert ptr == gs[gid];
        if Groups.Accepts(ptr, pid, x) {
          return Some(gid);
        }
        gid := gid + 1;
      }
      return None;
    }

    /** Ending an old session (cmc/cmc.c:507-513): the first old blob that
        carries it is marked DISAPPEARED. */
    method EndSession(s: int)
      requires I <= prev.Length
      modifies prev
      ensures prev[..I] == Groups.EndSession(old(prev[..I]), s)
    {
      ghost var os := prev[..I];
      var i := 0;
      while i < I
        invariant i <= I && prev[..I] == os
        invariant Groups.FirstSid(os, s, i) == Groups.FirstSid(os, s, 0)
      {
        if prev[i].sid == s {
          prev[i] := prev[i].(state := Disappeared);
          assert prev[..I] == os[i := os[i].(state := Disappeared)];
          return;
        }
        i := i + 1;
      }
    }

    /** Classifying one current blob (cmc/cmc.c:498-528). */
    method ClassifyStep(j: nat)
      requires Lists() && j < J
      modifies curr, prev, this`sid
      ensures Groups.Step(curr[j], prev[..I], sid) == Groups.ClassifyBlob(old(curr[j]), old(prev[..I]), old(sid), groups[..])
      ensures forall k :: 0 <= k < curr.Length && k != j ==> curr[k] == old(curr[k])
    {
      var tar := curr[j];
      ghost var st := Groups.ClassifyBlob(tar, prev[..I], sid, groups[..]);
      var g := FindGroup(tar.pid, tar.x);
      if g.Some? {
        var ptr := groups[g.value];
        ghost var renews := Groups.Renews(tar, g.value);
        ghost var b0 := tar;
        assert st.prior == (if renews then Groups.EndSession(prev[..I], tar.sid) else prev[..I]);
        assert st.sid == (if renews then sid + 1 else sid);
        if tar.group.Some? && tar.group.value != g.value {
          EndSession(tar.sid);
          sid := sid + 1;
          tar := tar.(sid := sid, state := Appeared);
        }
        assert prev[..I] == st.prior && sid == st.sid;
        assert tar.x == b0.x;
        tar := tar.(group := g);
        if ptr.x0 != 0.0 || ptr.m != 1.0 {
          assert Groups.Rescale(ptr, b0.x) == (b0.x - ptr.x0) * ptr.m;
          tar := tar.(x := (tar.x - ptr.x0) * ptr.m);
        }
        assert tar == st.blob;
        curr[j] := tar;
      }
    }

    /** The classification pass over the compacted current blobs. */
    method Classify()
      requires Shape()
      modifies curr, prev, this`sid
      ensures Shape()
      ensures Groups.Pass(curr[..J], prev[..I], sid) == Groups.ClassifyUpTo(old(curr[..J]), old(prev[..I]), old(sid), groups[..], J)
    {
      ghost var cs, os, sid0 := curr[..J], prev[..I], sid;
      var j := 0;
      while j < J
        invariant j <= J
        invariant Groups.ClassifyUpTo(cs, os, sid0, groups[..], j) == Groups.Pass(curr[..j], prev[..I], sid)
        invariant curr[j..J] == cs[j..]
      {
        ghost var done := curr[..j];
        assert curr[j] == cs[j] by {
          assert curr[j..J][0] == cs[j..][0];
        }
        ClassifyStep(j);
        assert curr[..j + 1] == done + [curr[j]];
        assert curr[j + 1..J] == cs[j + 1..] by {
          forall k | j + 1 <= k < J ensures curr[k] == cs[k] {
            assert old(curr[..J])[j..][k - j] == cs[k];
          }
        }
        j := j + 1;
      }
    }

    /** The (not)advance step of the idle counters (cmc/cmc.c:537-553). */
    method AdvanceIdle(pacemaker: nat) returns (idle: bool)
      modifies this`idleWord, this`idleBit
      ensures (Pacer.Idle(idleWord, idleBit), idle) == Pacer.Advance(Pacer.Idle(old(idleWord), old(idleBit)), pacemaker)
    {
      if idleBit < pacemaker {
        idle := idleWord == Pow2(idleBit);
        if idle {
          idleBit := idleBit + 1;
        }
      } else {
        idle := idleWord == Pow2(idleBit);
        if idle {
          idleWord := 0;
        }
      }
    }

    /** The engine loop of a dispatching frame (cmc/cmc.c:561-600): the
        engines are visited up to the first empty slot or the limit. */
    method DispatchAll(engines: seq<Option<Engine>>, now: nat, offset: nat)
      requires Lists() && engineMax <= |engines|
      requires Grouped(curr[..J], groupMax) && Dispatch.GoneGrouped(prev[..I], groupMax)
      modifies this`trace
      ensures trace == old(trace) + Dispatch.FrameEvents(engines, engineMax, fid, now, offset, prev[..I], curr[..J], groups[..])
    {
      ghost var stop := Dispatch.Engaged(engines, engineMax, 0);
      Dispatch.EngagedStops(engines, engineMax, 0);
      ghost var t0, os, cs, gs := trace, prev[..I], curr[..J], groups[..];
      var e := 0;
      while e < engineMax && engines[e].Some?
        invariant e <= stop
        invariant trace == t0 + Dispatch.EventsUpTo(engines, e, fid, now, offset, os, cs, gs)
      {
        Dispatch.EventsUpToStep(engines, e, fid, now, offset, os, cs, gs);
        ghost var done := Dispatch.EventsUpTo(engines, e, fid, now, offset, os, cs, gs);
        EngineCallbacks(engines[e].value, now, offset);
        ghost var mine := Dispatch.EngineEvents(engines[e].value, fid, now, offset, os, cs, gs);
        Dispatch.AppendParts(t0, done, mine);
        e := e + 1;
      }
    }

    /** Everything one engine receives in a frame (cmc/cmc.c:569-599). */
    method EngineCallbacks(engine: Engine, now: nat, offset: nat)
      requires Lists() && Grouped(curr[..J], groupMax) && Dispatch.GoneGrouped(prev[..I], groupMax)
      modifies this`trace
      ensures trace == old(trace) + Dispatch.EngineEvents(engine, fid, now, offset, prev[..I], curr[..J], groups[..])
    {
      ghost var os, cs, gs := prev[..I], curr[..J], groups[..];
      ghost var frame := if engine.frameCb then [FrameEv(engine.id, fid, now, offset, I, J)] else [];
      ghost var blobs := Dispatch.BlobEvents(engine, cs, gs);
      ghost var offs := Dispatch.OffEvents(engine, os, gs);
      if engine.frameCb {
        trace := trace + [FrameEv(engine.id, fid, now, offset, I, J)];
      }
      assert trace == old(trace) + frame;
      if engine.onCb || engine.setCb {
        BlobCallbacks(engine);
      } else {
        Dispatch.BlobEventsSkipped(engine, cs, gs);
      }
      assert trace == old(trace) + frame + blobs;
      if engine.offCb {
        OffCallbacks(engine);
      } else {
        Dispatch.OffEventsSkipped(engine, os, gs);
      }
      assert trace == old(trace) + frame + blobs + offs;
      assert prev[..I] == os && curr[..J] == cs && groups[..] == gs;
      assert Dispatch.EngineEvents(engine, fid, now, offset, os, cs, gs) == frame + blobs + offs;
      Dispatch.AppendParts(old(trace), frame, blobs);
      Dispatch.AppendParts(old(trace), frame + blobs, offs);
    }

    /** The on and set callbacks of one engine, current blob by current blob. */
    method BlobCallbacks(engine: Engine)
      requires Lists() && Grouped(curr[..J], groupMax)
      modifies this`trace
      ensures trace == old(trace) + Dispatch.BlobEvents(engine, curr[..J], groups[..])
    {
      var j := 0;
      while j < J
        invariant j <= J
        invariant trace == old(trace) + Dispatch.BlobEvents(engine, curr[..j], groups[..])
      {
        var tar := curr[j];
        assert curr[..j + 1][..j] == curr[..j];
        ghost var done, mine := Dispatch.BlobEvents(engine, curr[..j], groups[..]), Dispatch.BlobEvent(engine, tar, groups[..]);
        assert old(trace) + done + mine == old(trace) + (done + mine);
        var gid := groups[tar.group.value].gid;
        if tar.state == Appeared {
          if engine.onCb {
            trace := trace + [OnEv(engine.id, tar.sid, gid, tar.pid, tar.x, tar.p)];
          }
        } else {
          if engine.setCb {
            trace := trace + [SetEv(engine.id, tar.sid, gid, tar.pid, tar.x, tar.p)];
          }
        }
        j := j + 1;
      }
      assert curr[..J] == curr[..j];
    }

    /** The off callbacks of one engine, old blob by old blob. */
    method OffCallbacks(engine: Engine)
      requires Lists() && engine.offCb && Dispatch.GoneGrouped(prev[..I], groupMax)
      modifies this`trace
      ensures trace == old(trace) + Dispatch.OffEvents(engine, prev[..I], groups[..])
    {
      var i := 0;
      while i < I
        invariant i <= I
        invariant trace == old(trace) + Dispatch.OffEvents(engine, prev[..i], groups[..])
      {
        var tar := prev[i];
        assert prev[..i + 1][..i] == prev[..i];
        ghost var off := if tar.state == Disappeared then [OffEv(engine.id, tar.sid, groups[tar.group.value].gid, tar.pid)] else [];
        ghost var done := Dispatch.OffEvents(engine, prev[..i], groups[..]);
        assert old(trace) + done + off == old(trace) + (done + off);
        if tar.state == Disappeared {
          trace := trace + [OffEv(engine.id, tar.sid, groups[tar.group.value].gid, tar.pid)];
        }
        i := i + 1;
      }
      assert prev[..I] == prev[..i];
    }

    /** `cmc_process` (cmc/cmc.c:90-613): scan, track, heartbeat, dispatch
        and buffer swap.  A frame is busy when it has old or new blobs; it
        is dispatched when busy or when it is a heartbeat. */
    method Process(now: nat, offset: nat, rela: seq<int>, range: Range, config: Config,
                   formula: Interp.Formula, curve: seq<real>, engines: seq<Option<Engine>>) returns (res: bool)
      requires Valid()
      requires |rela| == sensorN && |range.thresh| == sensorN && |range.u| == sensorN
      requires |Scan.Aoi(rela, range.thresh)| <= aoi.Length && |Peaks(rela, range)| <= blobMax
      requires Groups.CoversUnit(groups[..]) && |curve| >= Interp.CURVE_SIZE && engineMax <= |engines|
      modifies this`nAoi, aoi, v, n, a, this`nPeaks, peaks, prev, curr, this`prev, this`curr
      modifies this`I, this`J, this`sid, this`fid, this`idleWord, this`idleBit, this`trace
      ensures Valid()
      ensures prev == old(curr) && curr == old(prev)
      ensures var ns := Detected(config.order, formula, rela, range, old(n[..]), old(a[..]), x[..], d, curve);
        var busy := |ns| > 0 || old(I) > 0;
        var r := Track(ns, old(prev[..I]), old(sid), groups[..]);
        var tick := Pacer.Tick(Pacer.Idle(old(idleWord), old(idleBit)), busy, config.pacemaker);
        res == (busy || tick.1) && Pacer.Idle(idleWord, idleBit) == tick.0 &&
        fid == old(fid) + (if res then 1 else 0) &&
        prev[..I] == r.blobs && sid == r.sid &&
        trace == old(trace) + (if res then Dispatch.FrameEvents(engines, engineMax, fid, now, offset, r.prior, r.blobs, groups[..]) else [])
      ensures n[..] == Scan.Poles(old(n[..]), rela, range.thresh) && a[..] == Scan.Strong(old(a[..]), rela, range.thresh)
    {
      res := Frame(rela, range, config, formula, curve);
      Finish(res, engines, now, offset);
    }

    /** The end of a frame (cmc/cmc.c:555-612): dispatch when due, then the
        buffer swap. */
    method Finish(res: bool, engines: seq<Option<Engine>>, now: nat, offset: nat)
      requires Shape() && Fixed() && Pacer.Bounded(Pacer.Idle(idleWord, idleBit)) && engineMax <= |engines|
      requires Match.Tracked(curr[..J], sid) && Grouped(curr[..J], groupMax) && Placed(curr[..J])
      requires Dispatch.GoneGrouped(prev[..I], groupMax)
      modifies this`fid, this`trace, this`prev, this`curr, this`I
      ensures Valid()
      ensures prev == old(curr) && curr == old(prev) && I == old(J) && prev[..I] == old(curr[..J])
      ensures fid == old(fid) + (if res then 1 else 0)
      ensures trace == old(trace) + (if res then Dispatch.FrameEvents(engines, engineMax, fid, now, offset, old(prev[..I]), old(curr[..J]), groups[..]) else [])
    {
      Publish(res, engines, now, offset);
      Swap();
    }

    /** The buffer swap that ends a frame (cmc/cmc.c:605-612). */
    method Swap()
      requires J <= curr.Length
      modifies this`prev, this`curr, this`I
      ensures prev == old(curr) && curr == old(prev) && I == J
      ensures prev[..I] == old(curr[..J])
    {
      prev, curr := curr, prev;
      I := J;
    }

    /** A frame up to the dispatch (cmc/cmc.c:90-553): scan, track and heartbeat. */
    method Frame(rela: seq<int>, range: Range, config: Config, formula: Interp.Formula, curve: seq<real>) returns (res: bool)
      requires Valid()
      requires |rela| == sensorN && |range.thresh| == sensorN && |range.u| == sensorN
      requires |Scan.Aoi(rela, range.thresh)| <= aoi.Length && |Peaks(rela, range)| <= blobMax
      requires Groups.CoversUnit(groups[..]) && |curve| >= Interp.CURVE_SIZE
      modifies this`nAoi, aoi, v, n, a, this`nPeaks, peaks, prev, curr
      modifies this`J, this`sid, this`idleWord, this`idleBit
      ensures Shape() && Fixed() && Pacer.Bounded(Pacer.Idle(idleWord, idleBit))
      ensures var ns := Detected(config.order, formula, rela, range, old(n[..]), old(a[..]), x[..], d, curve);
        var busy := |ns| > 0 || old(I) > 0;
        var r := Track(ns, old(prev[..I]), old(sid), groups[..]);
        var tick := Pacer.Tick(Pacer.Idle(old(idleWord), old(idleBit)), busy, config.pacemaker);
        res == (busy || tick.1) && Pacer.Idle(idleWord, idleBit) == tick.0 &&
        curr[..J] == r.blobs && prev[..I] == r.prior && sid == r.sid &&
        Match.Tracked(r.blobs, r.sid) && Grouped(r.blobs, groupMax) && Placed(r.blobs) &&
        Dispatch.GoneGrouped(r.prior, groupMax)
      ensures n[..] == Scan.Poles(old(n[..]), rela, range.thresh) && a[..] == Scan.Strong(old(a[..]), rela, range.thresh)
    {
      ghost var n0, a0, xs := n[..], a[..], x[..];
      DetectBlobs(rela, range, config.order, formula, curve);
      assert x[..] == xs;
      res := TrackPhase(config.pacemaker);
    }

    /** The middle of a frame (cmc/cmc.c:361-553): a busy frame resets the
        idle counters and tracks, an idle one bumps the idle word; then the
        heartbeat decides whether an idle frame is emitted. */
    method TrackPhase(pacemaker: nat) returns (res: bool)
      requires Shape() && Match.Tracked(prev[..I], sid) && Grouped(prev[..I], groupMax) && Placed(curr[..J])
      requires Groups.CoversUnit(groups[..]) && Groups.Table(groups[..]) && Pacer.Bounded(Pacer.Idle(idleWord, idleBit))
      modifies curr, prev, this`J, this`sid, this`idleWord, this`idleBit
      ensures Shape() && Pacer.Bounded(Pacer.Idle(idleWord, idleBit))
      ensures var busy := old(J) > 0 || old(I) > 0;
        var r := Track(old(curr[..J]), old(prev[..I]), old(sid), groups[..]);
        var tick := Pacer.Tick(Pacer.Idle(old(idleWord), old(idleBit)), busy, pacemaker);
        res == (busy || tick.1) && Pacer.Idle(idleWord, idleBit) == tick.0 &&
        Groups.Pass(curr[..J], prev[..I], sid) == r
    {
      ghost var s0 := Pacer.Idle(idleWord, idleBit);
      ghost var busy := J > 0 || I > 0;
      ghost var gs := groups[..];
      var changed := true;
      if I > 0 || J > 0 {
        idleWord, idleBit := 0, 0;
        TrackBlobs();
      } else {
        changed := false;
        idleWord := (idleWord + 1) % Pacer.WORD_MOD;
        TrackIdle(sid, gs);
      }
      var idle := AdvanceIdle(pacemaker);
      assert groups[..] == gs;
      Pacer.TickBounded(s0, busy, pacemaker);
      res := changed || idle;
    }

    /** The end of a dispatched frame (cmc/cmc.c:555-600): the frame number
        is bumped and every engine receives its callbacks. */
    method Publish(res: bool, engines: seq<Option<Engine>>, now: nat, offset: nat)
      requires Lists() && engineMax <= |engines|
      requires Grouped(curr[..J], groupMax) && Dispatch.GoneGrouped(prev[..I], groupMax)
      modifies this`fid, this`trace
      ensures fid == old(fid) + (if res then 1 else 0)
      ensures trace == old(trace) + (if res then Dispatch.FrameEvents(engines, engineMax, fid, now, offset, prev[..I], curr[..J], groups[..]) else [])
    {
      if res {
        fid := fid + 1;
        DispatchAll(engines, now, offset);
      }
    }

    /** The scan half of a frame (cmc/cmc.c:95-355): areas of interest,
        peaks and one new blob per peak. */
    method DetectBlobs(rela: seq<int>, range: Range, order: Interp.Strategy, formula: Interp.Formula, curve: seq<real>)
      requires Shape() && |rela| == sensorN && |range.thresh| == sensorN && |range.u| == sensorN
      requires |Scan.Aoi(rela, range.thresh)| <= aoi.Length && |Peaks(rela, range)| <= blobMax
      requires |curve| >= Interp.CURVE_SIZE
      modifies this`nAoi, aoi, v, n, a, this`nPeaks, peaks, curr, this`J
      ensures Shape()
      ensures curr[..J] == Detected(order, formula, rela, range, old(n[..]), old(a[..]), x[..], d, curve)
      ensures n[..] == Scan.Poles(old(n[..]), rela, range.thresh) && a[..] == Scan.Strong(old(a[..]), rela, range.thresh)
    {
      ScanAreas(rela, range);
      Scan.ScanPeaksInRange(rela, range.thresh, range.u, range.w);
      DetectPeaks();
      ghost var ps := peaks[..nPeaks];
      forall q | 0 <= q < nPeaks ensures 1 <= peaks[q] && peaks[q] + 2 < v.Length {
        assert peaks[q] == ps[q];
      }
      BuildBlobs(order, formula, curve);
    }

    /** The tracking half of a busy frame (cmc/cmc.c:366-530): relate,
        compact and classify. */
    method TrackBlobs()
      requires Shape() && Match.Tracked(prev[..I], sid) && Grouped(prev[..I], groupMax) && Placed(curr[..J])
      requires Groups.CoversUnit(groups[..]) && Groups.Table(groups[..])
      modifies curr, prev, this`J, this`sid
      ensures Shape()
      ensures Groups.Pass(curr[..J], prev[..I], sid) == Track(old(curr[..J]), old(prev[..I]), old(sid), groups[..])
    {
      RelateLists();
      Compact();
      Classify();
    }

    /** The correspondence step, by the relative sizes of the two lists
        (cmc/cmc.c:366-479). */
    method RelateLists()
      requires Shape()
      modifies curr, prev, this`sid
      ensures Shape()
      ensures Match.Related(curr[..J], prev[..I], sid) == Match.Relate(old(curr[..J]), old(prev[..I]), old(sid))
    {
      if J < I {
        RelateShrink();
      } else if J == I {
        RelateEqual();
      } else {
        RelateGrow();
      }
    }
  }
}

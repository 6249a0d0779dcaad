/** Reference definitions for the first two steps of a scan: the
    area-of-interest threshold (cmc/cmc.c:95-114) and the up/down run
    state machine that reduces the areas to peaks (cmc/cmc.c:121-145). */
module Scan {
  import opened CmcTypes

  function IAbs(v: int): nat
  {
    if v < 0 then -v else v
  }

  /** A sensor is an area of interest when twice its absolute deviation
      exceeds its threshold. */
  predicate Flagged(val: int, thresh: int)
  {
    2 * IAbs(val) > thresh
  }

  /** The slots `pos + 1` of the flagged sensors among the first k, in scan order. */
  function AoiUpTo(rela: seq<int>, thresh: seq<int>, k: nat): (r: seq<nat>)
    requires k <= |rela| && k <= |thresh|
    ensures |r| <= k
    ensures forall q :: 0 <= q < |r| ==> 1 <= r[q] <= k
  {
    if k == 0 then []
    else AoiUpTo(rela, thresh, k - 1) + (if Flagged(rela[k - 1], thresh[k - 1]) then [k] else [])
  }

  function Aoi(rela: seq<int>, thresh: seq<int>): seq<nat>
    requires |rela| == |thresh|
  {
    AoiUpTo(rela, thresh, |rela|)
  }

  /** The normalised magnitude `aval * U[pos] - W` of a flagged sensor. */
  function Magnitude(val: int, u: real, w: real): real
  {
    IAbs(val) as real * u - w
  }

  /** Slot k of the magnitude vector after the scan: the magnitude of a
      flagged sensor, zero for an unflagged sensor and for the guard slots. */
  function Level(rela: seq<int>, thresh: seq<int>, u: seq<real>, w: real, k: nat): real
    requires |rela| == |thresh| == |u|
  {
    if 1 <= k <= |rela| && Flagged(rela[k - 1], thresh[k - 1]) then Magnitude(rela[k - 1], u[k - 1], w) else 0.0
  }

  /** The magnitude vector `cmc.v` after the scan: one slot per sensor at
      `pos + 1` and the two guard slots 0 and |rela| + 1. */
  function Levels(rela: seq<int>, thresh: seq<int>, u: seq<real>, w: real): (r: seq<real>)
    requires |rela| == |thresh| == |u|
    ensures |r| == |rela| + 2
  {
    seq(|rela| + 2, k requires 0 <= k < |rela| + 2 => Level(rela, thresh, u, w, k))
  }

  /** Slot k of the pole vector `cmc.n` after the scan: the pole of the
      deviation's sign at a flagged sensor, the previous value elsewhere. */
  function PoleAt(prior: seq<Pole>, rela: seq<int>, thresh: seq<int>, k: nat): Pole
    requires |prior| == |rela| + 2 && |rela| == |thresh| && k < |prior|
  {
    if 1 <= k <= |rela| && Flagged(rela[k - 1], thresh[k - 1])
    then (if rela[k - 1] < 0 then PoleNorth else PoleSouth) else prior[k]
  }

  function Poles(prior: seq<Pole>, rela: seq<int>, thresh: seq<int>): (r: seq<Pole>)
    requires |prior| == |rela| + 2 && |rela| == |thresh|
    ensures |r| == |prior|
  {
    seq(|prior|, k requires 0 <= k < |prior| => PoleAt(prior, rela, thresh, k))
  }

  /** Slot k of the above-threshold vector `cmc.a` after the scan: whether
      the deviation of a flagged sensor exceeds the whole threshold, the
      previous value elsewhere. */
  function StrongAt(prior: seq<bool>, rela: seq<int>, thresh: seq<int>, k: nat): bool
    requires |prior| == |rela| + 2 && |rela| == |thresh| && k < |prior|
  {
    if 1 <= k <= |rela| && Flagged(rela[k - 1], thresh[k - 1]) then IAbs(rela[k - 1]) > thresh[k - 1] else prior[k]
  }

  function Strong(prior: seq<bool>, rela: seq<int>, thresh: seq<int>): (r: seq<bool>)
    requires |prior| == |rela| + 2 && |rela| == |thresh|
    ensures |r| == |prior|
  {
    seq(|prior|, k requires 0 <= k < |prior| => StrongAt(prior, rela, thresh, k))
  }

  /** Scanning more sensors only appends areas. */
  lemma {:induction false} AoiPrefix(rela: seq<int>, thresh: seq<int>, k: nat, k': nat)
    requires k <= k' <= |rela| && k' <= |thresh|
    ensures AoiUpTo(rela, thresh, k) <= AoiUpTo(rela, thresh, k')
    decreases k' - k
  {
    if k < k' {
      AoiPrefix(rela, thresh, k, k' - 1);
    }
  }

  lemma {:induction false} AoiMembers(rela: seq<int>, thresh: seq<int>, k: nat, i: int)
    requires k <= |rela| && k <= |thresh|
    ensures i in AoiUpTo(rela, thresh, k) <==> 1 <= i <= k && Flagged(rela[i - 1], thresh[i - 1])
  {
    if k > 0 {
      AoiMembers(rela, thresh, k - 1, i);
    }
  }

  predicate StrictlyAscending(s: seq<nat>)
  {
    forall p, q :: 0 <= p < q < |s| ==> s[p] < s[q]
  }

  lemma {:induction false} AoiAscending(rela: seq<int>, thresh: seq<int>, k: nat)
    requires k <= |rela| && k <= |thresh|
    ensures StrictlyAscending(AoiUpTo(rela, thresh, k))
  {
    if k > 0 {
      AoiAscending(rela, thresh, k - 1);
    }
  }

  /** Every aoi slot indexes the magnitude vector. */
  predicate Indexes(aoi: seq<nat>, v: seq<real>)
  {
    forall q :: 0 <= q < |aoi| ==> aoi[q] < |v|
  }

  /** The run direction `up` in force when the walk compares aoi[k-1] with
      aoi[k]: it starts up, a strict descent turns it down, a strict ascent
      turns it up again, and equal values leave it as it is. */
  function Up(aoi: seq<nat>, v: seq<real>, k: nat): bool
    requires 1 <= k <= |aoi| && Indexes(aoi, v)
  {
    if k == 1 then true
    else if Up(aoi, v, k - 1) then !(v[aoi[k - 1]] < v[aoi[k - 2]])
    else v[aoi[k - 1]] > v[aoi[k - 2]]
  }

  /** The peaks emitted by the comparisons of the first k aoi entries. */
  function PeaksUpTo(aoi: seq<nat>, v: seq<real>, k: nat): seq<nat>
    requires 1 <= k <= |aoi| && Indexes(aoi, v)
  {
    if k == 1 then []
    else
      var emitted := Up(aoi, v, k - 1) && v[aoi[k - 1]] < v[aoi[k - 2]];
      PeaksUpTo(aoi, v, k - 1) + (if emitted then [aoi[k - 2]] else [])
  }

  /** The peak list of a whole scan. */
  function PeakList(aoi: seq<nat>, v: seq<real>): seq<nat>
    requires Indexes(aoi, v)
  {
    if |aoi| == 0 then [] else PeaksUpTo(aoi, v, |aoi|)
  }

  lemma {:induction false} PeaksCount(aoi: seq<nat>, v: seq<real>, k: nat)
    requires 1 <= k <= |aoi| && Indexes(aoi, v)
    ensures |PeaksUpTo(aoi, v, k)| <= k - 1
  {
    if k > 1 {
      PeaksCount(aoi, v, k - 1);
    }
  }

  /** At most one peak fewer than there are areas of interest, and none at
      all with fewer than two. */
  lemma PeakListCount(aoi: seq<nat>, v: seq<real>)
    requires Indexes(aoi, v)
    ensures |aoi| >= 1 ==> |PeakList(aoi, v)| <= |aoi| - 1
    ensures |aoi| < 2 ==> PeakList(aoi, v) == []
  {
    if |aoi| >= 1 {
      PeaksCount(aoi, v, |aoi|);
    }
  }

  lemma {:induction false} PeaksGrow(aoi: seq<nat>, v: seq<real>, k: nat, k': nat)
    requires 1 <= k <= k' <= |aoi| && Indexes(aoi, v)
    ensures PeaksUpTo(aoi, v, k) <= PeaksUpTo(aoi, v, k')
  {
    if k < k' {
      PeaksGrow(aoi, v, k, k' - 1);
    }
  }

  /** A strict ascent or a level step: the run is up after it. */
  lemma {:induction false} UpAfterRise(aoi: seq<nat>, v: seq<real>, k: nat)
    requires 2 <= k <= |aoi| && Indexes(aoi, v)
    ensures Up(aoi, v, k) ==> v[aoi[k - 2]] <= v[aoi[k - 1]]
  {
  }

  /** A flagged slot p is a local maximum of the flagged sequence: the next
      flagged slot is strictly lower and the previous one is not higher. */
  ghost predicate LocalMax(aoi: seq<nat>, v: seq<real>, p: nat)
    requires Indexes(aoi, v)
  {
    exists k :: 1 <= k < |aoi| && aoi[k - 1] == p && v[aoi[k]] < v[aoi[k - 1]] &&
      (k >= 2 ==> v[aoi[k - 2]] <= v[aoi[k - 1]])
  }

  lemma {:induction false} PeaksAreLocalMaxima(aoi: seq<nat>, v: seq<real>, k: nat)
    requires 1 <= k <= |aoi| && Indexes(aoi, v)
    ensures forall q :: 0 <= q < |PeaksUpTo(aoi, v, k)| ==> LocalMax(aoi, v, PeaksUpTo(aoi, v, k)[q])
  {
    if k > 1 {
      PeaksAreLocalMaxima(aoi, v, k - 1);
      var ps := PeaksUpTo(aoi, v, k - 1);
      if Up(aoi, v, k - 1) && v[aoi[k - 1]] < v[aoi[k - 2]] {
        if k - 1 >= 2 {
          UpAfterRise(aoi, v, k - 1);
        }
        assert LocalMax(aoi, v, aoi[k - 2]) by {
          assert aoi[(k - 1) - 1] == aoi[k - 2];
        }
        assert PeaksUpTo(aoi, v, k) == ps + [aoi[k - 2]];
      } else {
        assert PeaksUpTo(aoi, v, k) == ps;
      }
    }
  }

  /** With ascending aoi slots the peaks come out strictly ascending, and
      every peak lies strictly before the slot of the comparison partner. */
  lemma {:induction false} PeaksAscendingUpTo(aoi: seq<nat>, v: seq<real>, k: nat)
    requires 1 <= k <= |aoi| && Indexes(aoi, v) && StrictlyAscending(aoi)
    ensures StrictlyAscending(PeaksUpTo(aoi, v, k))
    ensures forall q :: 0 <= q < |PeaksUpTo(aoi, v, k)| ==> PeaksUpTo(aoi, v, k)[q] < aoi[k - 1]
  {
    if k > 1 {
      PeaksAscendingUpTo(aoi, v, k - 1);
    }
  }

  /** The peak list is strictly ascending and never contains the last area
      of interest. */
  lemma PeakListAscending(aoi: seq<nat>, v: seq<real>)
    requires Indexes(aoi, v) && StrictlyAscending(aoi)
    ensures StrictlyAscending(PeakList(aoi, v))
    ensures forall q :: 0 <= q < |PeakList(aoi, v)| ==> PeakList(aoi, v)[q] < aoi[|aoi| - 1]
    ensures forall q :: 0 <= q < |PeakList(aoi, v)| ==> PeakList(aoi, v)[q] in aoi
  {
    if |aoi| > 0 {
      PeaksAscendingUpTo(aoi, v, |aoi|);
      PeaksAreLocalMaxima(aoi, v, |aoi|);
    }
  }

  /** Equal values never flip the run direction: over a plateau of equal
      magnitudes the direction stays what it was on entry. */
  lemma {:induction false} PlateauKeepsDirection(aoi: seq<nat>, v: seq<real>, k: nat, k': nat)
    requires 1 <= k <= k' <= |aoi| && Indexes(aoi, v)
    requires forall t :: k - 1 <= t < k' ==> v[aoi[t]] == v[aoi[k - 1]]
    ensures Up(aoi, v, k') == Up(aoi, v, k)
  {
    if k < k' {
      PlateauKeepsDirection(aoi, v, k, k' - 1);
    }
  }

  /** Where the scan and the peak list meet: the slots of the areas of
      interest index the magnitude vector and come out ascending, and every
      peak P leaves room for the neighbours P - 1 .. P + 2 read by the
      interpolation, because the last area is never a peak. */
  lemma ScanPeaksInRange(rela: seq<int>, thresh: seq<int>, u: seq<real>, w: real)
    requires |rela| == |thresh| == |u|
    ensures Indexes(Aoi(rela, thresh), Levels(rela, thresh, u, w))
    ensures StrictlyAscending(Aoi(rela, thresh))
    ensures forall q :: 0 <= q < |PeakList(Aoi(rela, thresh), Levels(rela, thresh, u, w))| ==>
      1 <= PeakList(Aoi(rela, thresh), Levels(rela, thresh, u, w))[q] &&
      PeakList(Aoi(rela, thresh), Levels(rela, thresh, u, w))[q] + 2 <= |rela| + 1
  {
    var aoi := Aoi(rela, thresh);
    AoiAscending(rela, thresh, |rela|);
    var v := Levels(rela, thresh, u, w);
    PeakListAscending(aoi, v);
  }
}

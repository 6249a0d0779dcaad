/** Reference definitions for relating the new blob list to the old one
    (cmc/cmc.c:366-474) and for compacting out ignored blobs
    (cmc/cmc.c:479-491).  Both lists are ordered by position; the walks
    compare the positions exactly as stored. */
module Match {
  import opened CmcTypes

  /** `fabs(a - b)`. */
  function Dist(a: real, b: real): real
  {
    Abs(a - b)
  }

  /** A current blob taking over the session and group of an old one. */
  function Inherit(nb: Blob, ob: Blob): (r: Blob)
  {
    nb.(sid := ob.sid, group := ob.group, state := Existed)
  }

  predicate Increasing(m: seq<nat>)
  {
    forall p, q :: 0 <= p < q < |m| ==> m[p] < m[q]
  }

  // ---------------------------------------------------------------------
  // J < I: some old blobs have disappeared

  /** The old index matched by each current blob j.., for the walk at old
      cursor i, current cursor j, with `less` disappearances still to find
      (the walk keeps i - j == (I - J) - less).  The first old blob is
      dropped only when the current blob is strictly closer to the second. */
  function ShrinkFrom(ox: seq<real>, nx: seq<real>, i: nat, j: nat, less: nat): seq<nat>
    requires j <= |nx| && i + |nx| + less == j + |ox|
    decreases |nx| - j + less
  {
    if j == |nx| then []
    else if less > 0 && Dist(nx[j], ox[i + 1]) < Dist(nx[j], ox[i]) then ShrinkFrom(ox, nx, i + 1, j, less - 1)
    else [i] + ShrinkFrom(ox, nx, i + 1, j + 1, less)
  }

  function ShrinkMatch(ox: seq<real>, nx: seq<real>): seq<nat>
    requires |nx| <= |ox|
  {
    ShrinkFrom(ox, nx, 0, 0, |ox| - |nx|)
  }

  /** The walk matches every remaining current blob, to ascending old
      indices from the cursor on, leaving the last `less` old blobs or more
      unmatched. */
  lemma ShrinkShape(ox: seq<real>, nx: seq<real>, i: nat, j: nat, less: nat)
    requires j <= |nx| && i + |nx| + less == j + |ox|
    ensures |ShrinkFrom(ox, nx, i, j, less)| == |nx| - j
    ensures Increasing(ShrinkFrom(ox, nx, i, j, less))
    ensures forall q :: 0 <= q < |nx| - j ==> i <= ShrinkFrom(ox, nx, i, j, less)[q] < |ox|
  {
    ShrinkBounds(ox, nx, i, j, less);
    ShrinkAscending(ox, nx, i, j, less);
  }

  /** Every remaining current blob is matched to an old index from the cursor on. */
  lemma {:induction false} ShrinkBounds(ox: seq<real>, nx: seq<real>, i: nat, j: nat, less: nat)
    requires j <= |nx| && i + |nx| + less == j + |ox|
    ensures |ShrinkFrom(ox, nx, i, j, less)| == |nx| - j
    ensures forall q :: 0 <= q < |nx| - j ==> i <= ShrinkFrom(ox, nx, i, j, less)[q] < |ox|
    decreases |nx| - j + less
  {
    if j < |nx| {
      var m := ShrinkFrom(ox, nx, i, j, less);
      if less > 0 && Dist(nx[j], ox[i + 1]) < Dist(nx[j], ox[i]) {
        ShrinkBounds(ox, nx, i + 1, j, less - 1);
        assert m == ShrinkFrom(ox, nx, i + 1, j, less - 1);
      } else {
        ShrinkBounds(ox, nx, i + 1, j + 1, less);
        var rest := ShrinkFrom(ox, nx, i + 1, j + 1, less);
        assert m == [i] + rest;
        forall q | 0 <= q < |m| ensures i <= m[q] < |ox| {
          if q > 0 {
            assert m[q] == rest[q - 1];
          }
        }
      }
    }
  }

  /** The matched old indices ascend strictly. */
  lemma {:induction false} ShrinkAscending(ox: seq<real>, nx: seq<real>, i: nat, j: nat, less: nat)
    requires j <= |nx| && i + |nx| + less == j + |ox|
    ensures |ShrinkFrom(ox, nx, i, j, less)| == |nx| - j
    ensures Increasing(ShrinkFrom(ox, nx, i, j, less))
    decreases |nx| - j + less
  {
    ShrinkBounds(ox, nx, i, j, less);
    if j < |nx| {
      var m := ShrinkFrom(ox, nx, i, j, less);
      if less > 0 && Dist(nx[j], ox[i + 1]) < Dist(nx[j], ox[i]) {
        ShrinkAscending(ox, nx, i + 1, j, less - 1);
        assert m == ShrinkFrom(ox, nx, i + 1, j, less - 1);
      } else {
        ShrinkAscending(ox, nx, i + 1, j + 1, less);
        var rest := ShrinkFrom(ox, nx, i + 1, j + 1, less);
        ShrinkBounds(ox, nx, i + 1, j + 1, less);
        assert m == [i] + rest;
        forall p, q | 0 <= p < q < |m| ensures m[p] < m[q] {
          assert m[q] == rest[q - 1];
          if p > 0 {
            assert m[p] == rest[p - 1];
          }
        }
      }
    }
  }

  /** Old blobs after the walk: the unmatched ones are DISAPPEARED. */
  function ShrunkOld(os: seq<Blob>, m: seq<nat>): (r: seq<Blob>)
    ensures |r| == |os|
  {
    seq(|os|, k requires 0 <= k < |os| => if k in m then os[k] else os[k].(state := Disappeared))
  }

  /** Current blobs after the walk: each inherits from its matched old blob. */
  function ShrunkNew(ns: seq<Blob>, os: seq<Blob>, m: seq<nat>): (r: seq<Blob>)
    requires |m| == |ns| && forall q :: 0 <= q < |m| ==> m[q] < |os|
    ensures |r| == |ns|
  {
    seq(|ns|, j requires 0 <= j < |ns| => Inherit(ns[j], os[m[j]]))
  }

  /** The old indices an ascending match leaves out number exactly
      n - |m|. */
  lemma {:induction false} UnmatchedCount(m: seq<nat>, n: nat)
    requires Increasing(m) && |m| <= n && forall q :: 0 <= q < |m| ==> m[q] < n
    ensures |set k | 0 <= k < n && k !in m| + |m| == n
    decreases n
  {
    if |m| > 0 {
      IncreasingFloor(m, |m| - 1);
    }
    if n == 0 {
      assert (set k | 0 <= k < n && k !in m) == {};
    } else if |m| > 0 && m[|m| - 1] == n - 1 {
      var m' := m[..|m| - 1];
      forall q | 0 <= q < |m'| ensures m'[q] < n - 1 {
        assert m'[q] == m[q] < m[|m| - 1];
      }
      UnmatchedCount(m', n - 1);
      assert (set k | 0 <= k < n && k !in m) == (set k | 0 <= k < n - 1 && k !in m') by {
        assert m == m' + [n - 1];
      }
    } else {
      forall q | 0 <= q < |m| ensures m[q] < n - 1 {
        if q < |m| - 1 {
          assert m[q] < m[|m| - 1];
        }
      }
      UnmatchedCount(m, n - 1);
      assert (set k | 0 <= k < n && k !in m) == (set k | 0 <= k < n - 1 && k !in m) + {n - 1};
    }
  }

  lemma {:induction false} IncreasingFloor(m: seq<nat>, q: nat)
    requires Increasing(m) && q < |m|
    ensures m[q] >= q
  {
    if q > 0 {
      IncreasingFloor(m, q - 1);
    }
  }

  /** J < I: every current blob inherits from exactly one old blob (the
      match is strictly ascending, so no two share one), and exactly I - J
      old blobs end DISAPPEARED. */
  lemma {:induction false} ShrinkDisappears(ox: seq<real>, nx: seq<real>)
    requires |nx| <= |ox|
    ensures var m := ShrinkMatch(ox, nx);
      |m| == |nx| && Increasing(m) && (forall q :: 0 <= q < |m| ==> m[q] < |ox|) &&
      |set k | 0 <= k < |ox| && k !in m| == |ox| - |nx|
  {
    ShrinkShape(ox, nx, 0, 0, |ox| - |nx|);
    UnmatchedCount(ShrinkMatch(ox, nx), |ox|);
  }

  /** A tie (`diff1 == diff0`) is a match: the walk keeps the old blob. */
  lemma ShrinkTieMatches(ox: seq<real>, nx: seq<real>, i: nat, j: nat, less: nat)
    requires j < |nx| && i + |nx| + less == j + |ox| && less > 0
    requires Dist(nx[j], ox[i + 1]) == Dist(nx[j], ox[i])
    ensures ShrinkFrom(ox, nx, i, j, less) == [i] + ShrinkFrom(ox, nx, i + 1, j + 1, less)
  {
  }

  /** With nothing to drop the walk is the identity, the J == I relation. */
  lemma {:induction false} ShrinkNothingToDrop(ox: seq<real>, nx: seq<real>, i: nat, j: nat)
    requires j <= |nx| && i + |nx| == j + |ox|
    ensures ShrinkFrom(ox, nx, i, j, 0) == seq(|nx| - j, q => i + q)
    decreases |nx| - j
  {
    if j < |nx| {
      ShrinkNothingToDrop(ox, nx, i + 1, j + 1);
    }
  }

  // ---------------------------------------------------------------------
  // J > I: some new blobs have appeared

  /** The fate of each current blob j..: Some(i) when matched with old blob
      i, None when it is a new blob, for the walk at old cursor i, current
      cursor j, with `more` appearances still to find (j - i == (J - I) -
      more).  The first current blob is new only when the second is strictly
      closer to the old one. */
  function GrowFrom(ox: seq<real>, nx: seq<real>, i: nat, j: nat, more: nat): seq<Option<nat>>
    requires i <= |ox| && j + more + |ox| == i + |nx|
    decreases |ox| - i + more
  {
    if i == |ox| then Nones(more)
    else if more > 0 && Dist(nx[j + 1], ox[i]) < Dist(nx[j], ox[i]) then [None] + GrowFrom(ox, nx, i, j + 1, more - 1)
    else [Some(i)] + GrowFrom(ox, nx, i + 1, j + 1, more)
  }

  function GrowMatch(ox: seq<real>, nx: seq<real>): seq<Option<nat>>
    requires |ox| <= |nx|
  {
    GrowFrom(ox, nx, 0, 0, |nx| - |ox|)
  }

  /** The matched old indices, in current-list order. */
  function Partners(f: seq<Option<nat>>): seq<nat>
  {
    if f == [] then []
    else (if f[0].Some? then [f[0].value] else []) + Partners(f[1..])
  }

  function CountNew(f: seq<Option<nat>>): nat
  {
    if f == [] then 0 else (if f[0].None? then 1 else 0) + CountNew(f[1..])
  }

  /** The walk visits every remaining old blob once, in order, and leaves
      exactly `more` current blobs unmatched. */
  lemma {:induction false} GrowShape(ox: seq<real>, nx: seq<real>, i: nat, j: nat, more: nat)
    requires i <= |ox| && j + more + |ox| == i + |nx|
    ensures |GrowFrom(ox, nx, i, j, more)| == |nx| - j
    ensures Partners(GrowFrom(ox, nx, i, j, more)) == seq(|ox| - i, q => i + q)
    ensures CountNew(GrowFrom(ox, nx, i, j, more)) == more
    ensures forall q :: 0 <= q < |nx| - j && GrowFrom(ox, nx, i, j, more)[q].Some? ==>
      i <= GrowFrom(ox, nx, i, j, more)[q].value < |ox|
    decreases |ox| - i + more
  {
    var f := GrowFrom(ox, nx, i, j, more);
    if i == |ox| {
      NoneRun(more);
    } else if more > 0 && Dist(nx[j + 1], ox[i]) < Dist(nx[j], ox[i]) {
      GrowShape(ox, nx, i, j + 1, more - 1);
      var rest := GrowFrom(ox, nx, i, j + 1, more - 1);
      assert f == [None] + rest;
      assert f[1..] == rest;
      forall q | 0 <= q < |f| && f[q].Some?
        ensures i <= f[q].value < |ox|
      {
        assert f[q] == rest[q - 1];
      }
    } else {
      GrowShape(ox, nx, i + 1, j + 1, more);
      var rest := GrowFrom(ox, nx, i + 1, j + 1, more);
      assert f == [Some(i)] + rest;
      assert f[1..] == rest;
      assert Partners(f) == [i] + seq(|ox| - (i + 1), q => i + 1 + q);
      forall q | 0 < q < |f| && f[q].Some?
        ensures i <= f[q].value < |ox|
      {
        assert f[q] == rest[q - 1];
      }
    }
  }

  /** The old blobs are visited in increasing index order. */
  lemma {:induction false} GrowAscending(ox: seq<real>, nx: seq<real>, i: nat, j: nat, more: nat)
    requires i <= |ox| && j + more + |ox| == i + |nx|
    ensures |GrowFrom(ox, nx, i, j, more)| == |nx| - j
    ensures forall p, q ::
      (0 <= p < q < |nx| - j && GrowFrom(ox, nx, i, j, more)[p].Some? && GrowFrom(ox, nx, i, j, more)[q].Some?) ==>
      i <= GrowFrom(ox, nx, i, j, more)[p].value < GrowFrom(ox, nx, i, j, more)[q].value < |ox|
    decreases |ox| - i + more
  {
    var f := GrowFrom(ox, nx, i, j, more);
    GrowShape(ox, nx, i, j, more);
    if i == |ox| {
    } else if more > 0 && Dist(nx[j + 1], ox[i]) < Dist(nx[j], ox[i]) {
      GrowAscending(ox, nx, i, j + 1, more - 1);
      var rest := GrowFrom(ox, nx, i, j + 1, more - 1);
      assert f[1..] == rest;
      forall p, q | 0 <= p < q < |f| && f[p].Some? && f[q].Some?
        ensures i <= f[p].value < f[q].value < |ox|
      {
        assert f[p] == rest[p - 1] && f[q] == rest[q - 1];
      }
    } else {
      GrowAscending(ox, nx, i + 1, j + 1, more);
      GrowShape(ox, nx, i + 1, j + 1, more);
      var rest := GrowFrom(ox, nx, i + 1, j + 1, more);
      assert f[1..] == rest;
      forall p, q | 0 <= p < q < |f| && f[p].Some? && f[q].Some?
        ensures i <= f[p].value < f[q].value < |ox|
      {
        assert f[q] == rest[q - 1];
        if p > 0 {
          assert f[p] == rest[p - 1];
        }
      }
    }
  }

  function Nones(n: nat): (r: seq<Option<nat>>)
    ensures |r| == n && forall q :: 0 <= q < n ==> r[q] == None
  {
    seq(n, _ => None)
  }

  lemma {:induction false} NoneRun(n: nat)
    ensures Partners(Nones(n)) == [] && CountNew(Nones(n)) == n
  {
    if n > 0 {
      assert Nones(n)[1..] == Nones(n - 1);
      NoneRun(n - 1);
    }
  }

  /** J > I: every old blob is matched exactly once, in order, and exactly
      J - I current blobs are unmatched. */
  lemma {:induction false} GrowMatchesEveryOld(ox: seq<real>, nx: seq<real>)
    requires |ox| <= |nx|
    ensures |GrowMatch(ox, nx)| == |nx|
    ensures Partners(GrowMatch(ox, nx)) == seq(|ox|, q => q)
    ensures CountNew(GrowMatch(ox, nx)) == |nx| - |ox|
  {
    GrowShape(ox, nx, 0, 0, |nx| - |ox|);
    GrowAscending(ox, nx, 0, 0, |nx| - |ox|);
  }

  /** The walk's cursor at a new blob: f[j] is None and the walk goes on. */
  lemma GrowNewAt(ox: seq<real>, nx: seq<real>, f: seq<Option<nat>>, i: nat, j: nat, more: nat)
    requires i < |ox| && j + more + |ox| == i + |nx| && more > 0 && j < |f|
    requires Dist(nx[j + 1], ox[i]) < Dist(nx[j], ox[i]) && f[j..] == GrowFrom(ox, nx, i, j, more)
    ensures f[j] == None && f[j + 1..] == GrowFrom(ox, nx, i, j + 1, more - 1)
  {
    assert f[j..] == [None] + GrowFrom(ox, nx, i, j + 1, more - 1);
    assert f[j] == f[j..][0];
    assert f[j + 1..] == f[j..][1..];
  }

  /** Past the old blobs: f[j] is None and so is the rest. */
  lemma GrowTailAt(ox: seq<real>, nx: seq<real>, f: seq<Option<nat>>, j: nat, more: nat)
    requires j + more == |nx| && more > 0 && j < |f| && f[j..] == GrowFrom(ox, nx, |ox|, j, more)
    ensures f[j] == None && f[j + 1..] == GrowFrom(ox, nx, |ox|, j + 1, more - 1)
  {
    NonesTail(f[j..], more);
    assert f[j] == f[j..][0];
    assert f[j + 1..] == f[j..][1..];
  }

  /** The walk's cursor at a related blob: f[j] is old blob i. */
  lemma GrowKeepAt(ox: seq<real>, nx: seq<real>, f: seq<Option<nat>>, i: nat, j: nat, more: nat)
    requires i < |ox| && j + more + |ox| == i + |nx| && j < |f|
    requires !(more > 0 && Dist(nx[j + 1], ox[i]) < Dist(nx[j], ox[i])) && f[j..] == GrowFrom(ox, nx, i, j, more)
    ensures f[j] == Some(i) && f[j + 1..] == GrowFrom(ox, nx, i + 1, j + 1, more)
  {
    assert f[j..] == [Some(i)] + GrowFrom(ox, nx, i + 1, j + 1, more);
    assert f[j] == f[j..][0];
    assert f[j + 1..] == f[j..][1..];
  }

  /** A tie is a 1:1 relation, not an appearance. */
  lemma GrowTieMatches(ox: seq<real>, nx: seq<real>, i: nat, j: nat, more: nat)
    requires i < |ox| && j + more + |ox| == i + |nx| && more > 0
    requires Dist(nx[j + 1], ox[i]) == Dist(nx[j], ox[i])
    ensures GrowFrom(ox, nx, i, j, more) == [Some(i)] + GrowFrom(ox, nx, i + 1, j + 1, more)
  {
  }

  /** The number of new, above-threshold blobs among the first j: the
      session ids handed out before blob j. */
  function FreshBefore(f: seq<Option<nat>>, ns: seq<Blob>, j: nat): nat
    requires j <= |f| && |f| == |ns|
  {
    if j == 0 then 0
    else FreshBefore(f, ns, j - 1) + (if f[j - 1].None? && ns[j - 1].aboveThresh then 1 else 0)
  }

  /** A new current blob: a fresh session id when above threshold, else IGNORED. */
  function Appear(nb: Blob, sid: int): Blob
  {
    if nb.aboveThresh then nb.(sid := sid, group := None, state := Appeared)
    else nb.(state := Ignored)
  }

  /** Current blob j after the J > I walk: it inherits from its partner,
      or appears with the session id it is handed. */
  function Fate(nb: Blob, os: seq<Blob>, fj: Option<nat>, sid: int): Blob
    requires fj.Some? ==> fj.value < |os|
  {
    if fj.Some? then Inherit(nb, os[fj.value]) else Appear(nb, sid)
  }

  /** The session id blob j is handed should it be new and above threshold. */
  function FreshSids(f: seq<Option<nat>>, ns: seq<Blob>, sid0: int): (r: seq<int>)
    requires |f| == |ns|
    ensures |r| == |ns|
  {
    seq(|ns|, j requires 0 <= j < |ns| => sid0 + FreshBefore(f, ns, j) + 1)
  }

  /** Current blobs after the J > I walk, the session counter having been sid0. */
  function Grown(ns: seq<Blob>, os: seq<Blob>, f: seq<Option<nat>>, sid0: int): (r: seq<Blob>)
    requires |f| == |ns| && forall q :: 0 <= q < |f| && f[q].Some? ==> f[q].value < |os|
    ensures |r| == |ns|
  {
    var sids := FreshSids(f, ns, sid0);
    seq(|ns|, j requires 0 <= j < |ns| => Fate(ns[j], os, f[j], sids[j]))
  }

  lemma {:induction false} FreshBeforeGrows(f: seq<Option<nat>>, ns: seq<Blob>, j: nat, j': nat)
    requires j <= j' <= |f| && |f| == |ns|
    ensures FreshBefore(f, ns, j) <= FreshBefore(f, ns, j')
    ensures j < j' && f[j].None? && ns[j].aboveThresh ==> FreshBefore(f, ns, j) < FreshBefore(f, ns, j')
    decreases j' - j
  {
    if j < j' {
      FreshBeforeGrows(f, ns, j, j' - 1);
      if j + 1 < j' {
        FreshBeforeGrows(f, ns, j + 1, j' - 1);
      }
    }
  }

  // ---------------------------------------------------------------------
  // Session bookkeeping

  predicate Live(b: Blob, sidMax: int)
  {
    (b.state == Appeared || b.state == Existed) && 1 <= b.sid <= sidMax
  }

  predicate DistinctSids(s: seq<Blob>)
  {
    forall p, q :: 0 <= p < q < |s| ==> s[p].sid != s[q].sid
  }

  /** A list whose blobs are all live, with distinct sessions issued so far. */
  predicate Tracked(s: seq<Blob>, sidMax: int)
  {
    (forall k :: 0 <= k < |s| ==> Live(s[k], sidMax)) && DistinctSids(s)
  }

  /** The same for the blobs that are not IGNORED. */
  predicate TrackedKept(s: seq<Blob>, sidMax: int)
  {
    (forall k :: 0 <= k < |s| && s[k].state != Ignored ==> Live(s[k], sidMax)) &&
    (forall p, q :: 0 <= p < q < |s| && s[p].state != Ignored && s[q].state != Ignored ==> s[p].sid != s[q].sid)
  }

  /** J < I keeps the sessions of a tracked old list. */
  lemma {:induction false} ShrinkKeepsSessions(ns: seq<Blob>, os: seq<Blob>, sidMax: int)
    requires |ns| <= |os| && Tracked(os, sidMax)
    ensures var m := ShrinkMatch(Xs(os), Xs(ns));
      |m| == |ns| && (forall q :: 0 <= q < |m| ==> m[q] < |os|) &&
      Tracked(ShrunkNew(ns, os, m), sidMax)
  {
    ShrinkDisappears(Xs(os), Xs(ns));
  }

  /** The facts about a J > I match that the session argument uses. */
  predicate GrowFacts(f: seq<Option<nat>>, n: nat, oldCount: nat)
  {
    |f| == n && (forall q :: 0 <= q < |f| && f[q].Some? ==> f[q].value < oldCount) &&
    (forall p, q :: 0 <= p < q < |f| && f[p].Some? && f[q].Some? ==> f[p].value < f[q].value)
  }

  lemma {:induction false} GrowMatchFacts(ox: seq<real>, nx: seq<real>)
    requires |ox| <= |nx|
    ensures GrowFacts(GrowMatch(ox, nx), |nx|, |ox|)
  {
    GrowShape(ox, nx, 0, 0, |nx| - |ox|);
    GrowAscending(ox, nx, 0, 0, |nx| - |ox|);
  }

  lemma {:induction false} GrownAt(ns: seq<Blob>, os: seq<Blob>, f: seq<Option<nat>>, sid0: int, k: nat)
    requires |f| == |ns| && (forall q :: 0 <= q < |f| && f[q].Some? ==> f[q].value < |os|) && k < |ns|
    ensures Grown(ns, os, f, sid0)[k] == Fate(ns[k], os, f[k], sid0 + FreshBefore(f, ns, k) + 1)
  {
  }

  lemma {:induction false} GrownInheritedLive(ns: seq<Blob>, os: seq<Blob>, f: seq<Option<nat>>, sid0: int, k: nat)
    requires GrowFacts(f, |ns|, |os|) && Tracked(os, sid0) && k < |ns| && f[k].Some?
    ensures Live(Grown(ns, os, f, sid0)[k], sid0 + FreshBefore(f, ns, |ns|))
  {
    GrownAt(ns, os, f, sid0, k);
    assert Live(os[f[k].value], sid0);
  }

  lemma {:induction false} GrownFreshLive(ns: seq<Blob>, os: seq<Blob>, f: seq<Option<nat>>, sid0: int, k: nat)
    requires GrowFacts(f, |ns|, |os|) && k < |ns| && f[k].None? && ns[k].aboveThresh && sid0 >= 0
    ensures Live(Grown(ns, os, f, sid0)[k], sid0 + FreshBefore(f, ns, |ns|))
  {
    GrownAt(ns, os, f, sid0, k);
    var c := FreshBefore(f, ns, k);
    assert Grown(ns, os, f, sid0)[k] == Appear(ns[k], sid0 + c + 1);
    FreshBeforeGrows(f, ns, k, |ns|);
  }

  lemma {:induction false} GrownDistinct(ns: seq<Blob>, os: seq<Blob>, f: seq<Option<nat>>, sid0: int, p: nat, q: nat)
    requires GrowFacts(f, |ns|, |os|) && Tracked(os, sid0) && p < q < |ns|
    ensures var g := Grown(ns, os, f, sid0);
      g[p].state != Ignored && g[q].state != Ignored ==> g[p].sid != g[q].sid
  {
    var g := Grown(ns, os, f, sid0);
    if g[p].state != Ignored && g[q].state != Ignored {
      if f[p].Some? && f[q].Some? {
        assert f[p].value < f[q].value;
        assert g[p].sid == os[f[p].value].sid && g[q].sid == os[f[q].value].sid;
      } else if f[p].Some? {
        assert Live(os[f[p].value], sid0);
        assert g[p].sid == os[f[p].value].sid;
        assert g[q].sid == sid0 + FreshBefore(f, ns, q) + 1;
      } else if f[q].Some? {
        assert Live(os[f[q].value], sid0);
        assert g[q].sid == os[f[q].value].sid;
        assert g[p].sid == sid0 + FreshBefore(f, ns, p) + 1;
      } else {
        FreshBeforeGrows(f, ns, p, q);
        assert g[p].sid == sid0 + FreshBefore(f, ns, p) + 1;
        assert g[q].sid == sid0 + FreshBefore(f, ns, q) + 1;
      }
    }
  }

  /** J > I: inherited sessions stay distinct, and the fresh ones are
      sid0 + 1, sid0 + 2, ... in list order, above every old one. */
  lemma {:induction false} GrowKeepsSessions(ns: seq<Blob>, os: seq<Blob>, sid0: nat)
    requires |os| <= |ns| && Tracked(os, sid0)
    ensures var f := GrowMatch(Xs(os), Xs(ns));
      GrowFacts(f, |ns|, |os|) &&
      TrackedKept(Grown(ns, os, f, sid0), sid0 + FreshBefore(f, ns, |ns|))
  {
    var f := GrowMatch(Xs(os), Xs(ns));
    GrowMatchFacts(Xs(os), Xs(ns));
    var g := Grown(ns, os, f, sid0);
    var top := sid0 + FreshBefore(f, ns, |ns|);
    forall k | 0 <= k < |g| && g[k].state != Ignored ensures Live(g[k], top) {
      if f[k].Some? {
        GrownInheritedLive(ns, os, f, sid0, k);
      } else {
        GrownFreshLive(ns, os, f, sid0, k);
      }
    }
    forall p, q | 0 <= p < q < |g| && g[p].state != Ignored && g[q].state != Ignored
      ensures g[p].sid != g[q].sid
    {
      GrownDistinct(ns, os, f, sid0, p, q);
    }
  }

  // ---------------------------------------------------------------------
  // The three cases together

  function Identity(n: nat): (r: seq<nat>)
    ensures |r| == n && forall q :: 0 <= q < n ==> r[q] == q
  {
    seq(n, q => q)
  }

  /** The current list, the old list and the session counter after relating. */
  datatype Related = Related(curr: seq<Blob>, prior: seq<Blob>, sid: int)

  /** The correspondence step on the sign of J - I. */
  function Relate(ns: seq<Blob>, os: seq<Blob>, sid: int): (r: Related)
    ensures |r.curr| == |ns| && |r.prior| == |os|
  {
    if |ns| < |os| then
      ShrinkDisappears(Xs(os), Xs(ns));
      var m := ShrinkMatch(Xs(os), Xs(ns));
      Related(ShrunkNew(ns, os, m), ShrunkOld(os, m), sid)
    else if |ns| == |os| then
      Related(ShrunkNew(ns, os, Identity(|ns|)), os, sid)
    else
      GrowMatchFacts(Xs(os), Xs(ns));
      var f := GrowMatch(Xs(os), Xs(ns));
      Related(Grown(ns, os, f, sid), os, sid + FreshBefore(f, ns, |ns|))
  }

  /** The J < I case of `Relate`, with the facts its walk needs. */
  lemma ShrinkCase(ns: seq<Blob>, os: seq<Blob>, sid: int)
    requires |ns| < |os|
    ensures var m := ShrinkMatch(Xs(os), Xs(ns));
      |m| == |ns| && (forall q :: 0 <= q < |m| ==> m[q] < |os|) &&
      Relate(ns, os, sid) == Related(ShrunkNew(ns, os, m), ShrunkOld(os, m), sid)
  {
    ShrinkDisappears(Xs(os), Xs(ns));
  }

  /** The old list p with the walk past old blob t: matched blobs as they
      were, unmatched ones marked DISAPPEARED, the rest untouched. */
  predicate OldWalked(os: seq<Blob>, m: seq<nat>, t: nat, p: seq<Blob>)
  {
    |p| == |os| && t <= |os| &&
    (forall k :: 0 <= k < t ==> p[k] == (if k in m then os[k] else os[k].(state := Disappeared))) &&
    (forall k :: t <= k < |os| ==> p[k] == os[k])
  }

  /** The current list c with the walk past current blob j: related blobs
      carry the session and group of their old blob, the rest untouched. */
  predicate NewWalked(ns: seq<Blob>, os: seq<Blob>, m: seq<nat>, j: nat, c: seq<Blob>)
  {
    |c| == |ns| && |m| == |ns| && j <= |ns| &&
    (forall q :: 0 <= q < j ==> m[q] < |os| && c[q] == Inherit(ns[q], os[m[q]])) &&
    (forall q :: j <= q < |ns| ==> c[q] == ns[q])
  }

  lemma OldWalkedStep(os: seq<Blob>, m: seq<nat>, t: nat, p: seq<Blob>)
    requires OldWalked(os, m, t, p) && t < |os|
    ensures OldWalked(os, m, t + 1, if t in m then p else p[t := os[t].(state := Disappeared)])
  {
  }

  lemma NewWalkedStep(ns: seq<Blob>, os: seq<Blob>, m: seq<nat>, j: nat, c: seq<Blob>)
    requires NewWalked(ns, os, m, j, c) && j < |ns| && m[j] < |os|
    ensures NewWalked(ns, os, m, j + 1, c[j := Inherit(ns[j], os[m[j]])])
  {
  }

  /** The J == I case of `Relate`. */
  lemma EqualCase(ns: seq<Blob>, os: seq<Blob>, sid: int)
    requires |ns| == |os|
    ensures Relate(ns, os, sid) == Related(ShrunkNew(ns, os, Identity(|ns|)), os, sid)
  {
  }

  lemma NewWalkedDone(ns: seq<Blob>, os: seq<Blob>, m: seq<nat>, c: seq<Blob>)
    requires NewWalked(ns, os, m, |ns|, c)
    ensures c == ShrunkNew(ns, os, m)
  {
  }

  /** A finished walk has computed the results of the J <= I relation. */
  lemma ShrunkParts(ns: seq<Blob>, os: seq<Blob>, m: seq<nat>, p: seq<Blob>, c: seq<Blob>)
    requires OldWalked(os, m, |os|, p) && NewWalked(ns, os, m, |ns|, c)
    ensures p == ShrunkOld(os, m) && c == ShrunkNew(ns, os, m)
  {
  }

  /** The current list c with the J > I walk past current blob j: each
      blob before j has met its fate, the session counter having been sid0. */
  predicate GrewTo(ns: seq<Blob>, os: seq<Blob>, f: seq<Option<nat>>, sid0: int, j: nat, c: seq<Blob>)
  {
    |c| == |ns| && |f| == |ns| && j <= |ns| &&
    (forall q {:trigger c[q]} :: 0 <= q < j ==>
      (f[q].Some? ==> f[q].value < |os|) && c[q] == Fate(ns[q], os, f[q], sid0 + FreshBefore(f, ns, q) + 1)) &&
    (forall q {:trigger c[q]} :: j <= q < |ns| ==> c[q] == ns[q])
  }

  lemma GrewStep(ns: seq<Blob>, os: seq<Blob>, f: seq<Option<nat>>, sid0: int, j: nat, c: seq<Blob>)
    requires GrewTo(ns, os, f, sid0, j, c) && j < |ns| && (f[j].Some? ==> f[j].value < |os|)
    ensures GrewTo(ns, os, f, sid0, j + 1, c[j := Fate(ns[j], os, f[j], sid0 + FreshBefore(f, ns, j) + 1)])
    ensures FreshBefore(f, ns, j + 1) == FreshBefore(f, ns, j) + (if f[j].None? && ns[j].aboveThresh then 1 else 0)
  {
    var c' := c[j := Fate(ns[j], os, f[j], sid0 + FreshBefore(f, ns, j) + 1)];
    forall q | 0 <= q < j + 1
      ensures (f[q].Some? ==> f[q].value < |os|) && c'[q] == Fate(ns[q], os, f[q], sid0 + FreshBefore(f, ns, q) + 1)
    {
      var cq := c[q];
    }
    forall q | j + 1 <= q < |ns|
      ensures c'[q] == ns[q]
    {
      var cq := c[q];
    }
  }

  lemma GrewDone(ns: seq<Blob>, os: seq<Blob>, f: seq<Option<nat>>, sid0: int, c: seq<Blob>)
    requires GrewTo(ns, os, f, sid0, |ns|, c)
    ensures forall q :: 0 <= q < |f| && f[q].Some? ==> f[q].value < |os|
    ensures c == Grown(ns, os, f, sid0)
  {
    forall q | 0 <= q < |f| && f[q].Some?
      ensures f[q].value < |os|
    {
      var cq := c[q];
    }
    var g := Grown(ns, os, f, sid0);
    var sids := FreshSids(f, ns, sid0);
    forall q | 0 <= q < |ns|
      ensures c[q] == g[q]
    {
      assert sids[q] == sid0 + FreshBefore(f, ns, q) + 1;
    }
  }

  lemma FateOfNew(nb: Blob, os: seq<Blob>, fj: Option<nat>, sid: int)
    requires fj == None
    ensures Fate(nb, os, fj, sid) == Appear(nb, sid)
  {
  }

  /** With no old blob left the remaining fates are all new. */
  lemma NonesTail(f: seq<Option<nat>>, n: nat)
    requires f == Nones(n) && n > 0
    ensures f[0] == None && f[1..] == Nones(n - 1)
  {
  }

  /** The J > I case of `Relate`, with the facts its walk needs. */
  lemma GrowCase(ns: seq<Blob>, os: seq<Blob>, sid: int)
    requires |os| < |ns|
    ensures var f := GrowMatch(Xs(os), Xs(ns));
      GrowFacts(f, |ns|, |os|) &&
      Relate(ns, os, sid) == Related(Grown(ns, os, f, sid), os, sid + FreshBefore(f, ns, |ns|))
  {
    GrowMatchFacts(Xs(os), Xs(ns));
  }

  /** J == I relates the lists by index, which is the J < I walk with nothing to drop. */
  lemma EqualIsShrinkWithoutDrops(ns: seq<Blob>, os: seq<Blob>)
    requires |ns| == |os|
    ensures ShrinkMatch(Xs(os), Xs(ns)) == Identity(|ns|)
  {
    ShrinkNothingToDrop(Xs(os), Xs(ns), 0, 0);
  }

  /** Relating keeps the sessions of a tracked old list distinct among the
      blobs that are not IGNORED, and never lowers the counter. */
  lemma RelateKeepsSessions(ns: seq<Blob>, os: seq<Blob>, sid: nat)
    requires Tracked(os, sid)
    ensures TrackedKept(Relate(ns, os, sid).curr, Relate(ns, os, sid).sid) && Relate(ns, os, sid).sid >= sid
  {
    var r := Relate(ns, os, sid);
    if |ns| < |os| {
      ShrinkKeepsSessions(ns, os, sid);
    } else if |ns| == |os| {
      EqualIsShrinkWithoutDrops(ns, os);
      ShrinkKeepsSessions(ns, os, sid);
    } else {
      GrowKeepsSessions(ns, os, sid);
    }
  }

  /** Relating keeps every position and polarity. */
  lemma RelateKeepsPlaces(ns: seq<Blob>, os: seq<Blob>, sid: int)
    requires Placed(ns)
    ensures Placed(Relate(ns, os, sid).curr)
  {
    var r := Relate(ns, os, sid);
    forall j | 0 <= j < |ns| ensures r.curr[j].x == ns[j].x && r.curr[j].pid == ns[j].pid {
      if |ns| > |os| {
        GrowMatchFacts(Xs(os), Xs(ns));
        GrownAt(ns, os, GrowMatch(Xs(os), Xs(ns)), sid, j);
      }
    }
  }

  /** Relating changes old blobs only by marking them DISAPPEARED, so they
      keep their groups. */
  lemma RelateKeepsGroups(ns: seq<Blob>, os: seq<Blob>, sid: int, n: nat)
    requires Grouped(os, n)
    ensures Grouped(Relate(ns, os, sid).prior, n)
  {
  }

  // ---------------------------------------------------------------------
  // Compaction

  /** The blobs that are not IGNORED, in their original order. */
  function Survivors(s: seq<Blob>): (r: seq<Blob>)
    ensures |r| <= |s|
  {
    if s == [] then []
    else Survivors(s[..|s| - 1]) + (if s[|s| - 1].state == Ignored then [] else [s[|s| - 1]])
  }

  /** Compaction is stable: it distributes over concatenation, so the
      survivors of a list keep their relative order. */
  lemma {:induction false} SurvivorsAppend(a: seq<Blob>, b: seq<Blob>)
    ensures Survivors(a + b) == Survivors(a) + Survivors(b)
    decreases |b|
  {
    if b != [] {
      var b' := b[..|b| - 1];
      assert (a + b)[..|a + b| - 1] == a + b';
      SurvivorsAppend(a, b');
    } else {
      assert a + b == a;
    }
  }

  /** A blob survives iff it was in the list and not IGNORED. */
  lemma {:induction false} SurvivorsMembers(s: seq<Blob>, b: Blob)
    ensures b in Survivors(s) <==> b in s && b.state != Ignored
  {
    if s != [] {
      SurvivorsMembers(s[..|s| - 1], b);
      assert s == s[..|s| - 1] + [s[|s| - 1]];
    }
  }

  function CountIgnored(s: seq<Blob>): nat
  {
    if s == [] then 0 else CountIgnored(s[..|s| - 1]) + (if s[|s| - 1].state == Ignored then 1 else 0)
  }

  /** The new count is the number of blobs that are not IGNORED. */
  lemma {:induction false} SurvivorsCount(s: seq<Blob>)
    ensures |Survivors(s)| + CountIgnored(s) == |s|
  {
    if s != [] {
      SurvivorsCount(s[..|s| - 1]);
    }
  }

  /** A list without IGNORED blobs is left as it is. */
  lemma {:induction false} SurvivorsOfKept(s: seq<Blob>)
    requires forall k :: 0 <= k < |s| ==> s[k].state != Ignored
    ensures Survivors(s) == s
  {
    if s != [] {
      SurvivorsOfKept(s[..|s| - 1]);
    }
  }

  /** Compaction turns a list tracked among its kept blobs into a tracked list. */
  lemma {:induction false} SurvivorsTracked(s: seq<Blob>, sidMax: int)
    requires TrackedKept(s, sidMax)
    ensures Tracked(Survivors(s), sidMax)
  {
    if s != [] {
      var s' := s[..|s| - 1];
      SurvivorsTracked(s', sidMax);
      var last := s[|s| - 1];
      if last.state != Ignored {
        forall b | b in Survivors(s') ensures b.sid != last.sid {
          SurvivorsMembers(s', b);
          var k :| 0 <= k < |s'| && s'[k] == b;
          assert s[k] == b;
        }
        var r := Survivors(s);
        assert r == Survivors(s') + [last];
        forall p, q | 0 <= p < q < |r| ensures r[p].sid != r[q].sid {
          if q == |r| - 1 {
            assert r[p] in Survivors(s');
          }
        }
      }
    }
  }

  /** Survivors keep the position of a blob of the list they came from. */
  lemma {:induction false} SurvivorsPositions(s: seq<Blob>, lo: real, hi: real)
    requires forall k :: 0 <= k < |s| ==> lo <= s[k].x <= hi
    ensures forall k :: 0 <= k < |Survivors(s)| ==> lo <= Survivors(s)[k].x <= hi
  {
    forall k | 0 <= k < |Survivors(s)| ensures lo <= Survivors(s)[k].x <= hi {
      SurvivorsMembers(s, Survivors(s)[k]);
    }
  }
}

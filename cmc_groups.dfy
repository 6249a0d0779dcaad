/** The group (zone) table and the classification of blobs into groups
    (cmc/cmc.c:496-530, 616-654): each blob goes to the first group in
    table order that accepts its polarity and position; a blob that moves
    to a different group is given a new session and its old session ends. */
module Groups {
  import opened CmcTypes
  import Match

  /** A group accepts a blob when the blob's polarity bits are among the
      group's and the position lies in [x0, x1], both ends included. */
  predicate Accepts(g: Group, pid: bv16, x: real)
  {
    pid & g.pid == pid && g.x0 <= x <= g.x1
  }

  /** The first group from index k on that accepts (pid, x). */
  function FirstFrom(gs: seq<Group>, pid: bv16, x: real, k: nat): (r: Option<nat>)
    requires k <= |gs|
    ensures r.Some? ==> k <= r.value < |gs|
    decreases |gs| - k
  {
    if k == |gs| then None
    else if Accepts(gs[k], pid, x) then Some(k)
    else FirstFrom(gs, pid, x, k + 1)
  }

  /** The group found accepts the blob and none before it does; when none
      is found, no group from k on accepts it. */
  lemma {:induction false} FirstFromFinds(gs: seq<Group>, pid: bv16, x: real, k: nat)
    requires k <= |gs|
    ensures var r := FirstFrom(gs, pid, x, k);
      (r.Some? ==> Accepts(gs[r.value], pid, x) && forall t :: k <= t < r.value ==> !Accepts(gs[t], pid, x)) &&
      (r.None? ==> forall t :: k <= t < |gs| ==> !Accepts(gs[t], pid, x))
    decreases |gs| - k
  {
    if k < |gs| && !Accepts(gs[k], pid, x) {
      FirstFromFinds(gs, pid, x, k + 1);
    }
  }

  function FirstGroup(gs: seq<Group>, pid: bv16, x: real): Option<nat>
  {
    FirstFrom(gs, pid, x, 0)
  }

  /** The position relative to the group, `(x - x0) * m`, computed only when
      the group is not the identity zone. */
  function Rescale(g: Group, x: real): real
  {
    if g.x0 != 0.0 || g.m != 1.0 then (x - g.x0) * g.m else x
  }

  /** Every position in [0,1] of either pole finds a group. */
  ghost predicate CoversUnit(gs: seq<Group>)
  {
    forall x: real :: 0.0 <= x <= 1.0 ==> FirstGroup(gs, NORTH, x).Some? && FirstGroup(gs, SOUTH, x).Some?
  }

  /** The table after `cmc_group_clear`. */
  function Cleared(n: nat): (r: seq<Group>)
  {
    seq(n, k requires 0 <= k < n => Group(k, BOTH, 0.0, 1.0, 1.0))
  }

  /** The group stored by `cmc_group_set`. */
  function Configured(gid: nat, pid: bv16, x0: real, x1: real): (g: Group)
    requires x0 < x1
  {
    Group(gid, pid, x0, x1, 1.0 / (x1 - x0))
  }

  /** A group whose range is proper and whose scale maps it onto [0,1]. */
  predicate Proper(g: Group)
  {
    g.x0 < g.x1 && g.m == 1.0 / (g.x1 - g.x0)
  }

  /** The table invariant: each row knows its own index and is proper. */
  predicate Table(gs: seq<Group>)
  {
    forall k :: 0 <= k < |gs| ==> gs[k].gid == k && Proper(gs[k])
  }

  /** The cleared table is a table, and every single-pole blob at a
      position in [0,1] lands in group 0 with its position unchanged. */
  lemma ClearedClassifies(n: nat, pid: bv16, x: real)
    requires n >= 1 && (pid == NORTH || pid == SOUTH) && 0.0 <= x <= 1.0
    ensures Table(Cleared(n))
    ensures FirstGroup(Cleared(n), pid, x) == Some(0)
    ensures Rescale(Cleared(n)[0], x) == x
  {
    assert Accepts(Cleared(n)[0], pid, x);
  }

  lemma ClearedCovers(n: nat)
    requires n >= 1
    ensures CoversUnit(Cleared(n))
  {
    forall x: real | 0.0 <= x <= 1.0
      ensures FirstGroup(Cleared(n), NORTH, x).Some? && FirstGroup(Cleared(n), SOUTH, x).Some?
    {
      ClearedClassifies(n, NORTH, x);
      ClearedClassifies(n, SOUTH, x);
    }
  }

  /** `cmc_group_get` after `cmc_group_set` returns the stored triple, and
      the stored scale maps the stored range onto [0,1]. */
  lemma ConfiguredRoundTrip(gid: nat, pid: bv16, x0: real, x1: real)
    requires x0 < x1
    ensures var g := Configured(gid, pid, x0, x1);
      (g.gid, g.pid, g.x0, g.x1) == (gid, pid, x0, x1) && Proper(g)
    ensures Rescale(Configured(gid, pid, x0, x1), x0) == 0.0
    ensures Rescale(Configured(gid, pid, x0, x1), x1) == 1.0
  {
    var g := Configured(gid, pid, x0, x1);
    assert (x1 - x0) * g.m == 1.0;
  }

  /** A position accepted by a proper group rescales into [0,1]. */
  lemma RescaleIntoUnit(g: Group, x: real)
    requires Proper(g) && g.x0 <= x <= g.x1
    ensures 0.0 <= Rescale(g, x) <= 1.0
  {
    if g.x0 != 0.0 || g.m != 1.0 {
      var span := g.x1 - g.x0;
      assert g.m * span == 1.0;
      assert 0.0 <= (x - g.x0) * g.m;
      assert (x - g.x0) * g.m <= span * g.m;
    }
  }

  // ---------------------------------------------------------------------
  // Classification with session renewal

  /** The first old blob from index k on that carries session sid. */
  function FirstSid(os: seq<Blob>, sid: int, k: nat): (r: Option<nat>)
    requires k <= |os|
    ensures r.Some? ==> k <= r.value < |os| && os[r.value].sid == sid
    ensures r.Some? ==> forall t :: k <= t < r.value ==> os[t].sid != sid
    ensures r.None? ==> forall t :: k <= t < |os| ==> os[t].sid != sid
    decreases |os| - k
  {
    if k == |os| then None
    else if os[k].sid == sid then Some(k)
    else FirstSid(os, sid, k + 1)
  }

  /** The old list with the first blob of session sid marked DISAPPEARED. */
  function EndSession(os: seq<Blob>, sid: int): (r: seq<Blob>)
    ensures |r| == |os|
  {
    match FirstSid(os, sid, 0)
    case None => os
    case Some(i) => os[i := os[i].(state := Disappeared)]
  }

  /** One classification step: the blob, the old list and the session counter after it. */
  datatype Step = Step(blob: Blob, prior: seq<Blob>, sid: int)

  /** Whether classifying b into group g renews its session. */
  predicate Renews(b: Blob, g: nat)
  {
    b.group.Some? && b.group.value != g
  }

  function ClassifyBlob(b: Blob, os: seq<Blob>, sid: int, gs: seq<Group>): (r: Step)
  {
    match FirstGroup(gs, b.pid, b.x)
    case None => Step(b, os, sid)
    case Some(g) =>
      var renewed := if Renews(b, g) then b.(sid := sid + 1, state := Appeared) else b;
      Step(renewed.(group := Some(g), x := Rescale(gs[g], b.x)),
           if Renews(b, g) then EndSession(os, b.sid) else os,
           if Renews(b, g) then sid + 1 else sid)
  }

  /** The classified first k blobs of cs, with the old list and the session
      counter after them. */
  datatype Pass = Pass(blobs: seq<Blob>, prior: seq<Blob>, sid: int)

  function ClassifyUpTo(cs: seq<Blob>, os: seq<Blob>, sid: int, gs: seq<Group>, k: nat): (r: Pass)
    requires k <= |cs|
    ensures |r.blobs| == k
  {
    if k == 0 then Pass([], os, sid)
    else
      var r := ClassifyUpTo(cs, os, sid, gs, k - 1);
      var st := ClassifyBlob(cs[k - 1], r.prior, r.sid, gs);
      Pass(r.blobs + [st.blob], st.prior, st.sid)
  }

  /** Every step changes only the state of old blobs, to DISAPPEARED. */
  predicate StatesOnly(os: seq<Blob>, os': seq<Blob>)
  {
    |os'| == |os| && forall i :: 0 <= i < |os| ==> os'[i] == os[i] || os'[i] == os[i].(state := Disappeared)
  }

  lemma {:induction false} ClassifyShape(cs: seq<Blob>, os: seq<Blob>, sid: int, gs: seq<Group>, k: nat)
    requires k <= |cs|
    ensures var r := ClassifyUpTo(cs, os, sid, gs, k);
      |r.blobs| == k && StatesOnly(os, r.prior) && r.sid >= sid
  {
    if k > 0 {
      ClassifyShape(cs, os, sid, gs, k - 1);
    }
  }

  /** Each blob ends in the first accepting group, rescaled by it, or is
      left as it was when no group accepts it; a blob that had a different
      group gets the next session id and is APPEARED. */
  lemma {:induction false} ClassifyPicksFirstGroup(cs: seq<Blob>, os: seq<Blob>, sid: int, gs: seq<Group>, k: nat, j: nat)
    requires j < k <= |cs|
    ensures var b, c := ClassifyUpTo(cs, os, sid, gs, k).blobs[j], cs[j];
      match FirstGroup(gs, c.pid, c.x)
      case None => b == c
      case Some(g) =>
        b.group == Some(g) && b.x == Rescale(gs[g], c.x) && b.pid == c.pid && b.p == c.p &&
        (Renews(c, g) ==> b.state == Appeared && b.sid == ClassifyUpTo(cs, os, sid, gs, j).sid + 1) &&
        (!Renews(c, g) ==> b.state == c.state && b.sid == c.sid)
  {
    ClassifyShape(cs, os, sid, gs, k - 1);
    if j < k - 1 {
      ClassifyPicksFirstGroup(cs, os, sid, gs, k - 1, j);
    }
  }

  /** Marking old blobs DISAPPEARED keeps their sessions, so the first old
      blob of a session is found at the same index. */
  lemma {:induction false} FirstSidKept(os: seq<Blob>, os': seq<Blob>, sid: int, k: nat)
    requires StatesOnly(os, os') && k <= |os|
    ensures FirstSid(os', sid, k) == FirstSid(os, sid, k)
    decreases |os| - k
  {
    if k < |os| {
      assert os'[k].sid == os[k].sid;
      FirstSidKept(os, os', sid, k + 1);
    }
  }

  /** When blob j changes group, the first old blob that carried its session
      is DISAPPEARED at every later point of the pass, so its off callback is
      sent in the same frame. */
  lemma {:induction false} RenewalEndsOldSession(cs: seq<Blob>, os: seq<Blob>, sid: int, gs: seq<Group>, k: nat, j: nat)
    requires j < k <= |cs|
    requires FirstGroup(gs, cs[j].pid, cs[j].x).Some? && Renews(cs[j], FirstGroup(gs, cs[j].pid, cs[j].x).value)
    requires FirstSid(os, cs[j].sid, 0).Some?
    ensures var p := ClassifyUpTo(cs, os, sid, gs, k).prior;
      |p| == |os| && p[FirstSid(os, cs[j].sid, 0).value].state == Disappeared
  {
    ClassifyShape(cs, os, sid, gs, k);
    ClassifyShape(cs, os, sid, gs, k - 1);
    if k - 1 == j {
      FirstSidKept(os, ClassifyUpTo(cs, os, sid, gs, j).prior, cs[j].sid, 0);
    } else {
      RenewalEndsOldSession(cs, os, sid, gs, k - 1, j);
    }
  }

  /** The session counter grows by one per renewal, and every session it
      hands out is above every session handed out before. */
  lemma {:induction false} ClassifyKeepsSessions(cs: seq<Blob>, os: seq<Blob>, sid: int, gs: seq<Group>, k: nat)
    requires k <= |cs| && Match.Tracked(cs, sid)
    ensures var r := ClassifyUpTo(cs, os, sid, gs, k);
      |r.blobs| == k && r.sid >= sid && Match.Tracked(r.blobs + cs[k..], r.sid)
  {
    ClassifyShape(cs, os, sid, gs, k);
    if k > 0 {
      ClassifyKeepsSessions(cs, os, sid, gs, k - 1);
      var r := ClassifyUpTo(cs, os, sid, gs, k - 1);
      var s := r.blobs + cs[k - 1..];
      assert s[k - 1] == cs[k - 1];
      var st := ClassifyBlob(cs[k - 1], r.prior, r.sid, gs);
      var s' := r.blobs + [st.blob] + cs[k..];
      assert s' == s[k - 1 := st.blob];
      TrackedReplace(s, k - 1, st.blob, r.sid, st.sid);
    }
  }

  /** Replacing one blob of a tracked list by its classified self, or by a
      blob with a session newer than all, keeps the list tracked. */
  lemma TrackedReplace(s: seq<Blob>, k: nat, b: Blob, sid: int, sid': int)
    requires k < |s| && Match.Tracked(s, sid)
    requires (sid' == sid && b.sid == s[k].sid && (b.state == Appeared || b.state == Existed)) ||
             (sid' == sid + 1 && b.sid == sid' && b.state == Appeared)
    ensures Match.Tracked(s[k := b], sid')
  {
    var s' := s[k := b];
    forall p, q | 0 <= p < q < |s'| ensures s'[p].sid != s'[q].sid {
      assert Match.Live(s[p], sid) && Match.Live(s[q], sid);
    }
    forall t | 0 <= t < |s'| ensures Match.Live(s'[t], sid') {
      assert Match.Live(s[t], sid);
    }
  }

  /** With a covering table every blob of a placed list gets a group, and
      with a proper table its rescaled position stays in [0,1]. */
  lemma ClassifyGroupsEveryBlob(cs: seq<Blob>, os: seq<Blob>, sid: int, gs: seq<Group>)
    requires CoversUnit(gs) && Table(gs) && Placed(cs)
    ensures var r := ClassifyUpTo(cs, os, sid, gs, |cs|);
      Grouped(r.blobs, |gs|) && Placed(r.blobs)
  {
    var r := ClassifyUpTo(cs, os, sid, gs, |cs|);
    forall j | 0 <= j < |cs|
      ensures r.blobs[j].group.Some? && r.blobs[j].group.value < |gs|
      ensures 0.0 <= r.blobs[j].x <= 1.0 && (r.blobs[j].pid == NORTH || r.blobs[j].pid == SOUTH)
    {
      ClassifyPicksFirstGroup(cs, os, sid, gs, |cs|, j);
      var c := cs[j];
      var fg := FirstGroup(gs, c.pid, c.x);
      assert fg.Some? by {
        assert c.pid == NORTH || c.pid == SOUTH;
      }
      FirstFromFinds(gs, c.pid, c.x, 0);
      RescaleIntoUnit(gs[fg.value], c.x);
    }
  }

  /** With the cleared table a pass over blobs that are new or already in
      group 0 puts every blob into group 0, keeps its position, renews no
      session and leaves the old list alone. */
  lemma {:induction false} ClearedPass(cs: seq<Blob>, os: seq<Blob>, sid: int, gs: seq<Group>, k: nat)
    requires gs == Cleared(|gs|) && |gs| >= 1 && k <= |cs| && Placed(cs)
    requires forall j :: 0 <= j < |cs| ==> cs[j].group == None || cs[j].group == Some(0)
    ensures var r := ClassifyUpTo(cs, os, sid, gs, k);
      r.sid == sid && r.prior == os && forall j :: 0 <= j < k ==> r.blobs[j] == cs[j].(group := Some(0))
  {
    if k > 0 {
      ClearedPass(cs, os, sid, gs, k - 1);
      var c := cs[k - 1];
      assert FirstGroup(gs, c.pid, c.x) == Some(0) && Rescale(gs[0], c.x) == c.x by {
        ClearedClassifies(|gs|, c.pid, c.x);
      }
      assert !Renews(c, 0);
      var st := ClassifyBlob(c, os, sid, gs);
      assert st == Step(c.(group := Some(0)), os, sid);
    }
  }
}

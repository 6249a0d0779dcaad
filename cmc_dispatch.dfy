/** The output stage of a frame (cmc/cmc.c:559-600): the engines of a
    NULL-terminated list are visited in order, and each receives a frame
    callback, an on or set callback per current blob and an off callback per
    disappeared old blob, skipping the callbacks it does not have. */
module Dispatch {
  import opened CmcTypes

  /** Every DISAPPEARED blob of the list points at a row of a table of n groups. */
  predicate GoneGrouped(os: seq<Blob>, n: nat)
  {
    forall k :: 0 <= k < |os| && os[k].state == Disappeared ==> os[k].group.Some? && os[k].group.value < n
  }

  /** The callback one current blob triggers: on for an APPEARED blob, set for any other. */
  function BlobEvent(e: Engine, b: Blob, gs: seq<Group>): seq<Event>
    requires b.group.Some? && b.group.value < |gs|
  {
    var gid := gs[b.group.value].gid;
    if b.state == Appeared then (if e.onCb then [OnEv(e.id, b.sid, gid, b.pid, b.x, b.p)] else [])
    else (if e.setCb then [SetEv(e.id, b.sid, gid, b.pid, b.x, b.p)] else [])
  }

  /** The on and set callbacks of one engine for the current blobs, in index order. */
  function BlobEvents(e: Engine, cs: seq<Blob>, gs: seq<Group>): seq<Event>
    requires Grouped(cs, |gs|)
  {
    if cs == [] then []
    else BlobEvents(e, cs[..|cs| - 1], gs) + BlobEvent(e, cs[|cs| - 1], gs)
  }

  /** The off callbacks of one engine for the DISAPPEARED old blobs, in index order. */
  function OffEvents(e: Engine, os: seq<Blob>, gs: seq<Group>): seq<Event>
    requires GoneGrouped(os, |gs|)
  {
    if os == [] then []
    else
      var b := os[|os| - 1];
      OffEvents(e, os[..|os| - 1], gs) +
      (if e.offCb && b.state == Disappeared then [OffEv(e.id, b.sid, gs[b.group.value].gid, b.pid)] else [])
  }

  /** Everything one engine receives in a frame. */
  function EngineEvents(e: Engine, fid: nat, now: nat, offset: nat, os: seq<Blob>, cs: seq<Blob>, gs: seq<Group>): seq<Event>
    requires Grouped(cs, |gs|) && GoneGrouped(os, |gs|)
  {
    (if e.frameCb then [FrameEv(e.id, fid, now, offset, |os|, |cs|)] else []) +
    BlobEvents(e, cs, gs) + OffEvents(e, os, gs)
  }

  /** Events appended to the trace in two parts are appended as one. */
  lemma AppendParts(t: seq<Event>, a: seq<Event>, b: seq<Event>)
    ensures t + a + b == t + (a + b)
  {
  }

  /** The number of engines visited from slot k on: up to the first NULL
      slot or the end of the list. */
  function Engaged(engines: seq<Option<Engine>>, max: nat, k: nat): (r: nat)
    requires k <= max <= |engines|
    ensures k <= r <= max
    decreases max - k
  {
    if k == max || engines[k].None? then k else Engaged(engines, max, k + 1)
  }

  /** The visited slots are filled, and the walk stops at the limit or at
      the first empty slot. */
  lemma {:induction false} EngagedStops(engines: seq<Option<Engine>>, max: nat, k: nat)
    requires k <= max <= |engines|
    ensures forall t :: k <= t < Engaged(engines, max, k) ==> engines[t].Some?
    ensures Engaged(engines, max, k) < max ==> engines[Engaged(engines, max, k)].None?
    decreases max - k
  {
    if k < max && engines[k].Some? {
      EngagedStops(engines, max, k + 1);
    }
  }

  /** The events of the first k engines, in engine order. */
  function EventsUpTo(engines: seq<Option<Engine>>, k: nat, fid: nat, now: nat, offset: nat,
                      os: seq<Blob>, cs: seq<Blob>, gs: seq<Group>): seq<Event>
    requires k <= |engines| && forall t :: 0 <= t < k ==> engines[t].Some?
    requires Grouped(cs, |gs|) && GoneGrouped(os, |gs|)
  {
    if k == 0 then []
    else EventsUpTo(engines, k - 1, fid, now, offset, os, cs, gs) +
         EngineEvents(engines[k - 1].value, fid, now, offset, os, cs, gs)
  }

  /** Visiting one more engine appends its events. */
  lemma EventsUpToStep(engines: seq<Option<Engine>>, k: nat, fid: nat, now: nat, offset: nat,
                       os: seq<Blob>, cs: seq<Blob>, gs: seq<Group>)
    requires k < |engines| && forall t :: 0 <= t <= k ==> engines[t].Some?
    requires Grouped(cs, |gs|) && GoneGrouped(os, |gs|)
    ensures EventsUpTo(engines, k + 1, fid, now, offset, os, cs, gs) ==
      EventsUpTo(engines, k, fid, now, offset, os, cs, gs) + EngineEvents(engines[k].value, fid, now, offset, os, cs, gs)
  {
  }

  /** The trace a dispatching frame appends. */
  function FrameEvents(engines: seq<Option<Engine>>, max: nat, fid: nat, now: nat, offset: nat,
                       os: seq<Blob>, cs: seq<Blob>, gs: seq<Group>): seq<Event>
    requires max <= |engines| && Grouped(cs, |gs|) && GoneGrouped(os, |gs|)
  {
    EngagedStops(engines, max, 0);
    EventsUpTo(engines, Engaged(engines, max, 0), fid, now, offset, os, cs, gs)
  }

  // ---------------------------------------------------------------------
  // Properties

  /** For an engine with both blob callbacks, event j is the on (APPEARED)
      or set (any other state) callback of current blob j. */
  lemma {:induction false} BlobEventsPerBlob(e: Engine, cs: seq<Blob>, gs: seq<Group>)
    requires Grouped(cs, |gs|) && e.onCb && e.setCb
    ensures |BlobEvents(e, cs, gs)| == |cs|
    ensures forall j :: 0 <= j < |cs| ==>
      BlobEvents(e, cs, gs)[j] ==
        (if cs[j].state == Appeared then OnEv(e.id, cs[j].sid, gs[cs[j].group.value].gid, cs[j].pid, cs[j].x, cs[j].p)
         else SetEv(e.id, cs[j].sid, gs[cs[j].group.value].gid, cs[j].pid, cs[j].x, cs[j].p))
  {
    if cs != [] {
      BlobEventsPerBlob(e, cs[..|cs| - 1], gs);
    }
  }

  /** An engine without blob callbacks gets no on or set event. */
  lemma {:induction false} BlobEventsSkipped(e: Engine, cs: seq<Blob>, gs: seq<Group>)
    requires Grouped(cs, |gs|) && !e.onCb && !e.setCb
    ensures BlobEvents(e, cs, gs) == []
  {
    if cs != [] {
      BlobEventsSkipped(e, cs[..|cs| - 1], gs);
    }
  }

  /** An engine without an off callback gets no off event. */
  lemma {:induction false} OffEventsSkipped(e: Engine, os: seq<Blob>, gs: seq<Group>)
    requires GoneGrouped(os, |gs|) && !e.offCb
    ensures OffEvents(e, os, gs) == []
  {
    if os != [] {
      OffEventsSkipped(e, os[..|os| - 1], gs);
    }
  }

  /** The DISAPPEARED old blobs, in index order. */
  function Gone(os: seq<Blob>): (r: seq<Blob>)
    ensures |r| <= |os|
    ensures forall t :: 0 <= t < |r| ==> r[t].state == Disappeared
  {
    if os == [] then []
    else Gone(os[..|os| - 1]) + (if os[|os| - 1].state == Disappeared then [os[|os| - 1]] else [])
  }

  /** An engine with an off callback gets one off event per DISAPPEARED
      old blob, in index order, each carrying that blob's session, group id
      and polarity; an engine without one gets none. */
  lemma {:induction false} OffEventsPerGone(e: Engine, os: seq<Blob>, gs: seq<Group>)
    requires GoneGrouped(os, |gs|)
    ensures GoneGrouped(Gone(os), |gs|)
    ensures !e.offCb ==> OffEvents(e, os, gs) == []
    ensures e.offCb ==>
      |OffEvents(e, os, gs)| == |Gone(os)| &&
      forall t :: 0 <= t < |Gone(os)| ==>
        OffEvents(e, os, gs)[t] == OffEv(e.id, Gone(os)[t].sid, gs[Gone(os)[t].group.value].gid, Gone(os)[t].pid)
  {
    if os != [] {
      var os', b := os[..|os| - 1], os[|os| - 1];
      OffEventsPerGone(e, os', gs);
      var g, g' := Gone(os), Gone(os');
      assert g == g' + (if b.state == Disappeared then [b] else []);
      if e.offCb {
        var r, r' := OffEvents(e, os, gs), OffEvents(e, os', gs);
        assert r == r' + (if b.state == Disappeared then [OffEv(e.id, b.sid, gs[b.group.value].gid, b.pid)] else []);
        forall t | 0 <= t < |g|
          ensures r[t] == OffEv(e.id, g[t].sid, gs[g[t].group.value].gid, g[t].pid)
        {
          if t < |g'| {
            assert g[t] == g'[t] && r[t] == r'[t];
          }
        }
      }
    }
  }

  /** Every event of engine k comes after every event of the engines before it. */
  lemma {:induction false} EventsInEngineOrder(engines: seq<Option<Engine>>, k: nat, k': nat, fid: nat, now: nat, offset: nat,
                                               os: seq<Blob>, cs: seq<Blob>, gs: seq<Group>)
    requires k <= k' <= |engines| && forall t :: 0 <= t < k' ==> engines[t].Some?
    requires Grouped(cs, |gs|) && GoneGrouped(os, |gs|)
    ensures EventsUpTo(engines, k, fid, now, offset, os, cs, gs) <= EventsUpTo(engines, k', fid, now, offset, os, cs, gs)
    decreases k' - k
  {
    if k < k' {
      EventsInEngineOrder(engines, k, k' - 1, fid, now, offset, os, cs, gs);
    }
  }

  /** Every visited engine contributes its frame event first. */
  lemma EngineStartsWithFrame(e: Engine, fid: nat, now: nat, offset: nat, os: seq<Blob>, cs: seq<Blob>, gs: seq<Group>)
    requires Grouped(cs, |gs|) && GoneGrouped(os, |gs|) && e.frameCb
    ensures EngineEvents(e, fid, now, offset, os, cs, gs)[0] == FrameEv(e.id, fid, now, offset, |os|, |cs|)
  {
  }

  /** A list without NULL slots is visited up to the limit. */
  lemma {:induction false} EngagedAll(engines: seq<Option<Engine>>, max: nat, k: nat)
    requires k <= max <= |engines| && forall t :: k <= t < max ==> engines[t].Some?
    ensures Engaged(engines, max, k) == max
    decreases max - k
  {
    if k < max {
      EngagedAll(engines, max, k + 1);
    }
  }
}

/** Values shared by the blob tracking engine (cmc): polarities, blob
    lifecycle states, blobs, groups (zones), engines and the events the
    engines receive. */
module CmcTypes {

  datatype Option<+T> = None | Some(value: T)

  /** Polarity bit masks of a blob and of a group.  The numeric values come
      from cmc.h, which is not part of this model; the model relies only on
      BOTH being the union of the two disjoint single-pole masks. */
  const NORTH: bv16 := 0x80
  const SOUTH: bv16 := 0x100
  const BOTH: bv16 := 0x180

  /** The pole recorded per sensor during the area-of-interest scan. */
  datatype Pole = PoleNorth | PoleSouth

  datatype BlobState = Invalid | Appeared | Disappeared | Existed | Ignored

  /** One contact of one frame.  `group` is the index of the group in the
      group table (the source keeps a pointer into that table; NULL is None). */
  datatype Blob = Blob(
    sid: int,
    pid: bv16,
    group: Option<nat>,
    x: real,
    p: real,
    aboveThresh: bool,
    state: BlobState)

  /** One row of the group table. */
  datatype Group = Group(gid: nat, pid: bv16, x0: real, x1: real, m: real)

  datatype EngineId = Tuio2 | Tuio1 | Scsynth | Oscmidi | Dummy | Rtpmidi

  /** An output engine: which of its callbacks are present. */
  datatype Engine = Engine(id: EngineId, frameCb: bool, onCb: bool, setCb: bool, offCb: bool)

  /** One engine callback invocation, recorded in the trace. */
  datatype Event =
    | FrameEv(engine: EngineId, fid: nat, now: nat, offset: nat, oldCount: nat, newCount: nat)
    | OnEv(engine: EngineId, sid: int, gid: nat, pid: bv16, x: real, p: real)
    | SetEv(engine: EngineId, sid: int, gid: nat, pid: bv16, x: real, p: real)
    | OffEv(engine: EngineId, sid: int, gid: nat, pid: bv16)

  /** The `y < 0 ? 0 : (y > 1 ? 1 : y)` clamp applied to every magnitude and
      to the final position and intensity. */
  function Clamp01(y: real): (r: real)
    ensures 0.0 <= r <= 1.0
    ensures 0.0 <= y <= 1.0 ==> r == y
    ensures y < 0.0 ==> r == 0.0
    ensures y > 1.0 ==> r == 1.0
  {
    if y < 0.0 then 0.0 else if y > 1.0 then 1.0 else y
  }

  function Abs(r: real): (a: real)
    ensures a >= 0.0 && (a == r || a == -r)
  {
    if r < 0.0 then -r else r
  }

  /** The positions of a blob list, in list order. */
  function Xs(s: seq<Blob>): (r: seq<real>)
    ensures |r| == |s| && forall k :: 0 <= k < |s| ==> r[k] == s[k].x
  {
    seq(|s|, k requires 0 <= k < |s| => s[k].x)
  }

  /** A blob list as the scan builds it: every position in [0,1] and
      every polarity a single pole. */
  predicate Placed(s: seq<Blob>)
  {
    forall k :: 0 <= k < |s| ==> 0.0 <= s[k].x <= 1.0 && (s[k].pid == NORTH || s[k].pid == SOUTH)
  }

  /** Every blob of the list points at a row of a table of n groups. */
  predicate Grouped(s: seq<Blob>, n: nat)
  {
    forall k :: 0 <= k < |s| ==> s[k].group.Some? && s[k].group.value < n
  }
}

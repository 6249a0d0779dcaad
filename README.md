# chimaera tracker and W5200 SPI-DMA driver in Dafny

This project models two parts of the chimaera firmware and proves properties
of the models.

**The contact tracker `cmc/cmc.c`.** The tracker takes one frame of
hall-effect sensor readings per call (`cmc_process`). It then:

1. finds the areas of interest: sensors whose reading passes the threshold;
2. finds the peaks among them: local maxima of the normalised levels;
3. builds one blob per peak, with a position and a pressure (interpolation
   strategy 0-3, clamped to [0, 1]);
4. relates the new blobs to the old ones with one of three matching walks,
   chosen by whether there are fewer, equally many or more new blobs;
5. drops the IGNORED blobs;
6. assigns every blob to the first group whose polarity and range accept it,
   giving it a fresh session when its group changed;
7. advances the idle heartbeat pacer;
8. when the frame is busy or a heartbeat is due, hands a frame, on, set and
   off callback to each registered engine;
9. finally swaps the double buffer.

The tracker state is the class `Cmc.Tracker`. Its arrays `v`, `x`, `n`, `a`,
`aoi`, `peaks`, `groups` and the two blob buffers `prev` and `curr` are
updated in place, and the engine callbacks are recorded in the
field `trace`. Each phase is a method proved against a pure specification
function in its own module:

| module | phase |
|---|---|
| `Scan` | areas and peaks |
| `Interp` | blob construction |
| `Match` | the matching walks and compaction |
| `Groups` | group classification and the group table |
| `Pacer` | the heartbeat |
| `Dispatch` | the callback order |

**The driver `dma_udp/dma_udp.c`.** The driver talks to a WIZnet W5200
Ethernet chip. Every register access is one SPI transaction: a four-byte
header (address, opcode bit and 15-bit length) followed by the data. The
transaction is framed in a static 2048-byte transmit buffer and exchanged
by DMA with a receive buffer of the same size. UDP send and receive copy a
payload into or out of the socket's circular buffer, in one or two runs,
then advance the socket's write or read pointer modulo 2^16 and issue the
SEND or RECV command.

`W5200` is the pure protocol:
- the header and its decoding;
- socket-relative addresses;
- big-endian 16-bit registers;
- the ring split.

The chip is modelled as a 2^16-byte memory that serves frames.
`DmaUdp.Link` is the driver, with its two buffers as arrays and the chip
memory as a field.

Peak detection (cmc/cmc.c:121-145) walks the areas of interest from the
second one on. A frame with a single sensor over its threshold therefore
yields no peak and no blob, as `Scan.PeakListCount` states.

## Model

| member | source | states |
|---|---|---|
| CmcTypes.Clamp01 | cmc/cmc.c:342-343 | the result lies in [0, 1]; it equals the input inside the unit interval, 0 below it and 1 above it |
| Scan.AoiUpTo | cmc/cmc.c:95-104 | the areas of interest of the first k sensors are at most k sensor indexes, each between 1 and k |
| Scan.AoiMembers | cmc/cmc.c:97-104 | an index is an area of interest exactly when it is a sensor index whose reading passes its threshold (both directions) |
| Scan.AoiAscending | cmc/cmc.c:97-104 | the areas of interest are strictly ascending |
| Scan.AoiPrefix | cmc/cmc.c:97-104 | scanning more sensors only appends areas: the list for k sensors is a prefix of the list for k' >= k |
| Scan.PeaksCount | cmc/cmc.c:125-145 | after k areas there are at most k-1 peaks |
| Scan.PeakListCount | cmc/cmc.c:121-145 | a list of n areas yields at most n-1 peaks, and fewer than two areas yield no peak at all |
| Scan.PeaksGrow | cmc/cmc.c:125-145 | the peaks found after k areas are a prefix of those found after k' >= k areas |
| Scan.UpAfterRise | cmc/cmc.c:130-144 | while the walk is rising, the level at the previous area is at most the level at the current one |
| Scan.PeaksAreLocalMaxima | cmc/cmc.c:130-136 | every reported peak is a local maximum of the levels among its neighbouring areas |
| Scan.PeaksAscendingUpTo | cmc/cmc.c:125-145 | the peaks are strictly ascending and lie before the current area |
| Scan.PeakListAscending | cmc/cmc.c:121-145 | the final peaks are strictly ascending, are areas of interest and come before the last area |
| Scan.PlateauKeepsDirection | cmc/cmc.c:130-144 | along a run of equal levels the rising/falling direction does not change |
| Scan.ScanPeaksInRange | cmc/cmc.c:95-145 | the areas index the level vector and ascend, and every peak P has both neighbours P-1 and P+1 inside the vector (1 <= P and P+2 <= SENSOR_N+1) |
| Scan.Up | cmc/cmc.c:125-144 | reference definition of the run direction `up` when the walk reaches area k: it starts rising, a strict descent turns it falling, a strict ascent rising again, equal levels keep it |
| Scan.PeaksUpTo | cmc/cmc.c:125-145 | reference definition of the peaks emitted by the first k areas: the area before a strict descent taken while rising, in walk order |
| Scan.PeakList | cmc/cmc.c:121-145 | reference definition of a scan's peak list: no peak without areas, otherwise the peaks of the whole walk |
| Interp.CurveIndex | cmc/cmc.c:166 | the calibration index of a level y in [0, 1] is the integer part of y·2047, hence at most 0x7FF |
| Interp.CurveIndexRange | cmc/cmc.c:163-166 | a clamped level always indexes the curve: levels at or above 1 give 0x7FF, levels at or below 0 give 0 |
| Interp.CubicSlots | cmc/cmc.c:263-282 | the four slots read by cubic interpolation, corrected to lie inside the level vector; they agree with the slots of the code wherever those are not negative |
| Interp.Point | cmc/cmc.c:342-343 | every strategy yields a position and a pressure in [0, 1], namely the clamped raw interpolation |
| Interp.NewBlob | cmc/cmc.c:345-352 | a new blob has sid -1, no group, state INVALID, NORTH or SOUTH polarity from the pole flag, the above-threshold flag of its peak, and the clamped position and pressure |
| Interp.BlobsSnoc | cmc/cmc.c:150-355 | the blob list for the first p+1 peaks is that for the first p peaks followed by the blob of peak p |
| Interp.BlobsFresh | cmc/cmc.c:345-352 | every newly built blob is placed in [0, 1] with a NORTH or SOUTH polarity, has no session and no group, is INVALID, and carries its peak's above-threshold flag |
| Interp.NearestPoint | cmc/cmc.c:159-171 | nearest-neighbour interpolation gives the sensor position and the calibrated level of the peak sensor |
| Interp.ParabolicFlatFallback | cmc/cmc.c:236-240 | when the parabola's divisor is zero, parabolic interpolation gives the nearest-neighbour result |
| Interp.CubicFlatFallback | cmc/cmc.c:313-316 | when the cubic's leading coefficient is zero, the result is the left neighbour for a left-heavy window and the peak sensor otherwise |
| Interp.CubicReadsBeforeVector | cmc/cmc.c:263-270 | for the frame rela [100, 0, 50, 0] the first area is a peak at P = 1 whose left-heavy cubic window reads slot P-2 = -1 as written; the corrected slot is 0 |
| Interp.RawPoint | cmc/cmc.c:157-338 | reference definition of the unclamped position and pressure per strategy: the nearest sensor, the formula over the heavier side, or the formula over the three- or four-sample window, with the nearest-sensor fallback on a zero parabolic or cubic divisor |
| Interp.CubicSlotsAsWritten | cmc/cmc.c:263-282 | the four level slots cubic interpolation reads as written, `P-2 .. P+1` for a left-heavy window and `P-1 .. P+2` otherwise |
| Match.ShrinkShape | cmc/cmc.c:370-399 | the fewer-new walk matches every new blob with an old one, the partners increase strictly, and all lie in the old list |
| Match.ShrinkDisappears | cmc/cmc.c:368-406 | with fewer new blobs the match is strictly increasing into the old list, and exactly \|old\| - \|new\| old blobs stay unmatched, the ones marked DISAPPEARED |
| Match.ShrinkTieMatches | cmc/cmc.c:376-398 | on a distance tie the walk keeps the current old blob instead of skipping it |
| Match.ShrinkNothingToDrop | cmc/cmc.c:408-418 | once nothing is left to drop, the rest is matched one to one in order |
| Match.GrowShape | cmc/cmc.c:422-457 | the more-new walk gives every new blob a partner or none, its partners are the remaining old blobs in order, and exactly `more` new blobs get none |
| Match.GrowAscending | cmc/cmc.c:424-457 | the partners chosen by the more-new walk increase strictly |
| Match.GrowMatchesEveryOld | cmc/cmc.c:420-473 | with more new blobs every old blob is matched exactly once, in order, and \|new\| - \|old\| new blobs are unmatched |
| Match.GrowTieMatches | cmc/cmc.c:428-456 | on a distance tie the more-new walk matches the current new blob |
| Match.ShrinkKeepsSessions | cmc/cmc.c:368-406 | relating fewer new blobs to a tracked list gives tracked new blobs: each is APPEARED or EXISTED, with a session between 1 and the counter, and no two share a session |
| Match.GrowKeepsSessions | cmc/cmc.c:420-473 | relating more new blobs gives the non-IGNORED ones distinct live sessions, and the counter grows by the number of fresh APPEARED blobs |
| Match.EqualCase | cmc/cmc.c:408-418 | with equally many blobs, new blob j inherits from old blob j and the old list is unchanged |
| Match.EqualIsShrinkWithoutDrops | cmc/cmc.c:408-418 | the equal case is the fewer-new walk with nothing to drop, i.e. the identity match |
| Match.RelateKeepsSessions | cmc/cmc.c:366-474 | in all three cases, relating to a tracked old list gives distinct live sessions to the non-IGNORED new blobs, and the session counter never decreases |
| Match.RelateKeepsPlaces | cmc/cmc.c:366-474 | relating keeps the new blobs' positions in [0, 1] and their polarities |
| Match.RelateKeepsGroups | cmc/cmc.c:366-474 | relating keeps every old blob's group inside the group table |
| Match.SurvivorsAppend | cmc/cmc.c:479-491 | compaction of a concatenation is the concatenation of the compactions |
| Match.SurvivorsMembers | cmc/cmc.c:479-491 | a blob survives compaction exactly when it is in the list and not IGNORED |
| Match.SurvivorsCount | cmc/cmc.c:479-491 | survivors plus IGNORED blobs account for the whole list |
| Match.SurvivorsOfKept | cmc/cmc.c:479-491 | a list without IGNORED blobs is unchanged by compaction |
| Match.SurvivorsTracked | cmc/cmc.c:479-491 | after compaction every blob has a live session and no two share one |
| Match.SurvivorsPositions | cmc/cmc.c:479-491 | compaction keeps positions within any bounds that held before |
| Match.ShrinkFrom | cmc/cmc.c:372-399 | reference definition of the fewer-new walk: the old index each current blob is matched with, an old blob being dropped only while drops remain and the current blob is strictly closer to the next old one |
| Match.GrowFrom | cmc/cmc.c:424-470 | reference definition of the more-new walk: each current blob is matched with an old one or is new, a blob being new only while appearances remain and the next current blob is strictly closer to the old one; blobs past the last old one are new |
| Match.Relate | cmc/cmc.c:366-474 | reference definition of the correspondence step on the sign of J - I, keeping the lengths of both lists |
| Match.Survivors | cmc/cmc.c:479-491 | reference definition of compaction: the blobs that are not IGNORED, in order, never more than the list |
| Groups.FirstFrom | cmc/cmc.c:501-505 | the group found searching from k, if any, is at or after k and inside the table |
| Groups.FirstFromFinds | cmc/cmc.c:501-528 | the group found accepts the blob's polarity and position and no earlier group does; when none is found, no group from k on accepts it |
| Groups.ClearedClassifies | cmc/cmc.c:616-629 | the cleared table accepts every NORTH or SOUTH blob in [0, 1] in group 0, without rescaling |
| Groups.ClearedCovers | cmc/cmc.c:616-629 | the cleared table covers both poles over [0, 1] |
| Groups.ConfiguredRoundTrip | cmc/cmc.c:631-654 | a group set from (pid, x0, x1) reads back the same values, and its rescaling maps x0 to 0 and x1 to 1 |
| Groups.RescaleIntoUnit | cmc/cmc.c:524-525 | rescaling by a proper group maps its range into [0, 1] |
| Groups.FirstSid | cmc/cmc.c:510-515 | the first old blob with the given session, if any, has it, and no earlier one does; when none is found, no old blob has it |
| Groups.ClassifyShape | cmc/cmc.c:496-530 | classification keeps the number of blobs, changes old blobs only to DISAPPEARED, and never decreases the session counter |
| Groups.ClassifyPicksFirstGroup | cmc/cmc.c:496-530 | each blob gets the first accepting group and the rescaled position; on a group change it is APPEARED with the next session, otherwise its state and session are kept; a blob no group accepts is unchanged |
| Groups.ClassifyKeepsSessions | cmc/cmc.c:507-519 | classification keeps the sessions live and distinct over the whole list |
| Groups.ClassifyGroupsEveryBlob | cmc/cmc.c:496-530 | with a table covering [0, 1] for both poles, every blob ends up in a group of the table, at a position in [0, 1] |
| Groups.ClearedPass | cmc/cmc.c:496-530 | with the cleared table, classification only sets group 0: no session, state or old blob changes |
| Groups.FirstGroup | cmc/cmc.c:501-505 | reference definition of the group search: the first group of the table that accepts the blob |
| Groups.Rescale | cmc/cmc.c:524-525 | reference definition of the group scaling `(x - x0) * m`, skipped when x0 is 0 and m is 1 |
| Groups.EndSession | cmc/cmc.c:509-515 | reference definition of ending a session: the first old blob with the session is marked DISAPPEARED, the list keeps its length |
| Groups.ClassifyBlob | cmc/cmc.c:498-528 | reference definition of classifying one blob: the first accepting group, a new session and APPEARED on a group change with the old session ended, the rescaled position; no accepting group leaves it alone |
| Groups.ClassifyUpTo | cmc/cmc.c:496-530 | reference definition of the classification pass: the first k current blobs classified in order, each seeing the old list and session counter left by the ones before; one result per blob |
| Groups.RenewalEndsOldSession | cmc/cmc.c:507-519 | when a blob changes group, the first old blob that carried its session is DISAPPEARED at every later point of the classification pass |
| Pacer.BusyTick | cmc/cmc.c:361-364 | a busy frame resets the idle word and bit, and emits no heartbeat |
| Pacer.TickBounded | cmc/cmc.c:532-553 | the pacer keeps its word below 2^16 and its bit at most 16 |
| Pacer.IdleCadence | cmc/cmc.c:532-553 | after n idle frames (pacemaker <= 15) the pacer state is determined by n, and a heartbeat fires exactly on frame 2^k below 2^pacemaker and then every 2^pacemaker frames |
| Pacer.PacemakerThree | cmc/cmc.c:532-553 | with pacemaker 3 the heartbeats fall on idle frames 1, 2, 4 and every multiple of 8 |
| Pacer.Advance | cmc/cmc.c:541-553 | reference definition of the (not)advance step: a heartbeat when the word equals 2^bit; below the pacemaker it raises the bit, at it it clears the word |
| Pacer.Tick | cmc/cmc.c:361-364 | reference definition of one frame of the pacer: a busy frame resets both counters, an idle one bumps the 16-bit word, then the advance step |
| Dispatch.Engaged | cmc/cmc.c:565-570 | the engine walk stops between its start and the limit |
| Dispatch.EngagedStops | cmc/cmc.c:565-570 | every visited engine slot is filled, and the walk stops at the limit or at the first empty slot |
| Dispatch.EngagedAll | cmc/cmc.c:565-570 | a list without empty slots is visited up to the limit |
| Dispatch.EventsUpToStep | cmc/cmc.c:565-599 | visiting one more engine appends exactly its callbacks |
| Dispatch.BlobEventsPerBlob | cmc/cmc.c:575-589 | an engine with on and set callbacks gets one callback per current blob, in order: on for an APPEARED blob and set otherwise, with the blob's session, group id, polarity, position and pressure |
| Dispatch.BlobEventsSkipped | cmc/cmc.c:575-589 | an engine without on and set callbacks gets no blob event |
| Dispatch.Gone | cmc/cmc.c:592-598 | the DISAPPEARED old blobs in index order: no more of them than old blobs, and every one DISAPPEARED |
| Dispatch.OffEventsSkipped | cmc/cmc.c:592-598 | an engine without an off callback gets no off events |
| Dispatch.OffEventsPerGone | cmc/cmc.c:592-598 | an engine with an off callback gets, in index order, one off event per DISAPPEARED old blob, the t-th carrying the t-th such blob's session, its group's id and its polarity; one without gets none |
| Dispatch.EventsInEngineOrder | cmc/cmc.c:565-599 | the callbacks of earlier engines come before those of later ones |
| Dispatch.EngineStartsWithFrame | cmc/cmc.c:572-573 | an engine with a frame callback gets it first |
| Dispatch.BlobEvent | cmc/cmc.c:575-589 | reference definition of the callback one current blob triggers: on for an APPEARED blob, set for any other, each only when the engine has it |
| Dispatch.OffEvents | cmc/cmc.c:592-598 | reference definition of the off callbacks of one engine for the DISAPPEARED old blobs, in index order |
| Dispatch.EngineEvents | cmc/cmc.c:569-598 | reference definition of everything one engine receives: its frame callback, then the blob callbacks, then the off callbacks |
| Cmc.EnabledPrefix | cmc/cmc.c:664-685 | enabling engines in table order only appends: the list for the first k flags is a prefix of the list for k' >= k |
| Cmc.EnabledInOrder | cmc/cmc.c:664-688 | an engine is registered exactly when its flag is set, and registered engines keep the fixed engine order |
| Cmc.Track | cmc/cmc.c:366-530 | tracking (relate, compact, classify) gives blobs with distinct live sessions, each in a group of the table and at a position in [0, 1], never more blobs than were detected, and old blobs whose DISAPPEARED entries have a group |
| Cmc.Peaks | cmc/cmc.c:95-145 | every peak of a frame has both neighbours inside the level vector |
| Cmc.Detected | cmc/cmc.c:95-355 | a frame yields one fresh blob per peak (no session, no group, INVALID), each placed in [0, 1] |
| Cmc.TrackIdle | cmc/cmc.c:532-536 | a frame with no old and no new blobs leaves the lists and the session counter alone |
| Cmc.SensorX | cmc/cmc.c:75 | reference definition of the slot positions `d * i - d / 2` |
| Cmc.Tracker.constructor | cmc/cmc.c:60-87 | a new tracker is valid, with empty lists, I = J = fid = sid = 0 as `cmc_init` resets them, cleared groups, no engines and zero levels; all its arrays are fresh, so nothing else shares them, like the program's static storage |
| Cmc.Tracker.Init | cmc/cmc.c:71-86 | the slot and group part of `cmc_init` on counters the constructor has already reset: it sets sensor positions and zero levels, clears the group table and leaves the tracker valid |
| Cmc.Tracker.InitSlots | cmc/cmc.c:73-78 | the position array holds the sensor positions and every level is zero |
| Cmc.Tracker.GroupClear | cmc/cmc.c:615-629 | the group table becomes the default table: group 0 for both poles over [0, 1] |
| Cmc.Tracker.GroupGet | cmc/cmc.c:631-641 | returns success and the polarity and range of the group |
| Cmc.Tracker.GroupSet | cmc/cmc.c:643-654 | exactly group gid is replaced by the group of the given polarity and range; the tracker stays valid |
| Cmc.Tracker.EnginesUpdate | cmc/cmc.c:664-688 | the engine table lists the enabled engines in engine order, followed by the NULL terminator; the slots after it are untouched |
| Cmc.Tracker.Enlist | cmc/cmc.c:669-685 | one flag appends its engine to the table when set |
| Cmc.Tracker.ScanAreas | cmc/cmc.c:95-114 | the area array holds exactly the areas of interest, and the level, pole and above-threshold arrays are computed sensor by sensor |
| Cmc.Tracker.ScanSensors | cmc/cmc.c:97-114 | the loop over the sensors fills the area prefix and every level, pole and above-threshold slot |
| Cmc.Tracker.ScanSensor | cmc/cmc.c:99-113 | one sensor appends its index to the areas when flagged and updates only its own level, pole and above-threshold slots |
| Cmc.Tracker.DetectPeaks | cmc/cmc.c:121-145 | the peak array holds exactly the peaks of the areas |
| Cmc.Tracker.PeakStep | cmc/cmc.c:127-144 | one step of the peak walk advances the direction and the peak prefix to the next area |
| Cmc.Tracker.BuildBlobs | cmc/cmc.c:150-355 | the new buffer holds one blob per peak, as the construction specifies |
| Cmc.Tracker.BuildBlob | cmc/cmc.c:153-354 | one peak appends its blob |
| Cmc.Tracker.RelateLists | cmc/cmc.c:366-474 | the buffers after relating are the lists and counter of `Match.Relate`, in all three cases |
| Cmc.Tracker.RelateEqual | cmc/cmc.c:408-418 | the equal case in place |
| Cmc.Tracker.RelateShrink | cmc/cmc.c:368-406 | the fewer-new case in place, including the DISAPPEARED tail |
| Cmc.Tracker.DropTail | cmc/cmc.c:401-403 | the unvisited old blobs are marked DISAPPEARED; the new list is untouched |
| Cmc.Tracker.ShrinkStep | cmc/cmc.c:374-398 | one walk step keeps the walk invariant and makes progress |
| Cmc.Tracker.ShrinkDrop | cmc/cmc.c:382-389 | a closer next old blob drops the current one |
| Cmc.Tracker.ShrinkKeep | cmc/cmc.c:390-398 | otherwise the new blob inherits from the current old one |
| Cmc.Tracker.RelateGrow | cmc/cmc.c:420-473 | the more-new case in place, handing out fresh sessions |
| Cmc.Tracker.GrowWalk | cmc/cmc.c:424-457 | the walk over the old blobs ends with every old blob visited |
| Cmc.Tracker.GrowTail | cmc/cmc.c:459-470 | the remaining new blobs all appear |
| Cmc.Tracker.GrowLast | cmc/cmc.c:462-469 | one remaining new blob appears, with a fresh session when it is above the threshold |
| Cmc.Tracker.GrowStep | cmc/cmc.c:426-456 | one walk step keeps the walk invariant and makes progress |
| Cmc.Tracker.GrowNew | cmc/cmc.c:434-448 | a closer next new blob makes the current one appear |
| Cmc.Tracker.GrowKeep | cmc/cmc.c:449-456 | otherwise the current new blob inherits from the old one |
| Cmc.Tracker.Compact | cmc/cmc.c:479-491 | the new list becomes its survivors |
| Cmc.Tracker.CompactStep | cmc/cmc.c:482-489 | one step extends the compacted prefix by the next blob unless it is IGNORED |
| Cmc.Tracker.FindGroup | cmc/cmc.c:501-528 | the search returns the first group accepting the blob |
| Cmc.Tracker.EndSession | cmc/cmc.c:509-515 | the old list ends the given session, as `Groups.EndSession` says |
| Cmc.Tracker.ClassifyStep | cmc/cmc.c:498-529 | one blob is classified in place and no other new blob changes |
| Cmc.Tracker.Classify | cmc/cmc.c:496-530 | the buffers after classification are the pass `Groups.ClassifyUpTo` over all current blobs |
| Cmc.Tracker.TrackBlobs | cmc/cmc.c:366-530 | the buffers after tracking are the result of `Cmc.Track` |
| Cmc.Tracker.AdvanceIdle | cmc/cmc.c:541-553 | the idle word and bit advance as `Pacer.Advance` says, returning whether a heartbeat is due |
| Cmc.Tracker.TrackPhase | cmc/cmc.c:361-553 | tracking plus the pacer: the frame is dispatched when busy or on a heartbeat, and the buffers hold the tracking result |
| Cmc.Tracker.DispatchAll | cmc/cmc.c:564-599 | the trace grows by the callbacks of the engines up to the first NULL slot, in order |
| Cmc.Tracker.EngineCallbacks | cmc/cmc.c:567-598 | one engine gets its frame, blob and off callbacks |
| Cmc.Tracker.BlobCallbacks | cmc/cmc.c:575-589 | one engine's on and set callbacks for the current blobs |
| Cmc.Tracker.OffCallbacks | cmc/cmc.c:592-598 | one engine's off callbacks for the DISAPPEARED old blobs |
| Cmc.Tracker.Publish | cmc/cmc.c:559-600 | a due frame increments the frame id and appends the frame's callbacks; otherwise nothing changes |
| Cmc.Tracker.Swap | cmc/cmc.c:605-610 | the two buffers swap roles and the new list becomes the old one |
| Cmc.Tracker.DetectBlobs | cmc/cmc.c:95-355 | the new buffer holds the blobs `Cmc.Detected` specifies for the frame |
| Cmc.Tracker.Frame | cmc/cmc.c:90-553 | scan, track and pacer: the result says whether the frame is due, and the buffers hold the tracked blobs with distinct live sessions, in groups, at positions in [0, 1] |
| Cmc.Tracker.Finish | cmc/cmc.c:555-612 | dispatch when due, then the swap; the tracker is valid again |
| Cmc.Tracker.Process | cmc/cmc.c:89-613 | one call: the result is busy-or-heartbeat; the pacer, frame id, session counter, the old list (now the tracked blobs) and the callback trace all change exactly as the functions of `Cmc` and `Pacer` say; the tracker stays valid |
| W5200.JoinSplit | dma_udp/dma_udp.c:153-188 | joining the high and low bytes of a 16-bit value gives the value back |
| W5200.SplitJoin | dma_udp/dma_udp.c:180-188 | splitting a joined pair of bytes gives the bytes back |
| W5200.AndLowBits | dma_udp/dma_udp.c:293 | masking with 2^k - 1 is the remainder modulo 2^k, so the masked pointer is the offset into a power-of-two buffer |
| W5200.OpcodeApart | dma_udp/dma_udp.c:92-95 | the opcode bit sits above the 7 high length bits and tells write from read |
| W5200.HeaderDecodes | dma_udp/dma_udp.c:73-76 | the four header bytes decode to the address, the direction and the length modulo 2^15 |
| W5200.HeaderInjective | dma_udp/dma_udp.c:92-95 | distinct commands with lengths below 2^15 have distinct headers |
| W5200.FetchStore | dma_udp/dma_udp.c:68-137 | reading back what was written gives the written bytes |
| W5200.ServeWrite | dma_udp/dma_udp.c:68-85 | a write frame stores its data at its address, and the chip answers with zeros |
| W5200.ServeRead | dma_udp/dma_udp.c:118-137 | a read frame leaves the memory alone, and the answer carries the requested bytes after the four header positions |
| W5200.SockAddrNext | dma_udp/dma_udp.c:153-171 | the socket address of the next register is the next address |
| W5200.SockAddrApart | dma_udp/dma_udp.c:140-151 | distinct registers of a socket have distinct addresses |
| W5200.WordRoundTrip | dma_udp/dma_udp.c:153-188 | a 16-bit register written as two bytes reads back as the same value |
| W5200.StoreWordElsewhere | dma_udp/dma_udp.c:153-161 | writing a 16-bit register changes only its two cells |
| W5200.SplitWrapped | dma_udp/dma_udp.c:297-303 | a payload past the end of the buffer splits into a run from the offset to the end and a run from the base |
| W5200.SplitCovers | dma_udp/dma_udp.c:297-305 | the runs of a split lie inside the payload and gather back into it |
| W5200.SplitInBuffer | dma_udp/dma_udp.c:297-305 | the runs of a payload no longer than the buffer lie inside the buffer |
| W5200.ReceiveRing | dma_udp/dma_udp.c:425-436 | reading the runs gives exactly len bytes, byte i from ring slot offset + i |
| W5200.SendRingSingle | dma_udp/dma_udp.c:304-305 | a payload that fits before the end lands at ring slots offset + i; the ring cells past it and every cell outside the buffer keep their contents |
| W5200.WrappedRuns | dma_udp/dma_udp.c:297-303 | storing the wrapped split is storing the head at the offset and the rest at the base |
| W5200.SendRingWrapped | dma_udp/dma_udp.c:297-303 | a wrapping payload lands at ring slots offset + i; the ring cells between its end and its start and every cell outside the buffer keep their contents |
| W5200.SendRing | dma_udp/dma_udp.c:293-305 | any payload no longer than the buffer lands byte by byte in the ring from the offset on; the ring cells past the payload and every cell outside the buffer keep their contents |
| W5200.Header | dma_udp/dma_udp.c:73-76 | reference definition of the four header bytes: the address big-endian, the direction bit with the high 7 bits of the length, the low length byte |
| W5200.Serve | dma_udp/dma_udp.c:68-137 | reference definition of the chip serving one transfer: a write stores the bytes after the header and answers zeros, a read leaves the memory and answers the cells after four header bytes; the answer is as long as the transfer |
| W5200.Split | dma_udp/dma_udp.c:297-305 | reference definition of the ring split: one or two runs, the second from the buffer start when the payload passes the end |
| W5200.StoreWord | dma_udp/dma_udp.c:153-161 | reference definition of a 16-bit register write: the high byte, then the low byte at the next address |
| W5200.LoadWord | dma_udp/dma_udp.c:180-188 | reference definition of a 16-bit register read: the high byte shifted up plus the next byte |
| W5200.SockAddr | dma_udp/dma_udp.c:140-144 | reference definition of `CH_BASE + sock*CH_SIZE + addr` truncated to 16 bits |
| DmaUdp.SentPointer | dma_udp/dma_udp.c:307-313 | after a send the write pointer has advanced by the payload length modulo 2^16 and the command register holds SEND |
| DmaUdp.ReceivedPointer | dma_udp/dma_udp.c:438-443 | after a receive the read pointer has advanced by the length modulo 2^16 and the command register holds RECV |
| DmaUdp.SentPayload | dma_udp/dma_udp.c:290-305 | after a send, byte i of the payload sits in the send ring at the masked write pointer plus i |
| DmaUdp.ReceivedPayload | dma_udp/dma_udp.c:417-436 | a receive returns len bytes, byte i from the receive ring at the masked read pointer plus i |
| DmaUdp.Sent | dma_udp/dma_udp.c:290-313 | reference definition of the chip after an accepted send: the payload in the ring runs, the write pointer advanced, SEND in the command register |
| DmaUdp.Received | dma_udp/dma_udp.c:425-443 | reference definition of the chip after a receive: the read pointer advanced and RECV in the command register |
| DmaUdp.SentKeepsRest | dma_udp/dma_udp.c:293-305 | the send buffer cells past the payload, counted from the masked write pointer around the ring, keep their contents |
| DmaUdp.SentElsewhere | dma_udp/dma_udp.c:290-313 | a send leaves every cell outside the send buffer, the write pointer and the command register unchanged |
| DmaUdp.ReceivedElsewhere | dma_udp/dma_udp.c:425-443 | a receive leaves every cell but the read pointer and the command register unchanged |
| DmaUdp.Link.constructor | dma_udp/dma_udp.c:34-35 | a link has fresh 2048-byte transmit and receive buffers over the given chip memory |
| DmaUdp.Link.Transfer | dma_udp/dma_udp.c:45-65 | one DMA exchange: the chip serves the first count bytes of the transmit buffer and its answer fills the receive buffer's first count bytes |
| DmaUdp.Link.PutHeader | dma_udp/dma_udp.c:92-95 | the four bytes at the buffer position become the header, and the rest of the buffer is unchanged |
| DmaUdp.Link.WriteAppend | dma_udp/dma_udp.c:88-101 | a write frame is appended at the position, the new position is after it, and the rest of the buffer is unchanged |
| DmaUdp.Link.Write | dma_udp/dma_udp.c:68-85 | the chip memory now holds the data at the address |
| DmaUdp.Link.Read | dma_udp/dma_udp.c:118-137 | the result is the chip's bytes at the address, and the memory is unchanged |
| DmaUdp.Link.WriteSock | dma_udp/dma_udp.c:140-144 | the data lands at the socket's register address |
| DmaUdp.Link.WriteSockAppend | dma_udp/dma_udp.c:146-151 | appends a write frame for the socket's register address |
| DmaUdp.Link.WriteSock16 | dma_udp/dma_udp.c:153-161 | a socket register gets the 16-bit value, high byte first |
| DmaUdp.Link.WriteSock16Append | dma_udp/dma_udp.c:163-171 | appends two one-byte write frames, high byte then low byte at the next address |
| DmaUdp.Link.ReadSock | dma_udp/dma_udp.c:173-178 | returns the bytes at the socket's register address, and the memory is unchanged |
| DmaUdp.Link.ReadSock16 | dma_udp/dma_udp.c:180-188 | returns the 16-bit value of a socket register, and the memory is unchanged |
| DmaUdp.Link.Available | dma_udp/dma_udp.c:406-412 | returns the socket's received-size register |
| DmaUdp.Link.SetRemote | dma_udp/dma_udp.c:272-280 | the destination address and port registers hold the given address and port |
| DmaUdp.Link.SendPayload | dma_udp/dma_udp.c:297-305 | the payload is stored in the runs of the ring split |
| DmaUdp.Link.Send | dma_udp/dma_udp.c:282-313 | a payload longer than the free space changes nothing; otherwise the chip becomes `DmaUdp.Sent`: payload in the ring, pointer advanced, SEND issued |
| DmaUdp.Link.ReceivePayload | dma_udp/dma_udp.c:425-436 | returns the bytes of the runs of the ring split, and the memory is unchanged |
| DmaUdp.Link.Receive | dma_udp/dma_udp.c:414-444 | returns the payload from the receive ring at the read pointer, and the chip becomes `DmaUdp.Received`: pointer advanced, RECV issued |

## Left out

- The interpolation formulas of strategies 1-3 (cmc/cmc.c:173-338) are an opaque `Formula` parameter. The clamping, the slots read and the zero-divisor fallbacks are modelled.
- `range` (thresholds, scale factors) and the calibration `curve` are inputs, because their computation lives outside `cmc.c`.
- `cmc_group_buf_get` (cmc/cmc.c:656-662) is left out, because it exposes the raw bytes of the group table.
- Floating-point arithmetic is modelled with reals, so rounding of single precision is not captured.
- `cmc.h` is not part of this model. NORTH, SOUTH and BOTH are taken as 0x80, 0x100 and 0x180.
- SENSOR_N, BLOB_MAX, GROUP_MAX and ENGINE_MAX are constructor parameters.
- The engine callbacks are recorded as a trace of events rather than called.
- Cmc.Tracker.Process: requires no more peaks than BLOB_MAX and no more areas than the area array holds, because the code writes past them otherwise.
- Cmc.Tracker.Process: requires a group table that covers [0, 1] for both poles. Without it the dispatch code dereferences the NULL group of an unclassified blob.
- Interp.Point: every position is a real, so a zero denominator in the linear interpolation (cmc/cmc.c:200, y1 + y0 == 0) and a NaN passing the clamp (cmc/cmc.c:341-343) are not modelled.
- Cmc.Tracker.Process: the frame id and the session counter are unbounded naturals. The program sends both as 32-bit integers, so `fid == old(fid) + 1` and the fresh-session results hold only until the counters wrap at 2^32. The counters' declarations in `cmc.h` are not part of this model.
- Cmc.Track: session ids are unbounded naturals, so the distinctness of live sessions holds only until the 32-bit session counter wraps.
- Cmc.Tracker.GroupGet: requires gid < GROUP_MAX, which the code (cmc/cmc.c:631-641) does not check.
- Cmc.Tracker.EnginesUpdate: requires the enabled engines and the terminator to fit in the engine table. The code (cmc/cmc.c:664-688) writes the table unchecked.
- Cmc.Tracker.GroupSet: requires gid < GROUP_MAX and x0 < x1. The code indexes the table unchecked and divides by x1 - x0.
- Pacer.IdleCadence: stated for pacemaker values up to 15. `Pacer.Tick` itself models the 16-bit wrap of the idle word for any value.
- Low-level SPI and DMA set-up (`spi_dma_*`, dma_udp/dma_udp.c:39-65), DMA interrupts and concurrency are left out. A transfer is one atomic exchange.
- Driver `init` and `begin` (dma_udp/dma_udp.c:190-270) are left out. They are register sequences with delays on the hardware.
- The polling of the interrupt register at the end of `send` (dma_udp/dma_udp.c:315-327) is left out, because it waits on the hardware.
- The non-blocking send (dma_udp/dma_udp.c:330-404) is left out, because it is a state machine driven by DMA completion interrupts.
- The chip is plain byte memory with no register side effects. The register offsets and buffer sizes of the `wiz` headers are a `Layout` parameter, because those headers are not part of this model.
- DmaUdp.Link.Write: requires 4 + len <= 2048, and `Read` the same. This is the size of the static buffer, which the code does not check.
- DmaUdp.Link.Send: requires 4 + len <= 2048 for the whole payload, and `Receive` the same. The code (dma_udp/dma_udp.c:297-305, 431-438) splits a wrapping payload into two transfers, so it needs the bound only for each run. The model's bound is stronger than the code's.
- DmaUdp.SentPayload: assumes the socket's buffer ends within the 2^16 address space and the payload is no longer than the buffer. The other ring lemmas assume the same.
- `read_sock_16` takes its socket as `int8_t` where the others take `uint8_t`. Socket numbers are small, so the model uses one type.
- DmaUdp.Link.Send: the contents of the two DMA buffers after the composite operations are left unspecified.
- Output buffers of the read functions are returned as values instead of being written through a pointer.

## Findings

| source | as written | input that shows it | evidently intended | confidence | as-written member | corrected member |
|---|---|---|---|---|---|---|
| cmc/cmc.c:270 | cubic interpolation of a left-heavy window reads `v[P-2]`, which is `v[-1]` when the peak is at P = 1 | rela [100, 0, 50, 0] with thresholds 10, scale 0.01 and no offset: the first sensor is a peak at P = 1 and its window is left-heavy | a read of the zero guard slot `v[0]`, inside the level vector | not executed | Interp.CubicSlotsAsWritten (shown by Interp.CubicReadsBeforeVector) | Interp.CubicSlots |

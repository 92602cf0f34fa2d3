# Gmn: a streaming multi-tau photon correlator, modelled in Dafny

Class `Gmn` of the correlator (`v1p1/Gmn.java`) computes auto-, cross- and
higher-order correlation functions of photon streams from fluorescence
correlation spectroscopy hardware. It works batch by batch. A caller first
calls `initializeGmn` with the correlator type (`"auto"`, `"cross"` or
`"autoHOmlt"`). Then, in a loop:

- a decoder (`updateDataFlexOneCh`, `updateDataConfocor2chA`,
  `updateDataPicoHarpPT3chAB`, ...) reads the next chunk of a file and
  fills the event batch. The batch is `photonsIat` (inter-arrival times)
  with `wAint` / `wBint` (per-channel weights), at most 32768 events.
- a correlator call (`updateCorrAutoInt`, `updateCorrCrossInt`,
  `updateCorrAutoHOmltInt`) runs three phases over that batch:
  - phase A rebuilds the lag table;
  - phase B pushes every event through `nc` cascades of 256-slot rings of
    cumulative inter-arrival times, coarsening time by two from one
    cascade to the next. It accumulates the totals `tlast` / `wAtotal`, the
    tail corrections `s01a` and the lag products `s11aa` (and their
    channel-B and higher-order variants);
  - phase C walks each ring back to compute the normalisation values.
- the intensity tracer bins the batch into trace points.

The older `Gmn.java` is an earlier, smaller version of the same class.
It has the Flex and Confocor decoders and the auto and cross correlators
(its decoders and correlators start at `Gmn.java:262` to `Gmn.java:1121`). It has no PicoHarp
decoders, no custom-hardware decoder, no intensity tracer and no
higher-order correlator: its `"high order"` branch of `initializeGmn`
(`Gmn.java:153-176`) only allocates the auto-correlation arrays. The
model follows `v1p1/Gmn.java`.

The model's modules:

| Module | What it models |
|---|---|
| `JavaInt` | Java `byte` and `int` arithmetic, and `byte4ToInt` |
| `Stream` | the chunked reading of a file (`evA` / `bufferInSizeA`), as a cursor into the bytes after the header |
| `Headers` | the header readers |
| `Events` | the event batch |
| `Flex`, `Confocor`, `PicoHarp` | each decoder as a pure function of the data, with its properties |
| `Trace` | the intensity tracer as a pure function |
| `LagTable` | phase A |
| `Engine` | phases B and C as pure functions on one value holding the rings, the per-cascade bins, the totals and the sums |
| `EngineSteps`, `EngineChain`, `EngineEnds`, `EngineInvariant` | the unfolding facts, and the invariant that makes phase B's loops end |
| `EngineAdmit` | which batches phase B is proved on, stated on the batch alone |
| `EngineLaws`, `EngineSymmetry`, `EngineTails` | what phase B promises |
| `Correlator` | class `Gmn` itself |

Class `Gmn` keeps these as `array` fields:

- the batch: `photonsIat`, `wAint`, `wBint`;
- the rings: `ciatarray`, `wAintArray`, `wBintArray`;
- the intensity trace.

Every method of the class is proved against the pure function of its
module. For example, `UpdateCorrAutoInt` ends in the state
`Engine.Run(old state, params, Auto, batch)`, and `UpdateDataFlexOneCh`
fills the batch with the events of `Flex.FlexOne`. The properties the
source promises are lemmas about those functions.

## Model

| member | source | states |
|---|---|---|
| JavaInt.Signed | v1p1/Gmn.java:278-285 | a byte read as a Java `byte` lies in -128..127, equals the unsigned value or that value minus 256, and is negative exactly for 128..255 (the case the `256+b` correction undoes) |
| JavaInt.Unsigned | v1p1/Gmn.java:278-285 | inverse of `Signed`: every Java byte value is the signed reading of some unsigned byte |
| JavaInt.WrapByte | v1p1/Gmn.java:69 | narrowing to a Java `byte`: the result is in -128..127, congruent to the input modulo 256, and the identity on byte values |
| JavaInt.ByteIncWraps | v1p1/Gmn.java:1705 | `sp[jj]++` on the byte ring pointer is the wrapping successor: 127 + 1 becomes -128 |
| JavaInt.ByteDecWraps | v1p1/Gmn.java:1719 | `st--` on the byte slot pointer is the wrapping predecessor: -128 - 1 becomes 127 |
| JavaInt.ToInt32 | v1p1/Gmn.java:1079-1103 | Java `int` arithmetic: the result is in the int range, congruent modulo 2^32, and the identity on int values |
| JavaInt.Byte4ToInt | v1p1/Gmn.java:272-287 | four little-endian bytes give their unsigned value when the top byte is below 128, and that value minus 2^32 otherwise (the overflow of `256*256*256*temp`) |
| JavaInt.Byte4RoundTrip | v1p1/Gmn.java:272-287 | every Java int is decoded back from its four little-endian bytes |
| JavaInt.Byte4Injective | v1p1/Gmn.java:272-287 | the four bytes are recovered from the decoded int, so `byte4ToInt` is a bijection between 4-byte arrays and ints |
| Stream.NextBlock | v1p1/Gmn.java:422-424 | a refill reads the next 32768-byte chunk: its start is strictly after the position, a multiple of the chunk size, and at most one chunk on |
| Stream.Resume | v1p1/Gmn.java:422-424 | the read at the start of a decoder call: a live cursor inside the data is kept; otherwise the next chunk is read, and the stream has ended exactly when nothing is left; the cursor never moves back |
| Stream.Advance | v1p1/Gmn.java:440-443 | consuming k bytes moves the cursor k on, and the stream ends exactly when the data is used up |
| Stream.BufferSize | v1p1/Gmn.java:446 | the value a decoder returns (`bufferInSizeA`) is -1 exactly when the stream has ended; otherwise it is the size of the current chunk, between 1 and 32768 and beyond the cursor's offset in the chunk |
| Stream.ResumeAligned | v1p1/Gmn.java:1338-1341 | reading on keeps 2-byte and 4-byte records aligned |
| Headers.ReadInto | v1p1/Gmn.java:603 | `FileInputStream.read(buf)`: copies min(buffer size, bytes left) bytes, returns that count or -1 at the end of the file, and keeps the rest of the buffer |
| Headers.ReadHeaderConfocor2 | v1p1/Gmn.java:597-609 | returns 1 and skips the 30-byte header (or up to the end of a shorter file) |
| Headers.ReadHeaderConfocor3 | v1p1/Gmn.java:1050-1062 | returns 1 and skips the 128-byte header (or up to the end of a shorter file) |
| Headers.ReadWords | v1p1/Gmn.java:1301 | k reads of the 4-byte buffer skip 4k bytes, none when k <= 0, never past the end of the file |
| Headers.ReadField | v1p1/Gmn.java:1303-1304 | one 4-byte read: moves 4 bytes on and leaves the bytes read in the buffer; the NumberOfBoards byte is its first byte |
| Headers.ReadBoardsOn | v1p1/Gmn.java:1303-1321 | from the NumberOfBoards field to the end of the image header, the reads stop exactly at the header length |
| Headers.PicoHeaderExact | v1p1/Gmn.java:1288-1328 | a file long enough for its header has a PicoHarp header of 4·(85 + 1 + 48 + 15·boards + 24 + 8 + 1 + ImgHdrSize) bytes; otherwise the header ends at the end of the file or is at least 668 bytes and word aligned |
| Headers.ReadHeaderPicoHarp | v1p1/Gmn.java:1288-1328 | `readHeaderPicoHarpPT3`, and the identical `readHeaderPicoHarpPT2` at lines 1489-1529, return 1 and leave the file at the header length |
| Headers.ReadHeaderLongPicoHarpPT3 | v1p1/Gmn.java:1121-1286 | returns 1 and leaves the file at the same header length as the short reader |
| Events.Zip | v1p1/Gmn.java:37-39 | the three parallel batch arrays are exactly the iats and weights of one event list |
| Flex.FlexOne | v1p1/Gmn.java:426-445 | the one-channel Flex decoder emits at most `room` events and stops only when the batch is full or the data has ended; the cursor never moves back; an ended stream yields nothing |
| Flex.FlexOneClock | v1p1/Gmn.java:426-445 | ticks are conserved: the emitted iats plus the carried iat equal the incoming iat plus the duration of the bytes consumed (255 per overflow byte, b + 1 per photon byte b); one event per non-255 byte |
| Flex.FlexOneShape | v1p1/Gmn.java:430-438 | every event carries the caller's weights (1, 0); from a non-negative carried iat every event's iat is at least 1 and the carry stays non-negative |
| Flex.Gather | v1p1/Gmn.java:467-485 | collecting a channel's next photon: unless the channel ends, it stops on a non-255 byte, and the iat equals the incoming iat plus the duration of the bytes up to and including that byte; from a non-negative iat it is at least 1 |
| Flex.Collect | v1p1/Gmn.java:467-485 | the collecting loop computes exactly `Gather` |
| Flex.Merge | v1p1/Gmn.java:507-532 | the earlier of the two pending photons is recorded: its iat is the smaller one, channel A is marked when A's photon is not later, channel B when B's is not later (both on a tie), and each channel keeps the rest of its time |
| Flex.Prepare | v1p1/Gmn.java:465-504 | before a merge, a channel whose pending iat is 0 collects its next photon; a channel with a pending photon is left alone; pending iats stay at least 1 while the channel lives |
| Flex.Drain | v1p1/Gmn.java:535-590 | once one channel has ended, the other is drained with the one-channel decoder while the ended one stays put; with both or neither ended nothing is drained |
| Flex.DrainShape | v1p1/Gmn.java:535-590 | drained events carry only the live channel's tag ((0, 1) after A ends, (1, 0) after B ends), and iats stay positive |
| Flex.FlexTwo | v1p1/Gmn.java:452-595 | the two-channel decoder emits at most `room` events and keeps both cursors within their data |
| Flex.FlexTwoPrepared | v1p1/Gmn.java:465-504 | a merge step first refills the channels whose iat is 0, and the batch is the batch from the refilled state |
| Flex.FlexTwoMerged | v1p1/Gmn.java:507-532 | with both photons pending, the batch starts with the `Merge` event and continues from the advanced cursors and the remaining times |
| Flex.FlexTwoTags | v1p1/Gmn.java:452-595 | every event of the two-channel batch is tagged (1, 0), (0, 1) or (1, 1) |
| Flex.FlexTwoPositive | v1p1/Gmn.java:452-595 | from non-negative pending iats, every event's iat is at least 1 and both remainders stay non-negative |
| PicoHarp.Channel | v1p1/Gmn.java:1344 | the channel number is the high nibble of a record's fourth byte, in 0..15 |
| PicoHarp.Time | v1p1/Gmn.java:1346-1355 | the arrival time of a T3 record is its low 16 bits (0..65535); that of a T2 record (lines 1547-1562) is its low 28 bits |
| PicoHarp.Pico | v1p1/Gmn.java:1343-1370 | the PicoHarp decoders consume whole 4-byte records and keep the cursor aligned and moving forward |
| PicoHarp.PicoPhoton | v1p1/Gmn.java:1345-1360 | a photon record on a selected channel emits its time minus the reference as a Java `int` (`ToInt32`, line 1356), with the channel's weights, and makes its time the new reference |
| PicoHarp.PicoSkip | v1p1/Gmn.java:1361-1363 | any other record emits nothing; an overflow record (channel 15) lowers the reference by 65535 (T3) or 2147483647 (T2, line 1569), as a Java `int` subtraction |
| PicoHarp.LostOverflows | v1p1/Gmn.java:1361-1363 | the time lost to overflows over a stretch of records is the rollover constant times the number of overflow records |
| PicoHarp.PicoStops | v1p1/Gmn.java:1343 | at most `room` events, stopping only when the batch is full or the data has ended; an ended stream yields nothing; each event takes at least one 4-byte record |
| PicoHarp.PicoTelescope | v1p1/Gmn.java:1356-1362 | the iats telescope: their sum is the last reference minus the first plus the time lost to overflows, up to a multiple of 2^32 from the `int` wraps |
| PicoHarp.TelescopePhoton | v1p1/Gmn.java:1356-1360 | a photon record's wrapped iat keeps the sum telescoping modulo 2^32 |
| PicoHarp.TelescopeSkip | v1p1/Gmn.java:1361-1363 | an overflow record's wrapped lowering of the reference, and any other skipped record, keep the sum telescoping modulo 2^32 |
| PicoHarp.TelescopeEnd | v1p1/Gmn.java:1343 | a run that reads no record has no iats and keeps its reference |
| PicoHarp.PicoConservation | v1p1/Gmn.java:1356-1362 | the sum of the iats is the last reference minus the first plus the rollover constant times the overflow records consumed, modulo 2^32 |
| PicoHarp.PicoExact | v1p1/Gmn.java:1356-1360 | from a reference that is a record time and with no overflow record consumed, no iat wraps: their sum is exactly the last reference minus the first |
| PicoHarp.ExactPhoton | v1p1/Gmn.java:1356-1360 | the iat of two record times is their exact difference |
| PicoHarp.ExactSkip | v1p1/Gmn.java:1361-1363 | a record on another channel changes neither the iats nor the reference |
| PicoHarp.PicoWraps | v1p1/Gmn.java:1563-1569 | in a T2 file, a photon at 100, an overflow record and a photon at 200 give the iats 100 and -2147483549: the second wraps negative |
| PicoHarp.PicoCount | v1p1/Gmn.java:1345 | the number of events is the number of photon records on the selected channels among the records consumed |
| PicoHarp.PicoTags | v1p1/Gmn.java:1392-1487 | chA, chB and PT2 tag (1, 0) (chB writes its channel-2 photons to `wAint`, line 1405); PT3chAB tags channel 1 as (1, 0) and channel 2 as (0, 1) |
| PicoHarp.PicoReference | v1p1/Gmn.java:1361-1363 | with no photon in the batch, the reference only drops by the time lost to overflows, modulo 2^32 |
| PicoHarp.LowersSkip | v1p1/Gmn.java:1361-1363 | a record that is not a photon lowers the reference by its period or not at all, modulo 2^32 |
| Confocor.Slots | v1p1/Gmn.java:679-736 | a Confocor2 record's mask byte gives eight slots, one per bit |
| Confocor.SlotsAt | v1p1/Gmn.java:679-736 | slot k is bit k of the mask; a photon slot is on an even bit for channel A and on an odd bit for channel B |
| Confocor.Emit | v1p1/Gmn.java:679-736 | walking the slots emits at most `room` events and stops early only when the batch is full |
| Confocor.EmitAt | v1p1/Gmn.java:679-736 | each slot adds its tick; a photon slot emits the accumulated iat and restarts it at 0, or stops the walk when the batch is full |
| Confocor.EmitComplete | v1p1/Gmn.java:679-736 | a complete walk emits one event per photon slot and conserves ticks; an incomplete one means the room was smaller than the photons |
| Confocor.EmitNonNegative | v1p1/Gmn.java:679-736 | from a non-negative iat, every emitted iat and the carry are non-negative |
| Confocor.EmitPartial | v1p1/Gmn.java:679-736 | a walk cut short has consumed between none and all of its ticks |
| Confocor.EmitTags | v1p1/Gmn.java:679-736 | every emitted event carries the weights of a photon slot |
| Confocor.RecordTicks | v1p1/Gmn.java:622-736 | the slots of one mask spend three ticks in all, none negative |
| Confocor.KeptSplit | v1p1/Gmn.java:893-1048 | the photons the two-channel decoder keeps from a mask are those of channel A plus those of channel B |
| Confocor.Confocor2 | v1p1/Gmn.java:620-745 | the Confocor2 decoders consume whole 2-byte records, keep the cursor aligned, emit at most `room` events, and yield nothing on an ended stream |
| Confocor.Confocor2Record | v1p1/Gmn.java:620-742 | a record that fits appends its events and continues two bytes on |
| Confocor.Confocor2Cut | v1p1/Gmn.java:620-742 | a record that does not fit in the batch ends the call at that record, with its events so far and its partial iat |
| Confocor.Confocor2Marker | v1p1/Gmn.java:620-744 | a record whose value byte is 0 ends the data |
| Confocor.Confocor2Stops | v1p1/Gmn.java:620-745 | at most `room` events, stopping only when the batch is full or the data has ended; a cut leaves the stream live with a full batch; an early end is at a 0 value byte |
| Confocor.Confocor2Clock | v1p1/Gmn.java:622-736 | ticks are conserved: the emitted iats plus the carry equal the incoming iat plus value + 3 per record consumed, plus the 1..258 ticks carried by a cut record |
| Confocor.Confocor2Count | v1p1/Gmn.java:620-745 | without a cut, the number of events is the number of photons the selected channel keeps from the records consumed |
| Confocor.Confocor2Weights | v1p1/Gmn.java:611-1048 | events are tagged (1, 0) by the channel A and channel B decoders, and (1, 0) or (0, 1) by the two-channel decoder |
| Confocor.Confocor2NonNegative | v1p1/Gmn.java:622-736 | from a non-negative iat, every iat and the carry are non-negative |
| Confocor.RecordClock | v1p1/Gmn.java:622-736 | one record spends value + 3 ticks when complete, and between value and value + 3 when cut |
| Confocor.RecordCount | v1p1/Gmn.java:679-736 | a complete record emits the photons the channel keeps from its mask |
| Confocor.RecordShape | v1p1/Gmn.java:679-736 | a record's events carry the channel's tags, and iats stay non-negative from a non-negative iat |
| Confocor.Confocor3 | v1p1/Gmn.java:1073-1114 | the Confocor3 decoder takes four bytes per event, emits at most `room` events, stops only when the batch is full or the data has ended, and carries an iat only when it emitted nothing |
| Confocor.Word | v1p1/Gmn.java:1074-1103 | four bytes as a Java int, by `byte4ToInt` |
| Confocor.Confocor3Values | v1p1/Gmn.java:1074-1103 | the first event's iat is the carried iat plus the first word, in Java int arithmetic; every other iat is its word |
| Confocor.Confocor3Tags | v1p1/Gmn.java:1107 | every event weighs (1, 0) |
| Trace.PointsFromAt | v1p1/Gmn.java:1596-1611 | one step of the binning loop: an event closes its bin when the bin holds `binSize` events or the batch ends, giving the point at macro time + x / 2 with rates weight / x, and the bin restarts empty |
| Trace.PointsCount | v1p1/Gmn.java:1596-1611 | a batch of n events gives the least number of points k with k · binSize >= n |
| Trace.Conserved | v1p1/Gmn.java:1596-1611 | the bins' durations add up to the batch's ticks, and their weights to its weights |
| Trace.Midpoints | v1p1/Gmn.java:1604-1605 | point k lies at the macro time plus the durations of the points before it plus half its own duration |
| LagTable.LagTable | v1p1/Gmn.java:1674-1685 | the lag table has (nc + 1) · np entries |
| LagTable.Tiling | v1p1/Gmn.java:1679-1680 | the cascades' blocks of the lag table follow one another, and the last one ends at (nc + 1) · np |
| LagTable.LagOf | v1p1/Gmn.java:1681-1684 | the lags of a cascade are consecutive, from 1 in cascade 0 and from np + 1 in the others |
| LagTable.LagRange | v1p1/Gmn.java:1674-1685 | every lag lies in 1..2np, below the empty-slot marker 10000 |
| LagTable.TimebaseUp | v1p1/Gmn.java:1677-1678 | the time bases are at least 1 and never decrease from one cascade to the next |
| LagTable.TimeFits | v1p1/Gmn.java:1681-1683 | the running time `tt` stays within the int range |
| LagTable.LagStep | v1p1/Gmn.java:1681-1683 | one step of the fill loop: `tt / timebase` is the entry's lag |
| LagTable.ComputeLags | v1p1/Gmn.java:1674-1685 | phase A fills `timebase`, `ntlag` and `cc` with t0 · 2^j, the lag counts (2np for cascade 0, np otherwise) and the lag table |
| LagTable.LagCounts | v1p1/Gmn.java:1675-1676 | `ntlag[j]` is 2np for cascade 0 and np for the others |
| LagTable.Timebases | v1p1/Gmn.java:1677-1678 | `timebase[j]` is t0 · 2^j and fits in an int |
| LagTable.FillCascade | v1p1/Gmn.java:1679-1684 | filling one cascade writes its block of the table and leaves every other entry alone |
| Engine.Slot | v1p1/Gmn.java:1704 | slot `128 + jj*256 + sp` of the ring belongs to cascade jj's 256 slots |
| Engine.TimebaseOne | v1p1/Gmn.java:1699 | only cascade 0 can have time base 1 |
| Engine.WindowOf | v1p1/Gmn.java:1720-1726 | the search window of a cascade: its block of lags, from its first lag up to 2np, with `ntlag` entries |
| EngineSteps.TailAt | v1p1/Gmn.java:1712-1716 | the tail correction adds the bin's weight to the entry of lag k exactly when k is in the cascade's block and `tlast` is below the lag |
| EngineSteps.TailNone | v1p1/Gmn.java:1712 | when `tlast` has passed the last lag, the guarded tail loop changes nothing |
| EngineSteps.TailStep | v1p1/Gmn.java:1713-1715 | one iteration of the tail loop |
| EngineSteps.SkipStep | v1p1/Gmn.java:1721-1724 | one iteration of the skip loop: step back one slot and add the bin's time to it |
| EngineSteps.GatherNext | v1p1/Gmn.java:1726-1730 | one iteration of the gather loop: the lag index is within the table, the product is added, and the search steps back one slot |
| EngineSteps.BehindStep | v1p1/Gmn.java:1779-1782 | one iteration of phase C's walk subtracts the slot's weight and steps back |
| EngineChain.WalkChain | v1p1/Gmn.java:1718-1731 | after a push, both search loops stop within 256 steps: the skip loop at a slot that has reached the first lag and the gather loop at a slot outside the window; the ring keeps an ordered frontier behind the new pointer, and other cascades' slots are untouched |
| EngineChain.StopPast | v1p1/Gmn.java:1718-1731 | the skip loop's last reachable slot lies at most 256 behind the pointer and holds a time past the longest lag, also when the newest bins have time 0 in a run shorter than Spread(2np) |
| EngineChain.SpreadFits | v1p1/Gmn.java:1718-1731 | for every longest lag up to 254, Spread is at least 1 and Spread · (longest lag + 3) <= 257, the bound that keeps the skip loop inside the ring |
| EngineChain.PacedStep | v1p1/Gmn.java:1740-1745 | pushing a bin of time at least 1 keeps the pacing bound of every slot behind the pointer and ends the run of zeros |
| EngineChain.PacedPast | v1p1/Gmn.java:1718-1731 | a paced ring whose slot 255 behind the pointer is within the longest lag would put that slot past the lag after the push: no ring of 256 slots holds only times within the window |
| EngineChain.FrontierWeaker | v1p1/Gmn.java:1718-1731 | a frontier paced for a run of z zeros is paced for any longer run |
| EngineChain.BehindStops | v1p1/Gmn.java:1779-1782 | phase C's walk for any lag up to 2np stops within 256 slots |
| EngineEnds.PushStops | v1p1/Gmn.java:1718-1731 | on a ring with a frontier, both loops of the search after a push stop |
| EngineEnds.StepEnds | v1p1/Gmn.java:1697-1768 | on a state that keeps the invariant, with room on the time-base-1 cascade for the event (a zero iat only inside an admitted run of zeros), every push that a cascade step makes ends its search |
| EngineInvariant.InitialOk | v1p1/Gmn.java:120-134 | the state `initializeGmn` leaves satisfies phase B's invariant |
| EngineInvariant.RunOk | v1p1/Gmn.java:1693-1769 | every admitted batch keeps the invariant: iats of at least 0, and with t0 = 1 each iat of 0 has an iat of at least 1 among the Spread(2np) - 1 events before it (see `EngineAdmit.SpacedIff`) |
| EngineInvariant.AheadFrom | v1p1/Gmn.java:1693-1769 | from a state that keeps the invariant and has room for a run of z zeros, a batch admitted after that run can be fed event by event, every intermediate state keeping the invariant and the room |
| EngineInvariant.AheadRun | v1p1/Gmn.java:1693-1769 | a batch that can be fed that way ends in a state that keeps the invariant |
| EngineInvariant.Roomy | v1p1/Gmn.java:1738-1766 | a state that keeps the invariant has room on the time-base-1 cascade for the longest admitted run of zeros |
| EngineInvariant.Begin | v1p1/Gmn.java:1693-1697 | phase B starts on any admitted batch from a state that keeps the invariant |
| EngineInvariant.CascadesOk | v1p1/Gmn.java:1697-1768 | one event through the cascades keeps the invariant, and the run of zeros on the time-base-1 cascade goes on by that event |
| EngineInvariant.StepOk | v1p1/Gmn.java:1699-1767 | one cascade step is `CascadeStep`, keeps the invariant, and moves the time-base-1 cascade's run of zeros only on cascade 0 |
| EngineInvariant.RoomKept | v1p1/Gmn.java:1699-1767 | a step on a cascade other than 0 leaves the time-base-1 cascade's room as it is |
| EngineInvariant.CloseRing | v1p1/Gmn.java:1703-1731 | pushing a closed bin leaves a frontier behind the cascade's new pointer and touches no other cascade's slots |
| EngineInvariant.FillOk | v1p1/Gmn.java:1735-1736 | adding an event to the open bin keeps the invariant and leaves cascade 0's pointer and the other cascades' slots alone |
| EngineInvariant.CloseOk | v1p1/Gmn.java:1703-1734 | closing a bin keeps the invariant and leaves cascade 0's pointer and the other cascades' slots alone |
| EngineInvariant.FineOk | v1p1/Gmn.java:1738-1766 | the time-base-1 step keeps the invariant for any iat of at least 1, and for an iat of 0 inside an admitted run of zeros, which it lengthens by one |
| EngineInvariant.PushRing | v1p1/Gmn.java:1704-1731 | a push leaves a frontier behind the new pointer, advances only this cascade's pointer, and touches only this cascade's slots |
| EngineInvariant.CloseBins | v1p1/Gmn.java:1733-1734 | closing a bin leaves a remainder of at least 0 and a new bin time of at least 1, and changes no other cascade |
| EngineInvariant.Coarsen | v1p1/Gmn.java:1733-1734 | a time of at least one time base coarsens to a bin time of at least 1 and a remainder below the time base |
| EngineInvariant.LagWithin | v1p1/Gmn.java:1775 | every lag of a cascade's block lies in 1..2np |
| EngineAdmit.SpacedIff | v1p1/Gmn.java:1738-1766 | with t0 = 1, a batch is admitted exactly when its iats are at least 0 and each iat of 0 has an iat of at least 1 among the Spread(2np) - 1 events before it |
| EngineAdmit.NonNegativeIff | v1p1/Gmn.java:1699-1736 | with t0 other than 1, where every cascade bins events by time, a batch is admitted exactly when its iats are at least 0 |
| EngineAdmit.SpacedFrom | v1p1/Gmn.java:1738-1766 | a spaced batch is admitted from any position, given the run of zeros since the last iat of at least 1 |
| EngineAdmit.AdmitsSpaced | v1p1/Gmn.java:1738-1766 | an admitted batch has iats of at least 0, and each iat of 0 continues the opening run or has an iat of at least 1 close enough before it |
| EngineAdmit.NonNegativeFrom | v1p1/Gmn.java:1699-1736 | with t0 other than 1, a batch of non-negative iats is admitted after any run |
| EngineAdmit.Coincidences | v1p1/Gmn.java:924-936 | with the default np = 16 and t0 = 1: the pair (2, 1, 0), (0, 0, 1) that the Confocor2 cross decoder makes of two coincident photons is admitted, six zeros after a nonzero iat are, seven are not, and neither is a batch opening with a zero |
| EngineAdmit.SpreadValues | v1p1/Gmn.java:1738-1766 | runs of up to 6 zeros are admitted for np = 16, none for np from 63 to 127 |
| EngineInvariant.PrepassEnds | v1p1/Gmn.java:1779-1782 | on every admissible state, phase C's walk for each lag ends |
| EngineLaws.PushEffect | v1p1/Gmn.java:2058-2071 | a push adds the bin's time to `tlast` and its weights to `wAtotal` (and `wBtotal`, and the square and cube in `wAtotal2` / `wAtotal3`, each computed as a Java `int` and so wrapped to 32 bits), advances the pointer and writes the weight slots |
| EngineLaws.FineEffect | v1p1/Gmn.java:1739-1745 | the time-base-1 step adds the event's iat to `tlast` and its weights to the totals, and advances the pointer |
| EngineLaws.FillEffect | v1p1/Gmn.java:1735-1736 | an event that does not fill a coarse bin only adds its time and weights to the open bin |
| EngineLaws.CloseEffect | v1p1/Gmn.java:1703-1734 | closing a coarse bin pushes the old bin, and splits the accumulated time into tb · q plus a remainder below tb |
| EngineLaws.CoarseSplit | v1p1/Gmn.java:1733-1734 | the coarsening division: tb · (x / tb) plus the remainder is x, with the remainder in 0..tb - 1 |
| EngineLaws.ClockStep | v1p1/Gmn.java:1699-1767 | one cascade step advances that cascade's clock (`tlast` + `iatnew`) · tb + `mta` by the event's iat, and no other cascade's clock |
| EngineLaws.WeightStep | v1p1/Gmn.java:1699-1767 | one cascade step adds the event's weights to that cascade's total plus open weight, and to no other cascade's |
| EngineLaws.ClockAt | v1p1/Gmn.java:1697-1768 | passing one event through the cascades moves cascade j's reading by the event |
| EngineLaws.ClockAhead | v1p1/Gmn.java:1697-1768 | cascades not yet visited are all moved by the event once the pass reaches them |
| EngineLaws.ClockPast | v1p1/Gmn.java:1697-1768 | cascades already passed are not changed by the rest of the pass |
| EngineLaws.ClockRun | v1p1/Gmn.java:1693-1769 | over any batch, every cascade's clock advances by the batch's total ticks and its weights by the batch's total weights |
| EngineLaws.BoundedRun | v1p1/Gmn.java:1702-1734 | every cascade's open-bin time `mta` stays in 0..tb - 1 |
| EngineLaws.InitialBounded | v1p1/Gmn.java:129-134 | the initial state's `mta` values are in range |
| EngineLaws.RunSplit | v1p1/Gmn.java:1693-1697 | correlating two batches one after the other is correlating their concatenation: the streaming design loses nothing at batch boundaries |
| EngineLaws.BehindMono | v1p1/Gmn.java:1779-1782 | with non-negative weights, a larger lag subtracts at least as much weight in phase C's walk |
| EngineLaws.LagsGrow | v1p1/Gmn.java:1775 | lags grow along a cascade's block |
| EngineLaws.PrepassMono | v1p1/Gmn.java:2178-2192 | with non-negative weights, a longer lag has smaller `s10` sums and a smaller `n = tlast - lag`; the higher-order `s20` (`s30`) shrink too while every weight of the cascade is at most 46340 (1290), the bounds below which the Java `int` square (cube) does not wrap |
| EngineLaws.MomentNonNegative | v1p1/Gmn.java:2189-2190 | the Java `int` square of a weight in 0..46340 and its cube for a weight in 0..1290 are not negative |
| EngineLaws.SquareWraps | v1p1/Gmn.java:2066-2067 | a bin weight of 46341 already has a negative Java `int` square, so the bound 46340 is tight |
| JavaInt.WrapProduct | v1p1/Gmn.java:2068-2071 | Java wraps a product after every multiplication; this gives the same value as wrapping the exact product once |
| EngineLaws.NormsAt | v1p1/Gmn.java:1773-1790 | phase C's output at `jjoffset + ii` is the pre-pass values of cascade jj and lag ii |
| EngineLaws.NormsPrefix | v1p1/Gmn.java:1773-1790 | normalising a further cascade does not change the values of the earlier ones |
| EngineLaws.NormsLast | v1p1/Gmn.java:1775-1789 | the last cascade's block holds its pre-pass values |
| EngineSymmetry.CrossGuards | v1p1/Gmn.java:1884-1899 | with non-negative weights, the cross correlator's "both weights positive" guards change nothing: the four products are added unguarded |
| EngineSymmetry.RunMirrored | v1p1/Gmn.java:1845-1962 | the cross correlator fed events with equal weights on A and B keeps `wBtotal` = `wAtotal`, `s01b` = `s01a` and `s11bb` = `s11ab` = `s11ba` = `s11aa` |
| EngineSymmetry.InitialMirrored | v1p1/Gmn.java:143-188 | the cross state `initializeGmn` leaves is mirrored |
| EngineSymmetry.RunAgrees | v1p1/Gmn.java:2048-2172 | the higher-order correlator leaves the ring, the bins, `tlast`, `wAtotal`, `s01a` and `s11aa` exactly as the auto correlator does on the same events |
| EngineSymmetry.InitialAgrees | v1p1/Gmn.java:189-241 | the higher-order and auto initial states agree |
| EngineSymmetry.RunPowers | v1p1/Gmn.java:2117-2170 | when t0 = 1 and every weight is 0 or 1, the higher-order powers on cascade 0 equal the plain sums: `wAtotal2` = `wAtotal3` = `wAtotal`, `s02a` = `s03a` = `s01a`, and `s12aa` .. `s22aa` = `s11aa` |
| EngineSymmetry.InitialPowers | v1p1/Gmn.java:189-241 | the higher-order initial state satisfies that equality |
| EngineTails.TailOrdered | v1p1/Gmn.java:1712-1716 | one tail correction with a non-negative weight keeps each block of `s01a` non-decreasing and below its `wAtotal` |
| EngineTails.GatherKeepsTails | v1p1/Gmn.java:1726-1730 | the gather loop never changes `s01a` |
| EngineTails.PushOrdered | v1p1/Gmn.java:1704-1731 | a push of a bin with non-negative weight keeps `s01a` ordered |
| EngineTails.RunOrdered | v1p1/Gmn.java:1710-1716 | over a batch with non-negative weights on A, `s01a` stays non-decreasing along every cascade's block, and its last entry is at most `wAtotal` |
| EngineTails.InitialOrdered | v1p1/Gmn.java:129-134 | the initial `s01a` and `wAtotal` are ordered |
| Correlator.ModeOf | v1p1/Gmn.java:109-245 | `initializeGmn` accepts exactly "auto", "cross" and "autoHOmlt" |
| Correlator.NewRings | v1p1/Gmn.java:120-122 | new rings of 256 · nc slots, every time 10000 and every weight 0 |
| Correlator.NewBatch | v1p1/Gmn.java:116-117 | a new batch of 32768 iats and weights (weights on B only for the cross correlator) |
| Correlator.CreditLag | v1p1/Gmn.java:1714 | one iteration of the tail loop credits lag ii exactly as the closed form does |
| Correlator.Truncated | v1p1/Gmn.java:364-372 | a fresh copy of the first n entries |
| Correlator.Gmn.constructor | v1p1/Gmn.java:26-28 | a new object has t0 = 1, nc = 16, np = 16 and no events |
| Correlator.Gmn.SetParams | v1p1/Gmn.java:289-293 | the parameters become the given t0, nc, np |
| Correlator.Gmn.GetParams | v1p1/Gmn.java:295-302 | a fresh array [t0, nc, np] |
| Correlator.Gmn.GetNofEvents | v1p1/Gmn.java:304-306 | the number of events of the batch |
| Correlator.Gmn.ResetInput | v1p1/Gmn.java:109-152 | the decoder state restarts: both cursors at the start, an empty new batch, `iatA` 0; `ccA` is reset to 0 for the auto and autoHOmlt correlators and kept for cross, `iatB` is reset to 0 for cross and kept otherwise |
| Correlator.Gmn.ResetArrays | v1p1/Gmn.java:123-134 | bins, totals and sums are reset for the chosen correlator |
| Correlator.Gmn.AllocateRings | v1p1/Gmn.java:120-122 | new rings filled with 10000 and 0, after which the state satisfies phase B's invariant |
| Correlator.Gmn.ResetTrace | v1p1/Gmn.java:136-140 | new trace arrays of 32768 points, position 0, bin size 4096, macro time 0 |
| Correlator.Gmn.InitializeGmn | v1p1/Gmn.java:106-254 | returns 1 and prepares the chosen correlator for "auto", "cross" or "autoHOmlt"; any other string returns -1 and changes nothing |
| Correlator.Gmn.Initialize | v1p1/Gmn.java:109-241 | preparing a correlator leaves a valid object with traced arrays and no events, with the parameters unchanged |
| Correlator.Gmn.AllocateCorrelator | v1p1/Gmn.java:120-134 | the correlator's arrays are new and satisfy phase B's invariant |
| Correlator.Gmn.SkipLoop | v1p1/Gmn.java:1721-1724 | the skip loop computes `Skip` |
| Correlator.Gmn.Bump | v1p1/Gmn.java:1723 | adds the bin's time to one slot and changes nothing else |
| Correlator.Gmn.GatherSlot | v1p1/Gmn.java:1727-1729 | one iteration of the gather loop keeps the remaining search equal to `Gather` |
| Correlator.Gmn.GatherLoop | v1p1/Gmn.java:1726-1730 | the gather loop computes `Gather` |
| Correlator.Gmn.TailLoop | v1p1/Gmn.java:1712-1716 | the tail loop adds the closed-form tail corrections to all sums |
| Correlator.Gmn.PushSlots | v1p1/Gmn.java:1704-1711 | a push writes the time slot, advances the pointer, writes the weight slots and updates the totals |
| Correlator.Gmn.Search | v1p1/Gmn.java:1718-1731 | the correlation search computes `Walk` |
| Correlator.Gmn.PushBin | v1p1/Gmn.java:1704-1731 | pushing a bin moves the object's state to `Push` of it |
| Correlator.Gmn.WindowAt | v1p1/Gmn.java:1720-1726 | reads a cascade's search window from the lag table |
| Correlator.Gmn.CloseCascade | v1p1/Gmn.java:1703-1734 | closing a coarse bin moves the state by one cascade step |
| Correlator.Gmn.StepCascade | v1p1/Gmn.java:1699-1767 | one iteration of the cascade loop is `CascadeStep` |
| Correlator.Gmn.Pass | v1p1/Gmn.java:1697-1768 | one event through all cascades is `Cascades`, keeps the invariant, and moves the time-base-1 cascade's run of zeros on by that event |
| Correlator.Gmn.PassStep | v1p1/Gmn.java:1697-1768 | one cascade of the pass keeps the invariant and the remaining pass |
| Correlator.Gmn.Correlate | v1p1/Gmn.java:1693-1769 | phase B over the batch ends in `Run` of the batch and keeps the invariant |
| Correlator.Gmn.Start | v1p1/Gmn.java:1693-1697 | before the first event of phase B the whole batch is admitted and its run from the current state is the target |
| Correlator.Gmn.Feed | v1p1/Gmn.java:1693-1697 | one event of phase B shortens the remaining run by one event and leaves a state from which the rest of the batch is admitted, after the run of zeros that event leaves |
| Correlator.Gmn.Finish | v1p1/Gmn.java:1693-1697 | once every event is fed the object's state is the batch's run and keeps the invariant |
| Correlator.Gmn.NormAt | v1p1/Gmn.java:1776-1783 | phase C's values for one lag |
| Correlator.Gmn.NormBlock | v1p1/Gmn.java:1775-1789 | phase C's values for one cascade |
| Correlator.Gmn.Normalize | v1p1/Gmn.java:1773-1790 | phase C's values for all cascades |
| Correlator.Gmn.UpdateCorrAutoInt | v1p1/Gmn.java:1649-1798 | the auto correlator moves the state to `Run` of the batch (its lag products wrapped to 32 bits as Java `int`s), leaves the batch as it is, and stores phase C's values |
| Correlator.Gmn.UpdateCorrCrossInt | v1p1/Gmn.java:1800-2001 | the cross correlator moves the state to `Run` of the batch with both channels (its four lag products wrapped to 32 bits as Java `int`s), leaves the batch as it is, and stores phase C's values |
| Correlator.Gmn.UpdateCorrAutoHOmltInt | v1p1/Gmn.java:2003-2250 | the higher-order correlator moves the state to `Run` of the batch (its products, squares, cubes and quartics wrapped to 32 bits as Java `int`s), leaves the batch as it is, and stores phase C's values |
| Correlator.Gmn.UpdateDataFlexOneCh | v1p1/Gmn.java:413-450 | the batch holds `FlexOne`'s events, the cursor and the carried iat are `FlexOne`'s, and the return value is the chunk size or -1 |
| Correlator.Gmn.Gathering | v1p1/Gmn.java:465-504 | the collecting step of the merge loop is `Prepare` |
| Correlator.Gmn.MergeOne | v1p1/Gmn.java:507-532 | one merge appends the `Merge` event and advances the marked channels |
| Correlator.Gmn.MergeStep | v1p1/Gmn.java:465-532 | one iteration of the merge loop keeps the batch so far plus the rest equal to `FlexTwo` |
| Correlator.Gmn.UpdateDataFlexTwoCh | v1p1/Gmn.java:452-595 | the batch holds `FlexTwo`'s events on both channels, with its cursors and carried iats, and the return value is channel A's chunk size or -1 |
| Correlator.Gmn.UpdateOnlineCustomHardwareOneCh | v1p1/Gmn.java:394-411 | copies up to 32768 signed bytes from `ccA` on as iats of weight 1, and returns `nDataPoints` (resetting `ccA` to 0) when the block is used up, or the new `ccA` otherwise; when `nDataPoints` runs past the end of `inputData` the copy throws exactly there, leaving the bytes copied so far and `ccA` advanced |
| Correlator.Gmn.Put | v1p1/Gmn.java:1357-1359 | appends one event to the batch |
| Correlator.Gmn.MaskBit | v1p1/Gmn.java:685-734 | one mask bit of a record walks one slot of `Emit` |
| Correlator.Gmn.Record2 | v1p1/Gmn.java:622-736 | one record appends `Record`'s events and sets the carried iat |
| Correlator.Gmn.Confocor2Step | v1p1/Gmn.java:620-745 | one iteration of the record loop stays on track with `Confocor2` |
| Correlator.Gmn.Confocor2Record | v1p1/Gmn.java:620-742 | one record, advancing the cursor by two bytes only when it is complete |
| Correlator.Gmn.UpdateDataConfocor2 | v1p1/Gmn.java:611-750 | the shared body of the three Confocor2 decoders: the batch holds `Confocor2`'s events |
| Correlator.Gmn.UpdateDataConfocor2chA | v1p1/Gmn.java:611-750 | the batch holds `Confocor2`'s channel A events, with its cursor and carry, and the return value is the chunk size or -1 |
| Correlator.Gmn.UpdateDataConfocor2chB | v1p1/Gmn.java:752-891 | the same for channel B |
| Correlator.Gmn.UpdateDataConfocor2chAB | v1p1/Gmn.java:893-1048 | the same for both channels, with weights on A and B |
| Correlator.Gmn.Confocor3Step | v1p1/Gmn.java:1074-1113 | one 4-byte record stays on track with `Confocor3` |
| Correlator.Gmn.UpdateDataConfocor3OneCh | v1p1/Gmn.java:1064-1119 | the batch holds `Confocor3`'s events, with its cursor and carry, and the return value is the chunk size or -1 |
| Correlator.Gmn.PicoStep | v1p1/Gmn.java:1344-1369 | one record stays on track with `Pico` |
| Correlator.Gmn.PicoPhotonStep | v1p1/Gmn.java:1345-1360 | one photon record stays on track with `Pico` |
| Correlator.Gmn.UpdateDataPicoHarp | v1p1/Gmn.java:1330-1375 | the shared body of the PicoHarp decoders: the batch holds `Pico`'s events |
| Correlator.Gmn.UpdateDataPicoHarpPT3chA | v1p1/Gmn.java:1330-1375 | the batch holds `Pico`'s T3 channel 1 events, with its cursor and reference, and the return value is the chunk size or -1 |
| Correlator.Gmn.UpdateDataPicoHarpPT3chB | v1p1/Gmn.java:1377-1422 | the same for T3 channel 2 |
| Correlator.Gmn.UpdateDataPicoHarpPT3chAB | v1p1/Gmn.java:1424-1487 | the same for T3 channels 1 and 2, with weights on A and B |
| Correlator.Gmn.UpdateDataPicoHarpPT2chA | v1p1/Gmn.java:1531-1582 | the same for T2 channel 1, with the iat after an overflow record wrapped as a Java `int` (see `PicoHarp.PicoWraps`) |
| Correlator.Gmn.PlacePoint | v1p1/Gmn.java:1603-1608 | writes one trace point at the current position and moves it on |
| Correlator.Gmn.TraceStep | v1p1/Gmn.java:1597-1610 | one iteration of the binning loop stays on track with `Points` |
| Correlator.Gmn.UpdateIntensityTrace | v1p1/Gmn.java:1584-1647 | the shared body of the two tracers |
| Correlator.Gmn.UpdateIntensityTraceOneChInt | v1p1/Gmn.java:1584-1613 | writes the batch's `Points` from the current position on, up to the 32768-point limit, and moves the macro time by the points written (by the batch's ticks when all fit) |
| Correlator.Gmn.UpdateIntensityTraceTwoChInt | v1p1/Gmn.java:1615-1647 | the same with the channel B rates |
| Correlator.Gmn.GetIntensityTraceX | v1p1/Gmn.java:364-372 | a fresh copy of the trace times written so far |
| Correlator.Gmn.GetIntensityTraceYA | v1p1/Gmn.java:374-382 | a fresh copy of the channel A rates written so far |
| Correlator.Gmn.GetIntensityTraceYB | v1p1/Gmn.java:384-392 | a fresh copy of the channel B rates written so far |

## Left out

- Floating point. The g arrays, the cumulants of phase C (lines 1784-1788 and their cross and higher-order counterparts) and the trace rates are doubles in the source. Phase C stores its exact integer inputs (`s10`, `n` and the higher-order walks) in `norms`. A trace point's rates are kept as the exact pair (weight, ticks) and its x as an exact real.
- The `double` accumulators `tlast`, `wAtotal`, `macroTime` and the `s` sums are exact integers. Rounding of very large doubles is not modelled.
- Java `int` overflow in ring times, `mta`, the iats the Flex and Confocor2 decoders accumulate and phase B adds up, bin weights (`wAintTemp`, `wAintArray`) and the intensity tracer's bin sums `x` and `y` (lines 1593-1599) is not modelled. These are unbounded integers. The wrap-around is modelled where the source relies on it (`byte4ToInt`, the Confocor3 word, the byte pointers `sp` / `st`), for the PicoHarp iats and reference (every `tempmta - iatA` and every lowering on an overflow record), and for every product of weights in phase B: the lag products, squares, cubes and quartics are `int` expressions in the source and wrap to 32 bits (`ToInt32`) before they reach the `double` sums.
- `getMin` and `getMax` (lines 256-270) are not modelled: they work on double arrays only.
- The plain getters (`getPhotonsIat`, `getWeightsA/B`, `getWaTotal`, `getG11` .. `getGbb`, `getIntensityTracePosition`) are not modelled. They return a field; the fields are visible in the model.
- File I/O. A decoder takes the file's bytes after the header, and a cursor that stands for `evA` / `bufferInSizeA`. Every read is assumed to fill a whole 32768-byte chunk, except the last.
- The decoders require the data to be a whole number of records (2 bytes for Confocor2, 4 for Confocor3 and PicoHarp). A truncated last record, which the source reads past the buffer end, is not modelled.
- Flex.FlexTwo: when a merge step moves a channel onto the end of its last, partial chunk, the model ends that channel at once. The source notices the end only on the next pass of its merge loop. There the ended channel first gathers the stale byte left in its buffer (adding its ticks to the carried iat) before the read returns -1. On a tie the other channel then gathers its next photon, leaving its cursor on that photon byte, and the drain reads that byte a second time. Example: A = [0], B = [0, 0] from fresh cursors: the source gives (1, 1, 1) then (2, 0, 1), the model (1, 1, 1) then (1, 0, 1). Without a tie the events agree; the ended channel's carried iat differs by the stale byte's ticks. If the batch fills at that step, the source returns the chunk size where the model returns -1.
- Correlator.Gmn.UpdateDataFlexTwoCh: follows `Flex.FlexTwo`, so it shares the late end detection left out above.
- Flex.FlexTwo: after a merge step the source does not refill a chunk (lines 507-532). The model reads on at the next chunk, where the source would index past its buffer and return early from the `finally` block.
- Confocor.Confocor2: a batch that fills in the middle of a record makes the source index past its batch array. The `finally` block turns that into a return. The model stops at that record with its partial iat.
- Java `==` on strings (identity) is modelled as string equality in `initializeGmn`.
- The out-of-memory branch of `initializeGmn` (return -2, lines 247-251) is not modelled.
- `readHeaderLongPicoHarpPT3`: the decoding of the header strings and their `println` are not modelled. Only the bytes it skips are.
- The older `Gmn.java` is not modelled on its own. Its `"high order"` type string (which only allocates the auto arrays there) is not accepted by the model's `initializeGmn`; only the v1p1 strings are.
- The calling programs (the FCS drivers that loop over decoders and correlators) are not part of this model.
- Correlator.Gmn.UpdateCorrAutoInt, Correlator.Gmn.UpdateCorrCrossInt, Correlator.Gmn.UpdateCorrAutoHOmltInt: require every iat of the batch to be at least 0. With t0 = 1 (the default) an iat of 0 is a bin of time 0 on the time-base-1 cascade; the cross-correlation decoders produce one for every pair of coincident photons. The model admits it when one of the R - 1 events before it in the batch has an iat of at least 1, with R = 257 / (2np + 3) (integer division): R is 7 for np = 16, so runs of up to 6 coincident zeros are covered. Still excluded: a batch that opens with an iat of 0 (the bins of the previous batch are not known to the model), a longer run of zeros, and any zero when np > 62. A long enough run of zeros keeps the newest ring times within the window, and then the source's search loops walk the whole ring and start over on the newest bin; the model's bound R is sufficient for the search to stop, not the exact limit.
- LagTable.ComputeLags: requires np <= 127 and t0 · 2^nc · np within the int range. With np = 128 the longest lag of cascade 0 is 256 slots, and the backward walk of phase B can pass the ring's pointer and start over on the newest bin; larger t0 · 2^nc · np overflow the lag times.
- EngineTails.RunOrdered: holds for weights on A of at least 0. Every decoder produces such weights.
- EngineSymmetry.RunPowers: stated for cascade 0 with t0 = 1 only. On coarser cascades a bin's weight can exceed 1, and the powers differ.
- EngineLaws.PrepassMono: requires non-negative ring weights. Every decoder produces such weights. For `s20` and `s30` it promises the order only below the weights 46340 and 1290: above them a Java `int` square or cube can wrap to a negative value and the order fails.

/** The Zeiss Confocor formats.

    Confocor2 (updateDataConfocor2chA / chB / chAB): 2-byte records [v, mask].
    v == 0 marks the end of the data. Otherwise the clock first advances by v
    ticks (255 for an escape byte v == 255), then the eight mask bits are read
    in order, with one more tick before bits 2, 4 and 6: a set bit is a photon
    at that sub-tick. Even bits belong to channel A and odd bits to channel B.

    Confocor3 (updateDataConfocor3OneCh): 4-byte records, each one photon whose
    interval is the little-endian value of the record. */
module Confocor {
  import opened JavaInt
  import opened Events
  import opened Stream

  /** Which Confocor2 decoder runs: chA keeps the even mask bits, chB the odd
      ones (both as weight on wAint), chAB keeps all and tags each by channel. */
  datatype Channel = ChA | ChB | ChAB

  /** Bit k of a mask byte: `(mask & (1 << k)) != 0`. */
  predicate Bit(mask: Byte, k: nat)
    decreases k
  {
    if k == 0 then mask % 2 == 1 else Bit(mask / 2, k - 1)
  }

  /** Whether the photon of mask bit k becomes an event in decoder sel. */
  predicate Keeps(sel: Channel, k: nat)
  {
    match sel
    case ChA => k % 2 == 0
    case ChB => k % 2 == 1
    case ChAB => true
  }

  /** The weights (wAint, wBint) the event of mask bit k gets. */
  function Tag(sel: Channel, k: nat): (int, int)
  {
    if sel == ChAB && k % 2 == 1 then (0, 1) else (1, 0)
  }

  /** The weights a decoder gives its events. */
  function ChannelTags(sel: Channel): set<(int, int)>
  {
    if sel == ChAB then {(1, 0), (0, 1)} else {(1, 0)}
  }

  /** The ticks added before mask bit k is read. */
  function TickBefore(k: nat): int
  {
    if k == 2 || k == 4 || k == 6 then 1 else 0
  }

  /** One sub-tick of a record as a decoder reads it: the ticks added before
      it, whether it holds a photon the decoder keeps, and that event's weights. */
  datatype Slot = Slot(tick: int, photon: bool, wA: int, wB: int)

  /** The eight sub-ticks of a record with this mask, in the order the source
      tests the bits. Only kept bits are photons: chA keeps the even ones,
      chB the odd ones, chAB all of them. */
  function Slots(mask: Byte, sel: Channel): (s: seq<Slot>)
    ensures |s| == 8
  {
    [SlotAt(mask, sel, 0), SlotAt(mask, sel, 1), SlotAt(mask, sel, 2), SlotAt(mask, sel, 3),
     SlotAt(mask, sel, 4), SlotAt(mask, sel, 5), SlotAt(mask, sel, 6), SlotAt(mask, sel, 7)]
  }

  /** Sub-tick k of a record. */
  function SlotAt(mask: Byte, sel: Channel, k: nat): Slot
  {
    Slot(TickBefore(k), Bit(mask, k) && Keeps(sel, k), Tag(sel, k).0, Tag(sel, k).1)
  }

  /** Sub-tick k of a record is bit k of its mask; chA finds photons only on
      even sub-ticks and chB only on odd ones. */
  lemma SlotsAt(mask: Byte, sel: Channel)
    ensures var s := Slots(mask, sel);
      forall k :: 0 <= k < 8 ==> s[k] == SlotAt(mask, sel, k)
    ensures var s := Slots(mask, sel);
      forall k :: 0 <= k < 8 && s[k].photon ==> (sel == ChA ==> k % 2 == 0) && (sel == ChB ==> k % 2 == 1)
  {
  }

  /** The photons among some sub-ticks. */
  function Photons(s: seq<Slot>): nat
  {
    if s == [] then 0 else (if s[0].photon then 1 else 0) + Photons(s[1..])
  }

  /** The ticks some sub-ticks add. */
  function SlotTicks(s: seq<Slot>): int
  {
    if s == [] then 0 else s[0].tick + SlotTicks(s[1..])
  }

  predicate Ticking(s: seq<Slot>)
  {
    forall i :: 0 <= i < |s| ==> s[i].tick >= 0
  }

  /** The events of the rest of a record and the pending interval after it.
      `complete` is false when an event found the batch full: the source
      checks for room only between records, so that event's array write
      fails and the call returns there, with the ticks added so far already
      in the pending interval. */
  datatype Rec = Rec(events: seq<Event>, iat: int, complete: bool)

  /** Reading sub-ticks with room for at most `room` events: each adds its
      ticks to the pending interval, and each photon closes it as an event. */
  function Emit(s: seq<Slot>, iat: int, room: nat): (r: Rec)
    ensures |r.events| <= room && (!r.complete ==> |r.events| == room)
  {
    if s == [] then Rec([], iat, true)
    else
      var now := iat + s[0].tick;
      if s[0].photon then
        if room == 0 then Rec([], now, false)
        else
          var rest := Emit(s[1..], 0, room - 1);
          Rec([Event(now, s[0].wA, s[0].wB)] + rest.events, rest.iat, rest.complete)
      else Emit(s[1..], now, room)
  }

  /** Reading the sub-ticks from k on: sub-tick k, then the rest. */
  lemma EmitAt(s: seq<Slot>, k: nat, iat: int, room: nat)
    requires k < |s|
    ensures var now := iat + s[k].tick;
      Emit(s[k..], iat, room) ==
        if !s[k].photon then Emit(s[k + 1..], now, room)
        else if room == 0 then Rec([], now, false)
        else
          var rest := Emit(s[k + 1..], 0, room - 1);
          Rec([Event(now, s[k].wA, s[k].wB)] + rest.events, rest.iat, rest.complete)
  {
    assert s[k..][0] == s[k] && s[k..][1..] == s[k + 1..];
  }

  /** A record read to the end gives one event per photon and passes on all
      its ticks; one that is cut short found more photons than room. */
  lemma {:induction false} EmitComplete(s: seq<Slot>, iat: int, room: nat)
    ensures var r := Emit(s, iat, room);
      (r.complete ==> |r.events| == Photons(s) && Ticks(r.events) + r.iat == iat + SlotTicks(s)) &&
      (!r.complete ==> room < Photons(s))
  {
    if s != [] {
      var now := iat + s[0].tick;
      if s[0].photon && room > 0 {
        var e := Event(now, s[0].wA, s[0].wB);
        var rest := Emit(s[1..], 0, room - 1);
        assert Emit(s, iat, room) == Rec([e] + rest.events, rest.iat, rest.complete);
        TicksCons(e, rest.events);
        EmitComplete(s[1..], 0, room - 1);
      } else if !s[0].photon {
        EmitComplete(s[1..], now, room);
      }
    }
  }

  /** With non-negative sub-ticks and pending interval, no event interval
      and no pending interval is negative. */
  lemma {:induction false} EmitNonNegative(s: seq<Slot>, iat: int, room: nat)
    requires Ticking(s) && iat >= 0
    ensures var r := Emit(s, iat, room);
      r.iat >= 0 && NonNegative(r.events)
  {
    if s != [] {
      var now := iat + s[0].tick;
      assert Ticking(s[1..]);
      if s[0].photon && room > 0 {
        var e := Event(now, s[0].wA, s[0].wB);
        var rest := Emit(s[1..], 0, room - 1);
        assert Emit(s, iat, room) == Rec([e] + rest.events, rest.iat, rest.complete);
        EmitNonNegative(s[1..], 0, room - 1);
      } else if !s[0].photon {
        EmitNonNegative(s[1..], now, room);
      }
    }
  }

  /** An interrupted record has passed part of its ticks on, and no more than all. */
  lemma {:induction false} EmitPartial(s: seq<Slot>, iat: int, room: nat)
    requires Ticking(s)
    ensures var r := Emit(s, iat, room);
      !r.complete ==> iat <= Ticks(r.events) + r.iat <= iat + SlotTicks(s)
  {
    if s != [] {
      var now := iat + s[0].tick;
      assert Ticking(s[1..]);
      SlotTicksNonNegative(s[1..]);
      if s[0].photon && room > 0 {
        var e := Event(now, s[0].wA, s[0].wB);
        var rest := Emit(s[1..], 0, room - 1);
        assert Emit(s, iat, room) == Rec([e] + rest.events, rest.iat, rest.complete);
        TicksCons(e, rest.events);
        EmitPartial(s[1..], 0, room - 1);
      } else if !s[0].photon {
        EmitPartial(s[1..], now, room);
      }
    }
  }

  lemma {:induction false} SlotTicksNonNegative(s: seq<Slot>)
    requires Ticking(s)
    ensures SlotTicks(s) >= 0
  {
    if s != [] {
      assert Ticking(s[1..]);
      SlotTicksNonNegative(s[1..]);
    }
  }

  /** Every event takes its weights from a photon sub-tick. */
  lemma {:induction false} EmitTags(s: seq<Slot>, iat: int, room: nat, tags: set<(int, int)>)
    requires forall i :: 0 <= i < |s| && s[i].photon ==> (s[i].wA, s[i].wB) in tags
    ensures WeightsIn(Emit(s, iat, room).events, tags)
  {
    if s != [] && !(s[0].photon && room == 0) {
      var now := iat + s[0].tick;
      assert forall i :: 0 <= i < |s[1..]| && s[1..][i].photon ==> (s[1..][i].wA, s[1..][i].wB) in tags by {
        forall i | 0 <= i < |s[1..]| ensures s[1..][i] == s[i + 1] { }
      }
      if s[0].photon {
        EmitTags(s[1..], 0, room - 1, tags);
      } else {
        EmitTags(s[1..], now, room, tags);
      }
    }
  }

  /** A whole record always adds three sub-ticks. */
  lemma RecordTicks(mask: Byte, sel: Channel)
    ensures SlotTicks(Slots(mask, sel)) == 3 && Ticking(Slots(mask, sel))
  {
    var s := Slots(mask, sel);
    SlotsAt(mask, sel);
    assert SlotTicks(s[8..]) == 0;
    assert SlotTicks(s[7..]) == 0;
    assert SlotTicks(s[6..]) == 1;
    assert SlotTicks(s[5..]) == 1;
    assert SlotTicks(s[4..]) == 2;
    assert SlotTicks(s[3..]) == 2;
    assert SlotTicks(s[2..]) == 3;
    assert SlotTicks(s[1..]) == 3;
    assert s[0..] == s;
  }

  /** The number of events of a complete record: its kept photons. */
  function Kept(mask: Byte, sel: Channel): nat
  {
    Photons(Slots(mask, sel))
  }

  /** chAB keeps each photon chA or chB keeps, and no other: over a record
      its event count is the sum of theirs. */
  lemma {:induction false} PhotonsSplit(ab: seq<Slot>, a: seq<Slot>, b: seq<Slot>)
    requires |ab| == |a| == |b|
    requires forall i :: 0 <= i < |ab| ==> (ab[i].photon <==> a[i].photon || b[i].photon) && !(a[i].photon && b[i].photon)
    ensures Photons(ab) == Photons(a) + Photons(b)
    decreases |ab|
  {
    if ab != [] {
      assert forall i :: 0 <= i < |ab| - 1 ==> ab[1..][i] == ab[i + 1] && a[1..][i] == a[i + 1] && b[1..][i] == b[i + 1];
      PhotonsSplit(ab[1..], a[1..], b[1..]);
    }
  }

  lemma KeptSplit(mask: Byte)
    ensures Kept(mask, ChAB) == Kept(mask, ChA) + Kept(mask, ChB)
  {
    SlotsAt(mask, ChAB);
    SlotsAt(mask, ChA);
    SlotsAt(mask, ChB);
    PhotonsSplit(Slots(mask, ChAB), Slots(mask, ChA), Slots(mask, ChB));
  }

  /** One record [v, mask] with v != 0: v ticks, then the sub-ticks. The
      source adds 255 for the escape byte v == 255 and v otherwise, which is
      the same number, and adds the three sub-ticks at once when v == 255
      and the mask is empty, which is what the bits give too. */
  function Record(v: Byte, mask: Byte, sel: Channel, iat: int, room: nat): (r: Rec)
  {
    Emit(Slots(mask, sel), iat + v, room)
  }

  /** What turns one record [v, mask] into events, given the pending
      interval and the room left in the batch. */
  type Decoder = (Byte, Byte, int, nat) -> Rec

  /** The record decoder of updateDataConfocor2chA / chB / chAB. */
  function Records(sel: Channel): Decoder
  {
    (v: Byte, mask: Byte, iat: int, room: nat) => Record(v, mask, sel, iat, room)
  }

  /** A decoder never fills more than the room it is given, and stops early
      only on a full batch. */
  ghost predicate Fits(dec: Decoder)
  {
    forall v: Byte, mask: Byte, iat: int, room: nat :: |dec(v, mask, iat, room).events| <= room &&
      (!dec(v, mask, iat, room).complete ==> |dec(v, mask, iat, room).events| == room)
  }

  lemma RecordsFit(sel: Channel)
    ensures Fits(Records(sel))
  {
  }

  /** The ticks of the complete records in data[p..q]. */
  function Clock(data: seq<Byte>, p: nat, q: nat): int
    requires p <= q <= |data|
    decreases q - p
  {
    if q - p < 2 then 0 else data[p] + 3 + Clock(data, p + 2, q)
  }

  lemma ClockStep(data: seq<Byte>, p: nat, q: nat)
    requires p + 2 <= q <= |data|
    ensures Clock(data, p, q) == data[p] + 3 + Clock(data, p + 2, q)
  {
  }

  /** The events the complete records in data[p..q] give, when a record with
      mask m gives kept(m). */
  function KeptRun(data: seq<Byte>, p: nat, q: nat, kept: Byte -> nat): nat
    requires p <= q <= |data|
    decreases q - p
  {
    if q - p < 2 then 0 else kept(data[p + 1]) + KeptRun(data, p + 2, q, kept)
  }

  /** A decoding run of Confocor2; `cut` says that it returned inside a
      record, and `carried` is what that interrupted record
      already moved into the events and the pending interval (0 if none). */
  datatype C2Run = C2Run(events: seq<Event>, cursor: Cursor, iat: int, cut: bool, carried: int)

  /** The loop of updateDataConfocor2chA / chB / chAB after the entry refill,
      for any record decoder: while there is room and data, a record with
      v == 0 ends the data (the cursor stays on it); any other record is
      decoded and, when it was read to the end, consumed. */
  function Loop2(data: seq<Byte>, c: Cursor, iat: int, room: nat, dec: Decoder): (r: C2Run)
    requires Live(c, |data|) && |data| % 2 == 0 && c.pos % 2 == 0
    ensures Live(r.cursor, |data|) && c.pos <= r.cursor.pos && r.cursor.pos % 2 == 0
    decreases |data| - c.pos
  {
    if room == 0 || c.ended then C2Run([], c, iat, false, 0)
    else if data[c.pos] == 0 then C2Run([], Cursor(c.pos, true), iat, false, 0)
    else
      var rec := dec(data[c.pos], data[c.pos + 1], iat, room);
      if !rec.complete || room < |rec.events| then
        C2Run(rec.events, c, rec.iat, true, Ticks(rec.events) + rec.iat - iat)
      else
        var rest := Loop2(data, Advance(c, 2, |data|), rec.iat, room - |rec.events|, dec);
        C2Run(rec.events + rest.events, rest.cursor, rest.iat, rest.cut, rest.carried)
  }

  /** The Confocor2 decoding loop of decoder sel. */
  function Confocor2(data: seq<Byte>, c: Cursor, iat: int, sel: Channel, room: nat): (r: C2Run)
    requires Live(c, |data|) && |data| % 2 == 0 && c.pos % 2 == 0
    ensures Live(r.cursor, |data|) && c.pos <= r.cursor.pos && r.cursor.pos % 2 == 0 && |r.events| <= room
    ensures c.ended ==> r == C2Run([], c, iat, false, 0)
  {
    RecordsFit(sel);
    Loop2Stops(data, c, iat, room, Records(sel));
    Loop2(data, c, iat, room, Records(sel))
  }

  /** Confocor2 on a record read to the end: its events, then the run from
      the next record. */
  lemma Confocor2Record(data: seq<Byte>, c: Cursor, iat: int, sel: Channel, room: nat)
    requires Live(c, |data|) && |data| % 2 == 0 && c.pos % 2 == 0
    requires room > 0 && !c.ended && data[c.pos] != 0
    requires Record(data[c.pos], data[c.pos + 1], sel, iat, room).complete
    ensures var rec := Record(data[c.pos], data[c.pos + 1], sel, iat, room);
      var rest := Confocor2(data, Advance(c, 2, |data|), rec.iat, sel, room - |rec.events|);
      |rec.events| <= room &&
      Confocor2(data, c, iat, sel, room) == C2Run(rec.events + rest.events, rest.cursor, rest.iat, rest.cut, rest.carried)
  {
    RecordsFit(sel);
    Loop2Step(data, c, iat, room, Records(sel));
  }

  /** Confocor2 on a record the batch fills up in: it ends on that record
      with what the record gave so far. */
  lemma Confocor2Cut(data: seq<Byte>, c: Cursor, iat: int, sel: Channel, room: nat)
    requires Live(c, |data|) && |data| % 2 == 0 && c.pos % 2 == 0
    requires room > 0 && !c.ended && data[c.pos] != 0
    requires !Record(data[c.pos], data[c.pos + 1], sel, iat, room).complete
    ensures var rec := Record(data[c.pos], data[c.pos + 1], sel, iat, room);
      var r := Confocor2(data, c, iat, sel, room);
      r.events == rec.events && r.cursor == c && r.iat == rec.iat
  {
    Loop2Cut(data, c, iat, room, Records(sel));
  }

  /** Confocor2 on an end marker: the run of the ended cursor on it. */
  lemma Confocor2Marker(data: seq<Byte>, c: Cursor, iat: int, sel: Channel, room: nat)
    requires Live(c, |data|) && |data| % 2 == 0 && c.pos % 2 == 0
    requires room > 0 && !c.ended && data[c.pos] == 0
    ensures Confocor2(data, c, iat, sel, room) == Confocor2(data, Cursor(c.pos, true), iat, sel, room)
  {
  }

  /** The loop on a record that is decoded to the end: its events, then the
      rest of the run. */
  lemma Loop2Step(data: seq<Byte>, c: Cursor, iat: int, room: nat, dec: Decoder)
    requires Live(c, |data|) && |data| % 2 == 0 && c.pos % 2 == 0
    requires room > 0 && !c.ended && data[c.pos] != 0
    requires dec(data[c.pos], data[c.pos + 1], iat, room).complete && |dec(data[c.pos], data[c.pos + 1], iat, room).events| <= room
    ensures var rec := dec(data[c.pos], data[c.pos + 1], iat, room);
      var rest := Loop2(data, Advance(c, 2, |data|), rec.iat, room - |rec.events|, dec);
      Loop2(data, c, iat, room, dec) == C2Run(rec.events + rest.events, rest.cursor, rest.iat, rest.cut, rest.carried)
  {
  }

  /** The loop on a record that is cut short: it returns at once, on the
      record, with what the record gave so far. */
  lemma Loop2Cut(data: seq<Byte>, c: Cursor, iat: int, room: nat, dec: Decoder)
    requires Live(c, |data|) && |data| % 2 == 0 && c.pos % 2 == 0
    requires room > 0 && !c.ended && data[c.pos] != 0
    requires var rec := dec(data[c.pos], data[c.pos + 1], iat, room); !rec.complete || room < |rec.events|
    ensures var rec := dec(data[c.pos], data[c.pos + 1], iat, room);
      Loop2(data, c, iat, room, dec) == C2Run(rec.events, c, rec.iat, true, Ticks(rec.events) + rec.iat - iat)
  {
  }

  /** The loop stops only when the batch is full or the data has ended; it
      ends on the end of the file or on an end marker; an ended cursor gives
      nothing; and only an interrupted record, which fills the batch,
      carries ticks. */
  lemma {:induction false} Loop2Stops(data: seq<Byte>, c: Cursor, iat: int, room: nat, dec: Decoder)
    requires Live(c, |data|) && |data| % 2 == 0 && c.pos % 2 == 0 && Fits(dec)
    ensures var r := Loop2(data, c, iat, room, dec);
      |r.events| <= room && (|r.events| == room || r.cursor.ended) &&
      (c.ended ==> r == C2Run([], c, iat, false, 0)) &&
      (r.cut ==> !r.cursor.ended && |r.events| == room) && (!r.cut ==> r.carried == 0) &&
      (!c.ended && r.cursor.ended && r.cursor.pos < |data| ==> data[r.cursor.pos] == 0)
    decreases |data| - c.pos
  {
    if !(room == 0 || c.ended) && data[c.pos] != 0 {
      var rec := dec(data[c.pos], data[c.pos + 1], iat, room);
      if rec.complete && |rec.events| <= room {
        var next := Advance(c, 2, |data|);
        Loop2Step(data, c, iat, room, dec);
        Loop2Stops(data, next, rec.iat, room - |rec.events|, dec);
      } else {
        Loop2Cut(data, c, iat, room, dec);
      }
    }
  }

  /** A decoder that passes on v + 3 ticks for a complete record and between
      v and v + 3 for an interrupted one. */
  ghost predicate Clocked(dec: Decoder)
  {
    forall v: Byte, mask: Byte, iat: int, room: nat ::
      var rec := dec(v, mask, iat, room);
      (rec.complete ==> Ticks(rec.events) + rec.iat == iat + v + 3) &&
      (!rec.complete ==> iat + v <= Ticks(rec.events) + rec.iat <= iat + v + 3)
  }

  /** No tick is lost: the ticks of the consumed records, plus those an
      interrupted record passed on, are in the events and the pending
      interval. */
  lemma {:induction false} Loop2Clock(data: seq<Byte>, c: Cursor, iat: int, room: nat, dec: Decoder)
    requires Live(c, |data|) && |data| % 2 == 0 && c.pos % 2 == 0 && Clocked(dec)
    ensures var r := Loop2(data, c, iat, room, dec);
      Ticks(r.events) + r.iat == iat + Clock(data, c.pos, r.cursor.pos) + r.carried
    decreases |data| - c.pos
  {
    if !(room == 0 || c.ended) && data[c.pos] != 0 {
      var v := data[c.pos];
      var rec := dec(v, data[c.pos + 1], iat, room);
      if rec.complete && |rec.events| <= room {
        var next := Advance(c, 2, |data|);
        var rest := Loop2(data, next, rec.iat, room - |rec.events|, dec);
        var r := Loop2(data, c, iat, room, dec);
        assert Ticks(rec.events) + rec.iat == iat + v + 3;
        Loop2Clock(data, next, rec.iat, room - |rec.events|, dec);
        Loop2Step(data, c, iat, room, dec);
        assert r.events == rec.events + rest.events && r.iat == rest.iat;
        assert r.cursor == rest.cursor && r.carried == rest.carried;
        TicksAppend(rec.events, rest.events);
        ClockStep(data, c.pos, rest.cursor.pos);
      } else {
        Loop2Cut(data, c, iat, room, dec);
      }
    }
  }

  /** An interrupted record passes on between 1 and 258 ticks. */
  lemma {:induction false} Loop2Carried(data: seq<Byte>, c: Cursor, iat: int, room: nat, dec: Decoder)
    requires Live(c, |data|) && |data| % 2 == 0 && c.pos % 2 == 0 && Clocked(dec)
    ensures var r := Loop2(data, c, iat, room, dec);
      r.cut ==> 1 <= r.carried <= 258
    decreases |data| - c.pos
  {
    if !(room == 0 || c.ended) && data[c.pos] != 0 {
      var v := data[c.pos];
      var rec := dec(v, data[c.pos + 1], iat, room);
      if rec.complete && |rec.events| <= room {
        var next := Advance(c, 2, |data|);
        Loop2Step(data, c, iat, room, dec);
        Loop2Carried(data, next, rec.iat, room - |rec.events|, dec);
      } else {
        assert iat + v <= Ticks(rec.events) + rec.iat <= iat + v + 3;
        Loop2Cut(data, c, iat, room, dec);
      }
    }
  }

  /** A decoder whose complete records with mask m give kept(m) events. */
  ghost predicate Counted(dec: Decoder, kept: Byte -> nat)
  {
    forall v: Byte, mask: Byte, iat: int, room: nat :: dec(v, mask, iat, room).complete ==>
      |dec(v, mask, iat, room).events| == kept(mask)
  }

  /** Without an interrupted record, the consumed records give exactly
      their events. */
  lemma {:induction false} Loop2Count(data: seq<Byte>, c: Cursor, iat: int, room: nat, dec: Decoder, kept: Byte -> nat)
    requires Live(c, |data|) && |data| % 2 == 0 && c.pos % 2 == 0 && Counted(dec, kept)
    ensures var r := Loop2(data, c, iat, room, dec);
      !r.cut ==> |r.events| == KeptRun(data, c.pos, r.cursor.pos, kept)
    decreases |data| - c.pos
  {
    if !(room == 0 || c.ended) && data[c.pos] != 0 {
      var v := data[c.pos];
      var rec := dec(v, data[c.pos + 1], iat, room);
      if rec.complete && |rec.events| <= room {
        var next := Advance(c, 2, |data|);
        var rest := Loop2(data, next, rec.iat, room - |rec.events|, dec);
        assert |rec.events| == kept(data[c.pos + 1]);
        Loop2Step(data, c, iat, room, dec);
        Loop2Count(data, next, rec.iat, room - |rec.events|, dec, kept);
        assert KeptRun(data, c.pos, rest.cursor.pos, kept) == kept(data[c.pos + 1]) + KeptRun(data, next.pos, rest.cursor.pos, kept);
      } else {
        Loop2Cut(data, c, iat, room, dec);
      }
    }
  }

  /** A decoder whose events all have weights in tags. */
  ghost predicate Tagged(dec: Decoder, tags: set<(int, int)>)
  {
    forall v: Byte, mask: Byte, iat: int, room: nat :: WeightsIn(dec(v, mask, iat, room).events, tags)
  }

  lemma {:induction false} Loop2Weights(data: seq<Byte>, c: Cursor, iat: int, room: nat, dec: Decoder, tags: set<(int, int)>)
    requires Live(c, |data|) && |data| % 2 == 0 && c.pos % 2 == 0 && Tagged(dec, tags)
    ensures WeightsIn(Loop2(data, c, iat, room, dec).events, tags)
    decreases |data| - c.pos
  {
    if !(room == 0 || c.ended) && data[c.pos] != 0 {
      var rec := dec(data[c.pos], data[c.pos + 1], iat, room);
      if rec.complete && |rec.events| <= room {
        var next := Advance(c, 2, |data|);
        var rest := Loop2(data, next, rec.iat, room - |rec.events|, dec);
        Loop2Weights(data, next, rec.iat, room - |rec.events|, dec, tags);
        WeightsAppend(rec.events, rest.events, tags);
        Loop2Step(data, c, iat, room, dec);
      } else {
        Loop2Cut(data, c, iat, room, dec);
      }
    }
  }

  /** A decoder that, from a non-negative pending interval, gives no
      negative interval. */
  ghost predicate Forward(dec: Decoder)
  {
    forall v: Byte, mask: Byte, iat: int, room: nat :: iat >= 0 ==>
      dec(v, mask, iat, room).iat >= 0 && NonNegative(dec(v, mask, iat, room).events)
  }

  lemma {:induction false} Loop2NonNegative(data: seq<Byte>, c: Cursor, iat: int, room: nat, dec: Decoder)
    requires Live(c, |data|) && |data| % 2 == 0 && c.pos % 2 == 0 && Forward(dec)
    requires iat >= 0
    ensures var r := Loop2(data, c, iat, room, dec);
      r.iat >= 0 && NonNegative(r.events)
    decreases |data| - c.pos
  {
    if !(room == 0 || c.ended) && data[c.pos] != 0 {
      var rec := dec(data[c.pos], data[c.pos + 1], iat, room);
      if rec.complete && |rec.events| <= room {
        var next := Advance(c, 2, |data|);
        var rest := Loop2(data, next, rec.iat, room - |rec.events|, dec);
        Loop2NonNegative(data, next, rec.iat, room - |rec.events|, dec);
        WeightsAppend(rec.events, rest.events, {});
        Loop2Step(data, c, iat, room, dec);
      } else {
        Loop2Cut(data, c, iat, room, dec);
      }
    }
  }

  /** Sub-ticks that add up to three pass on three ticks when read to the
      end, and at most three when cut short. */
  lemma EmitClock(s: seq<Slot>, iat: int, room: nat)
    requires Ticking(s) && SlotTicks(s) == 3
    ensures var r := Emit(s, iat, room);
      (r.complete ==> Ticks(r.events) + r.iat == iat + 3) &&
      (!r.complete ==> iat <= Ticks(r.events) + r.iat <= iat + 3)
  {
    EmitComplete(s, iat, room);
    EmitPartial(s, iat, room);
  }

  /** What one record passes on: v + 3 ticks when it is read to the end,
      at least v and at most v + 3 when it is cut short. */
  lemma RecordClock(v: Byte, mask: Byte, sel: Channel, iat: int, room: nat)
    ensures var rec := Record(v, mask, sel, iat, room);
      (rec.complete ==> Ticks(rec.events) + rec.iat == iat + v + 3) &&
      (!rec.complete ==> iat + v <= Ticks(rec.events) + rec.iat <= iat + v + 3)
  {
    RecordTicks(mask, sel);
    EmitClock(Slots(mask, sel), iat + v, room);
  }

  /** A record read to the end gives one event per kept photon. */
  lemma RecordCount(v: Byte, mask: Byte, sel: Channel, iat: int, room: nat)
    ensures var rec := Record(v, mask, sel, iat, room);
      rec.complete ==> |rec.events| == Kept(mask, sel)
  {
    var s := Slots(mask, sel);
    var rec := Record(v, mask, sel, iat, room);
    assert rec == Emit(s, iat + v, room);
    assert Kept(mask, sel) == Photons(s);
    EmitComplete(s, iat + v, room);
  }

  lemma RecordsClocked(sel: Channel)
    ensures Clocked(Records(sel))
  {
    forall v: Byte, mask: Byte, iat: int, room: nat {
      RecordClock(v, mask, sel, iat, room);
    }
  }

  lemma RecordsCounted(sel: Channel)
    ensures Counted(Records(sel), KeptBy(sel))
  {
    forall v: Byte, mask: Byte, iat: int, room: nat {
      RecordCount(v, mask, sel, iat, room);
    }
  }

  lemma RecordsTagged(sel: Channel)
    ensures Tagged(Records(sel), ChannelTags(sel))
  {
    forall v: Byte, mask: Byte, iat: int, room: nat {
      RecordShape(v, mask, sel, iat, room);
    }
  }

  lemma RecordsForward(sel: Channel)
    ensures Forward(Records(sel))
  {
    forall v: Byte, mask: Byte, iat: int, room: nat {
      RecordShape(v, mask, sel, iat, room);
    }
  }

  /** Every event of one record has its decoder's weights, and none a
      negative interval. */
  lemma RecordShape(v: Byte, mask: Byte, sel: Channel, iat: int, room: nat)
    ensures var rec := Record(v, mask, sel, iat, room);
      WeightsIn(rec.events, ChannelTags(sel)) && (iat >= 0 ==> rec.iat >= 0 && NonNegative(rec.events))
  {
    var s := Slots(mask, sel);
    SlotsAt(mask, sel);
    RecordTicks(mask, sel);
    EmitTags(s, iat + v, room, ChannelTags(sel));
    if iat >= 0 {
      EmitNonNegative(s, iat + v, room);
    }
  }

  /** Confocor2 stops only on a full batch or at the end of its data, which
      is the end of the file or an end marker; see Loop2Stops. */
  lemma Confocor2Stops(data: seq<Byte>, c: Cursor, iat: int, sel: Channel, room: nat)
    requires Live(c, |data|) && |data| % 2 == 0 && c.pos % 2 == 0
    ensures var r := Confocor2(data, c, iat, sel, room);
      |r.events| <= room && (|r.events| == room || r.cursor.ended) &&
      (c.ended ==> r == C2Run([], c, iat, false, 0)) &&
      (r.cut ==> !r.cursor.ended && |r.events| == room) && (!r.cut ==> r.carried == 0) &&
      (!c.ended && r.cursor.ended && r.cursor.pos < |data| ==> data[r.cursor.pos] == 0)
  {
    RecordsFit(sel);
    Loop2Stops(data, c, iat, room, Records(sel));
  }

  /** Confocor2 loses no tick: the consumed records' v + 3 ticks each, plus
      what an interrupted record passed on, are in the events and the
      pending interval. */
  lemma Confocor2Clock(data: seq<Byte>, c: Cursor, iat: int, sel: Channel, room: nat)
    requires Live(c, |data|) && |data| % 2 == 0 && c.pos % 2 == 0
    ensures var r := Confocor2(data, c, iat, sel, room);
      Ticks(r.events) + r.iat == iat + Clock(data, c.pos, r.cursor.pos) + r.carried && (r.cut ==> 1 <= r.carried <= 258)
  {
    RecordsFit(sel);
    RecordsClocked(sel);
    Loop2Clock(data, c, iat, room, Records(sel));
    Loop2Carried(data, c, iat, room, Records(sel));
  }

  /** The number of events a Confocor2 record with mask m gives in decoder sel. */
  function KeptBy(sel: Channel): Byte -> nat
  {
    (mask: Byte) => Kept(mask, sel)
  }

  /** Without an interrupted record, Confocor2 gives one event per kept photon
      of the consumed records. */
  lemma Confocor2Count(data: seq<Byte>, c: Cursor, iat: int, sel: Channel, room: nat)
    requires Live(c, |data|) && |data| % 2 == 0 && c.pos % 2 == 0
    ensures var r := Confocor2(data, c, iat, sel, room);
      !r.cut ==> |r.events| == KeptRun(data, c.pos, r.cursor.pos, KeptBy(sel))
  {
    RecordsFit(sel);
    RecordsCounted(sel);
    Loop2Count(data, c, iat, room, Records(sel), KeptBy(sel));
  }

  /** Every Confocor2 event has its decoder's weights: (1, 0) in chA and chB,
      (1, 0) or (0, 1) in chAB. */
  lemma Confocor2Weights(data: seq<Byte>, c: Cursor, iat: int, sel: Channel, room: nat)
    requires Live(c, |data|) && |data| % 2 == 0 && c.pos % 2 == 0
    ensures WeightsIn(Confocor2(data, c, iat, sel, room).events, ChannelTags(sel))
  {
    RecordsFit(sel);
    RecordsTagged(sel);
    Loop2Weights(data, c, iat, room, Records(sel), ChannelTags(sel));
  }

  /** From a non-negative pending interval, no Confocor2 event and no
      pending interval is negative. */
  lemma Confocor2NonNegative(data: seq<Byte>, c: Cursor, iat: int, sel: Channel, room: nat)
    requires Live(c, |data|) && |data| % 2 == 0 && c.pos % 2 == 0
    requires iat >= 0
    ensures var r := Confocor2(data, c, iat, sel, room);
      r.iat >= 0 && NonNegative(r.events)
  {
    RecordsFit(sel);
    RecordsForward(sel);
    Loop2NonNegative(data, c, iat, room, Records(sel));
  }

  /** updateDataConfocor3OneCh after the entry refill: each 4-byte record is
      one event of weight 1 whose interval is its little-endian value, added
      to the pending interval in 32-bit arithmetic. */
  function Confocor3(data: seq<Byte>, c: Cursor, iat: int, room: nat): (r: Run)
    requires Live(c, |data|) && |data| % 4 == 0 && c.pos % 4 == 0
    ensures Live(r.cursor, |data|) && r.cursor.pos == c.pos + 4 * |r.events|
    ensures |r.events| <= room && (|r.events| == room || r.cursor.ended)
    ensures c.ended ==> r == Run([], c, iat)
    ensures r.iat == (if r.events == [] then iat else 0)
    decreases |data| - c.pos
  {
    if room == 0 || c.ended then Run([], c, iat)
    else
      var e := Event(ToInt32(iat + LittleEndian(data[c.pos], data[c.pos + 1], data[c.pos + 2], data[c.pos + 3])), 1, 0);
      var rest := Confocor3(data, Advance(c, 4, |data|), 0, room - 1);
      Run([e] + rest.events, rest.cursor, 0)
  }

  /** The 4-byte record at p read as a Java int: byteToInt of data[p..p + 4]. */
  function Word(data: seq<Byte>, p: nat): (w: int)
    requires p + 4 <= |data|
    ensures w == Byte4ToInt(data[p..p + 4])
  {
    var b := data[p..p + 4];
    assert b[0] == data[p] && b[1] == data[p + 1] && b[2] == data[p + 2] && b[3] == data[p + 3];
    ToInt32(LittleEndian(data[p], data[p + 1], data[p + 2], data[p + 3]))
  }

  /** Every Confocor3 event has weight 1 on channel A. */
  lemma {:induction false} Confocor3Tags(data: seq<Byte>, c: Cursor, iat: int, room: nat)
    requires Live(c, |data|) && |data| % 4 == 0 && c.pos % 4 == 0
    ensures AllTagged(Confocor3(data, c, iat, room).events, 1, 0)
    decreases |data| - c.pos
  {
    if room > 0 && !c.ended {
      var e := Event(ToInt32(iat + LittleEndian(data[c.pos], data[c.pos + 1], data[c.pos + 2], data[c.pos + 3])), 1, 0);
      var next := Advance(c, 4, |data|);
      var rest := Confocor3(data, next, 0, room - 1);
      assert Confocor3(data, c, iat, room).events == [e] + rest.events;
      Confocor3Tags(data, next, 0, room - 1);
    }
  }

  /** The first Confocor3 event adds the pending interval to its record, in
      32-bit arithmetic; every later one is its record read by byte4ToInt. */
  lemma {:induction false} Confocor3Values(data: seq<Byte>, c: Cursor, iat: int, room: nat)
    requires Live(c, |data|) && |data| % 4 == 0 && c.pos % 4 == 0
    ensures var r := Confocor3(data, c, iat, room);
      (|r.events| > 0 ==> r.events[0].iat == ToInt32(iat + LittleEndian(data[c.pos], data[c.pos + 1], data[c.pos + 2], data[c.pos + 3]))) &&
      forall i :: 1 <= i < |r.events| ==> r.events[i].iat == Word(data, c.pos + 4 * i)
    decreases |data| - c.pos
  {
    if room > 0 && !c.ended {
      var e := Event(ToInt32(iat + LittleEndian(data[c.pos], data[c.pos + 1], data[c.pos + 2], data[c.pos + 3])), 1, 0);
      var next := Advance(c, 4, |data|);
      var rest := Confocor3(data, next, 0, room - 1);
      assert Confocor3(data, c, iat, room).events == [e] + rest.events;
      Confocor3Values(data, next, 0, room - 1);
      forall i | 1 <= i < 1 + |rest.events|
        ensures ([e] + rest.events)[i].iat == Word(data, c.pos + 4 * i)
      {
        assert ([e] + rest.events)[i] == rest.events[i - 1];
        assert next.pos + 4 * (i - 1) == c.pos + 4 * i;
      }
    }
  }
}

/** The Flex 8-bit correlator format (updateDataFlexOneCh, updateDataFlexTwoCh).
    Each byte of a channel's file is one sample of an 8-bit tick counter:
    255 means the counter ran over with no photon (255 ticks); any other
    value v means a photon arrived after v+1 ticks. */
module Flex {
  import opened JavaInt
  import opened Events
  import opened Stream

  /** The ticks a byte stands for. */
  function ByteTicks(b: Byte): int
  {
    if b == 255 then 255 else b + 1
  }

  /** The ticks a run of bytes stands for. */
  function Duration(s: seq<Byte>): int
  {
    if s == [] then 0 else ByteTicks(s[0]) + Duration(s[1..])
  }

  /** The number of photons in a run of bytes: every byte but 255. */
  function Photons(s: seq<Byte>): nat
  {
    if s == [] then 0 else (if s[0] == 255 then 0 else 1) + Photons(s[1..])
  }

  lemma SliceCons(s: seq<Byte>, p: nat, q: nat)
    ensures p < q <= |s| ==> s[p..q] == [s[p]] + s[p + 1..q]
  {
  }

  /** The one-channel rule, as updateDataFlexOneCh and the drain phase of
      updateDataFlexTwoCh run it: while there is room and data, a 255 byte
      adds 255 ticks to the pending interval; any other byte v closes it with
      v+1 more ticks as an event tagged (wA, wB) and starts a new one. It
      stops only when the batch is full or the data ends. */
  function FlexOne(data: seq<Byte>, c: Cursor, iat: int, room: nat, wA: int, wB: int): (r: Run)
    requires Live(c, |data|)
    ensures Live(r.cursor, |data|) && c.pos <= r.cursor.pos
    ensures |r.events| <= room && (|r.events| == room || r.cursor.ended)
    ensures c.ended ==> r == Run([], c, iat)
    decreases |data| - c.pos
  {
    if room == 0 || c.ended then Run([], c, iat)
    else
      var b := data[c.pos];
      var next := Advance(c, 1, |data|);
      if b == 255 then
        FlexOne(data, next, iat + 255, room, wA, wB)
      else
        var rest := FlexOne(data, next, 0, room - 1, wA, wB);
        Run([Event(iat + b + 1, wA, wB)] + rest.events, rest.cursor, rest.iat)
  }

  /** No tick is lost: the emitted intervals and the pending one add up to
      the pending interval before plus the ticks of the consumed bytes; and
      each consumed byte other than 255 gives exactly one event. */
  lemma {:induction false} FlexOneClock(data: seq<Byte>, c: Cursor, iat: int, room: nat, wA: int, wB: int)
    requires Live(c, |data|)
    ensures var r := FlexOne(data, c, iat, room, wA, wB);
      Ticks(r.events) + r.iat == iat + Duration(data[c.pos..r.cursor.pos]) &&
      |r.events| == Photons(data[c.pos..r.cursor.pos])
    decreases |data| - c.pos
  {
    if room > 0 && !c.ended {
      var b := data[c.pos];
      var next := Advance(c, 1, |data|);
      var iat' := if b == 255 then iat + 255 else 0;
      var room' := if b == 255 then room else room - 1;
      var rest := FlexOne(data, next, iat', room', wA, wB);
      assert FlexOne(data, c, iat, room, wA, wB) ==
        if b == 255 then rest else Run([Event(iat + b + 1, wA, wB)] + rest.events, rest.cursor, rest.iat);
      SliceCons(data, c.pos, rest.cursor.pos);
      TicksCons(Event(iat + b + 1, wA, wB), rest.events);
      FlexOneClock(data, next, iat', room', wA, wB);
    }
  }

  /** Every event has the weights of the channel being read, and with a
      pending interval that is not negative every interval is at least 1. */
  lemma {:induction false} FlexOneShape(data: seq<Byte>, c: Cursor, iat: int, room: nat, wA: int, wB: int)
    requires Live(c, |data|)
    ensures var r := FlexOne(data, c, iat, room, wA, wB);
      AllTagged(r.events, wA, wB) && (iat >= 0 ==> AllPositive(r.events) && r.iat >= 0)
    decreases |data| - c.pos
  {
    if room > 0 && !c.ended {
      var b := data[c.pos];
      var next := Advance(c, 1, |data|);
      var iat' := if b == 255 then iat + 255 else 0;
      var room' := if b == 255 then room else room - 1;
      var rest := FlexOne(data, next, iat', room', wA, wB);
      assert FlexOne(data, c, iat, room, wA, wB) ==
        if b == 255 then rest else Run([Event(iat + b + 1, wA, wB)] + rest.events, rest.cursor, rest.iat);
      FlexOneShape(data, next, iat', room', wA, wB);
    }
  }

  /** One channel's part of a merge step when it has no pending interval:
      add up the 255 bytes (advancing over them) and then the ticks of the
      photon byte, leaving the cursor on that byte. */
  function Gather(data: seq<Byte>, c: Cursor, iat: int): (r: (Cursor, int))
    requires Live(c, |data|)
    ensures Live(r.0, |data|) && c.pos <= r.0.pos
    ensures !r.0.ended ==> r.1 == iat + Duration(data[c.pos..r.0.pos + 1]) && data[r.0.pos] != 255
    ensures iat >= 0 ==> r.1 >= 0 && (!r.0.ended ==> r.1 >= 1)
    decreases |data| - c.pos
  {
    if c.ended then (c, iat)
    else if data[c.pos] == 255 then
      var r := Gather(data, Advance(c, 1, |data|), iat + 255);
      SliceCons(data, c.pos, r.0.pos + 1);
      r
    else
      assert data[c.pos..c.pos + 1] == [data[c.pos]];
      (c, iat + ByteTicks(data[c.pos]))
  }

  /** The overrun loop of a merge step, which adds 255 ticks for every
      overrun byte (value 255, read by Java as -1) while the channel has
      not ended, followed by the ticks of the photon byte it stops on. */
  method Collect(data: seq<Byte>, c0: Cursor, iat0: int) returns (c: Cursor, iat: int)
    requires Live(c0, |data|)
    ensures (c, iat) == Gather(data, c0, iat0)
  {
    c, iat := c0, iat0;
    while !c.ended && data[c.pos] == 255
      invariant Live(c, |data|) && Gather(data, c, iat) == Gather(data, c0, iat0)
      decreases |data| - c.pos
    {
      iat := iat + 255;
      c := Advance(c, 1, |data|);
    }
    if !c.ended {
      iat := iat + ByteTicks(data[c.pos]);
    }
  }

  /** The merge of two pending intervals: the shorter one (both, if equal)
      becomes the event, and both channels move on by its length. */
  function Merge(iatA: int, iatB: int): (r: (Event, int, int))
    ensures r.0.iat == (if iatA <= iatB then iatA else iatB)
    ensures r.0.wA == (if iatA <= iatB then 1 else 0) && r.0.wB == (if iatB <= iatA then 1 else 0)
    ensures r.1 == iatA - r.0.iat && r.2 == iatB - r.0.iat
  {
    if iatA > iatB then (Event(iatB, 0, 1), iatA - iatB, 0)
    else if iatA < iatB then (Event(iatA, 1, 0), 0, iatB - iatA)
    else (Event(iatA, 1, 1), 0, 0)
  }

  /** What one decoding run of two channels produced. */
  datatype TwoCh = TwoCh(events: seq<Event>, a: Cursor, iatA: int, b: Cursor, iatB: int)

  /** After the merge loop: if exactly one channel has ended, the other one
      is decoded alone with the one-channel rule, its events carrying weight
      only on the surviving side. */
  function Drain(dataA: seq<Byte>, dataB: seq<Byte>, a: Cursor, iatA: int, b: Cursor, iatB: int, room: nat): (r: TwoCh)
    requires Live(a, |dataA|) && Live(b, |dataB|)
    ensures Live(r.a, |dataA|) && Live(r.b, |dataB|) && |r.events| <= room
    ensures a.ended && !b.ended ==> r.a == a && r.iatA == iatA
    ensures !a.ended && b.ended ==> r.b == b && r.iatB == iatB
    ensures a.ended == b.ended ==> r == TwoCh([], a, iatA, b, iatB)
  {
    if a.ended && !b.ended then
      var rb := FlexOne(dataB, b, iatB, room, 0, 1);
      TwoCh(rb.events, a, iatA, rb.cursor, rb.iat)
    else if !a.ended && b.ended then
      var ra := FlexOne(dataA, a, iatA, room, 1, 0);
      TwoCh(ra.events, ra.cursor, ra.iat, b, iatB)
    else TwoCh([], a, iatA, b, iatB)
  }

  /** The drained events carry weight only on the surviving channel, and
      with pending intervals that are not negative all are at least 1. */
  lemma DrainShape(dataA: seq<Byte>, dataB: seq<Byte>, a: Cursor, iatA: int, b: Cursor, iatB: int, room: nat)
    requires Live(a, |dataA|) && Live(b, |dataB|)
    ensures var r := Drain(dataA, dataB, a, iatA, b, iatB, room);
      (a.ended && !b.ended ==> AllTagged(r.events, 0, 1)) &&
      (!a.ended && b.ended ==> AllTagged(r.events, 1, 0)) &&
      PhotonTags(r.events) &&
      (iatA >= 0 && iatB >= 0 ==> AllPositive(r.events) && r.iatA >= 0 && r.iatB >= 0)
  {
    FlexOneShape(dataB, b, iatB, room, 0, 1);
    FlexOneShape(dataA, a, iatA, room, 1, 0);
  }

  /** The start of a merge step: each channel without a pending interval
      gathers its next one. */
  function Prepare(dataA: seq<Byte>, dataB: seq<Byte>, a: Cursor, iatA: int, b: Cursor, iatB: int): (p: TwoCh)
    requires Live(a, |dataA|) && Live(b, |dataB|)
    ensures p.events == [] && Live(p.a, |dataA|) && Live(p.b, |dataB|) && a.pos <= p.a.pos && b.pos <= p.b.pos
    ensures iatA != 0 ==> p.a == a && p.iatA == iatA
    ensures iatB != 0 ==> p.b == b && p.iatB == iatB
    ensures iatA >= 0 ==> p.iatA >= 0 && (!p.a.ended ==> p.iatA >= 1)
    ensures iatB >= 0 ==> p.iatB >= 0 && (!p.b.ended ==> p.iatB >= 1)
  {
    var (a1, iA) := if iatA == 0 then Gather(dataA, a, 0) else (a, iatA);
    var (b1, iB) := if iatB == 0 then Gather(dataB, b, 0) else (b, iatB);
    TwoCh([], a1, iA, b1, iB)
  }

  /** updateDataFlexTwoCh after its entry refills: merge while there is room
      and both channels are live, then drain. */
  function FlexTwo(dataA: seq<Byte>, dataB: seq<Byte>, a: Cursor, iatA: int, b: Cursor, iatB: int, room: nat): (r: TwoCh)
    requires Live(a, |dataA|) && Live(b, |dataB|)
    ensures Live(r.a, |dataA|) && Live(r.b, |dataB|) && |r.events| <= room
    decreases |dataA| - a.pos + |dataB| - b.pos, room
  {
    if room == 0 || a.ended || b.ended then Drain(dataA, dataB, a, iatA, b, iatB, room)
    else
      var p := Prepare(dataA, dataB, a, iatA, b, iatB);
      if p.a.ended || p.b.ended then Drain(dataA, dataB, p.a, p.iatA, p.b, p.iatB, room)
      else
        var m := Merge(p.iatA, p.iatB);
        var a2 := if m.0.wA == 1 then Advance(p.a, 1, |dataA|) else p.a;
        var b2 := if m.0.wB == 1 then Advance(p.b, 1, |dataB|) else p.b;
        var rest := FlexTwo(dataA, dataB, a2, m.1, b2, m.2, room - 1);
        TwoCh([m.0] + rest.events, rest.a, rest.iatA, rest.b, rest.iatB)
  }

  /** A merge step may gather first: from two live channels the run is the
      run from the gathered state. */
  lemma FlexTwoPrepared(dataA: seq<Byte>, dataB: seq<Byte>, a: Cursor, iatA: int, b: Cursor, iatB: int, room: nat)
    requires Live(a, |dataA|) && Live(b, |dataB|) && room > 0 && !a.ended && !b.ended
    ensures var p := Prepare(dataA, dataB, a, iatA, b, iatB);
      FlexTwo(dataA, dataB, a, iatA, b, iatB, room) == FlexTwo(dataA, dataB, p.a, p.iatA, p.b, p.iatB, room)
  {
    var p := Prepare(dataA, dataB, a, iatA, b, iatB);
    if !p.a.ended && !p.b.ended {
      assert p.iatA != 0 && p.iatB != 0;
      assert Prepare(dataA, dataB, p.a, p.iatA, p.b, p.iatB) == p;
    }
  }

  /** A merge step from two live channels that both have a pending
      interval: the merged event, then the run from the channels moved on. */
  lemma FlexTwoMerged(dataA: seq<Byte>, dataB: seq<Byte>, a: Cursor, iatA: int, b: Cursor, iatB: int, room: nat)
    requires Live(a, |dataA|) && Live(b, |dataB|) && room > 0 && !a.ended && !b.ended && iatA != 0 && iatB != 0
    ensures var m := Merge(iatA, iatB);
      var a2 := if m.0.wA == 1 then Advance(a, 1, |dataA|) else a;
      var b2 := if m.0.wB == 1 then Advance(b, 1, |dataB|) else b;
      var rest := FlexTwo(dataA, dataB, a2, m.1, b2, m.2, room - 1);
      FlexTwo(dataA, dataB, a, iatA, b, iatB, room) == TwoCh([m.0] + rest.events, rest.a, rest.iatA, rest.b, rest.iatB)
  {
    assert Prepare(dataA, dataB, a, iatA, b, iatB) == TwoCh([], a, iatA, b, iatB);
  }

  /** Every event of a two-channel run is a photon on A, on B or on both. */
  lemma {:induction false} FlexTwoTags(dataA: seq<Byte>, dataB: seq<Byte>, a: Cursor, iatA: int, b: Cursor, iatB: int, room: nat)
    requires Live(a, |dataA|) && Live(b, |dataB|)
    ensures PhotonTags(FlexTwo(dataA, dataB, a, iatA, b, iatB, room).events)
    decreases |dataA| - a.pos + |dataB| - b.pos, room
  {
    if room == 0 || a.ended || b.ended {
      DrainShape(dataA, dataB, a, iatA, b, iatB, room);
    } else {
      var p := Prepare(dataA, dataB, a, iatA, b, iatB);
      if p.a.ended || p.b.ended {
        DrainShape(dataA, dataB, p.a, p.iatA, p.b, p.iatB, room);
      } else {
        var m := Merge(p.iatA, p.iatB);
        var a2 := if m.0.wA == 1 then Advance(p.a, 1, |dataA|) else p.a;
        var b2 := if m.0.wB == 1 then Advance(p.b, 1, |dataB|) else p.b;
        var rest := FlexTwo(dataA, dataB, a2, m.1, b2, m.2, room - 1);
        assert FlexTwo(dataA, dataB, a, iatA, b, iatB, room) == TwoCh([m.0] + rest.events, rest.a, rest.iatA, rest.b, rest.iatB);
        assert PhotonTag(m.0);
        FlexTwoTags(dataA, dataB, a2, m.1, b2, m.2, room - 1);
      }
    }
  }

  /** With pending intervals that are not negative every interval of a
      two-channel run is at least 1: a merge step emits the smaller of two
      positive intervals. */
  lemma {:induction false} FlexTwoPositive(dataA: seq<Byte>, dataB: seq<Byte>, a: Cursor, iatA: int, b: Cursor, iatB: int, room: nat)
    requires Live(a, |dataA|) && Live(b, |dataB|) && iatA >= 0 && iatB >= 0
    ensures var r := FlexTwo(dataA, dataB, a, iatA, b, iatB, room);
      AllPositive(r.events) && r.iatA >= 0 && r.iatB >= 0
    decreases |dataA| - a.pos + |dataB| - b.pos, room
  {
    if room == 0 || a.ended || b.ended {
      DrainShape(dataA, dataB, a, iatA, b, iatB, room);
    } else {
      var p := Prepare(dataA, dataB, a, iatA, b, iatB);
      if p.a.ended || p.b.ended {
        DrainShape(dataA, dataB, p.a, p.iatA, p.b, p.iatB, room);
      } else {
        var m := Merge(p.iatA, p.iatB);
        var a2 := if m.0.wA == 1 then Advance(p.a, 1, |dataA|) else p.a;
        var b2 := if m.0.wB == 1 then Advance(p.b, 1, |dataB|) else p.b;
        var rest := FlexTwo(dataA, dataB, a2, m.1, b2, m.2, room - 1);
        assert FlexTwo(dataA, dataB, a, iatA, b, iatB, room) == TwoCh([m.0] + rest.events, rest.a, rest.iatA, rest.b, rest.iatB);
        FlexTwoPositive(dataA, dataB, a2, m.1, b2, m.2, room - 1);
      }
    }
  }
}

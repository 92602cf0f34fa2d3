/** The PicoHarp formats (updateDataPicoHarpPT3chA / chB / chAB and
    updateDataPicoHarpPT2chA): 4-byte records whose top nibble of the last
    byte is the channel. A photon record carries an absolute time; the
    decoder keeps the previous photon's time in iatA and emits the difference.
    A record of channel 15 is a timer overflow: the reference drops by the
    timer period the source uses (65535 for T3, 2147483647 for T2). Records
    of other channels are skipped. Both subtractions are Java int
    arithmetic and wrap; with the T2 period, the iat after an overflow
    record wraps to a negative value. */
module PicoHarp {
  import opened JavaInt
  import opened Events
  import opened Stream

  /** The four record decoders. */
  datatype Decoder = T3A | T3B | T3AB | T2A

  /** The channel number `(b >> 4) & 15` of the signed Java byte holding b:
      the arithmetic shift keeps the sign, and the mask takes it off again. */
  function Channel(b: Byte): (ch: int)
    ensures ch == b / 16 && 0 <= ch < 16
  {
    (Signed(b) / 16) % 16
  }

  /** The low nibble `b & 15` of the signed Java byte holding b. */
  function LowNibble(b: Byte): (n: int)
    ensures n == b % 16 && 0 <= n < 16
  {
    Signed(b) % 16
  }

  /** Whether records of channel ch are photons for this decoder. */
  predicate IsPhoton(dec: Decoder, ch: int)
  {
    match dec
    case T3A => ch == 1
    case T3B => ch == 2
    case T3AB => ch == 1 || ch == 2
    case T2A => ch == 1
  }

  /** The weights (wAint, wBint) of a photon of channel ch. chA, chB and T2
      write only wAint, always 1; chAB writes 1 on the side of its channel. */
  function Weights(dec: Decoder, ch: int): (int, int)
  {
    if dec == T3AB && ch == 2 then (0, 1) else (1, 0)
  }

  /** The time a photon record carries: the 16-bit sync count of T3, the
      28-bit time tag of T2. */
  function Time(dec: Decoder, b0: Byte, b1: Byte, b2: Byte, b3: Byte): (t: int)
    ensures dec != T2A ==> 0 <= t < 65536
    ensures dec == T2A ==> 0 <= t < 268435456
  {
    if dec == T2A then b0 + 256 * b1 + 65536 * b2 + LowNibble(b3) * 16777216
    else b0 + 256 * b1
  }

  /** What the reference loses on an overflow record. */
  function Rollover(dec: Decoder): int
  {
    if dec == T2A then 2147483647 else 65535
  }

  /** The decoding loop after the entry refill: while there is room and
      data, one record is read; a photon emits its time minus the reference
      and becomes the new reference. */
  function Pico(data: seq<Byte>, c: Cursor, ref: int, room: nat, dec: Decoder): (r: Run)
    requires Live(c, |data|) && |data| % 4 == 0 && c.pos % 4 == 0
    ensures Live(r.cursor, |data|) && c.pos <= r.cursor.pos && r.cursor.pos % 4 == 0
    decreases |data| - c.pos
  {
    if room == 0 || c.ended then Run([], c, ref)
    else
      var p := c.pos;
      var next := Advance(c, 4, |data|);
      var ch := Channel(data[p + 3]);
      if IsPhoton(dec, ch) then
        var t := Time(dec, data[p], data[p + 1], data[p + 2], data[p + 3]);
        var rest := Pico(data, next, t, room - 1, dec);
        Run([Event(ToInt32(t - ref), Weights(dec, ch).0, Weights(dec, ch).1)] + rest.events, rest.cursor, rest.iat)
      else if ch == 15 then Pico(data, next, ToInt32(ref - Rollover(dec)), room, dec)
      else Pico(data, next, ref, room, dec)
  }

  /** Pico on a photon record: its event, then the run from the next
      record with the photon's time as the reference. */
  lemma PicoPhoton(data: seq<Byte>, c: Cursor, ref: int, room: nat, dec: Decoder)
    requires Live(c, |data|) && |data| % 4 == 0 && c.pos % 4 == 0
    requires room > 0 && !c.ended && IsPhoton(dec, Channel(data[c.pos + 3]))
    ensures var p, ch := c.pos, Channel(data[c.pos + 3]);
      var t := Time(dec, data[p], data[p + 1], data[p + 2], data[p + 3]);
      var rest := Pico(data, Advance(c, 4, |data|), t, room - 1, dec);
      Pico(data, c, ref, room, dec) == Run([Event(ToInt32(t - ref), Weights(dec, ch).0, Weights(dec, ch).1)] + rest.events, rest.cursor, rest.iat)
  {
  }

  /** Pico on any other record: the run from the next record, with the
      reference lowered by the timer period on an overflow. */
  lemma PicoSkip(data: seq<Byte>, c: Cursor, ref: int, room: nat, dec: Decoder)
    requires Live(c, |data|) && |data| % 4 == 0 && c.pos % 4 == 0
    requires room > 0 && !c.ended && !IsPhoton(dec, Channel(data[c.pos + 3]))
    ensures var ref' := if Channel(data[c.pos + 3]) == 15 then ToInt32(ref - Rollover(dec)) else ref;
      Pico(data, c, ref, room, dec) == Pico(data, Advance(c, 4, |data|), ref', room, dec)
  {
  }

  /** The overflow records among the whole records in data[p..q]. */
  function Overflows(data: seq<Byte>, p: nat, q: nat): nat
    requires p <= q <= |data|
    decreases q - p
  {
    if q - p < 4 then 0 else (if Channel(data[p + 3]) == 15 then 1 else 0) + Overflows(data, p + 4, q)
  }

  /** The photon records of this decoder among the whole records in data[p..q]. */
  function Photons(data: seq<Byte>, p: nat, q: nat, dec: Decoder): nat
    requires p <= q <= |data|
    decreases q - p
  {
    if q - p < 4 then 0 else (if IsPhoton(dec, Channel(data[p + 3])) then 1 else 0) + Photons(data, p + 4, q, dec)
  }

  lemma OverflowsStep(data: seq<Byte>, p: nat, q: nat)
    requires p + 4 <= q <= |data|
    ensures Overflows(data, p, q) == (if Channel(data[p + 3]) == 15 then 1 else 0) + Overflows(data, p + 4, q)
  {
  }

  lemma PhotonsStep(data: seq<Byte>, p: nat, q: nat, dec: Decoder)
    requires p + 4 <= q <= |data|
    ensures Photons(data, p, q, dec) == (if IsPhoton(dec, Channel(data[p + 3])) then 1 else 0) + Photons(data, p + 4, q, dec)
  {
  }

  /** The timer periods the overflow records in data[p..q] take off the
      reference. */
  function Lost(data: seq<Byte>, p: nat, q: nat, dec: Decoder): int
    requires p <= q <= |data|
    decreases q - p
  {
    if q - p < 4 then 0 else (if Channel(data[p + 3]) == 15 then Rollover(dec) else 0) + Lost(data, p + 4, q, dec)
  }

  lemma LostStep(data: seq<Byte>, p: nat, q: nat, dec: Decoder)
    requires p + 4 <= q <= |data|
    ensures Lost(data, p, q, dec) == (if Channel(data[p + 3]) == 15 then Rollover(dec) else 0) + Lost(data, p + 4, q, dec)
  {
  }

  /** One period per overflow record. */
  lemma {:induction false} LostOverflows(data: seq<Byte>, p: nat, q: nat, dec: Decoder)
    requires p <= q <= |data|
    ensures Lost(data, p, q, dec) == Rollover(dec) * Overflows(data, p, q)
    decreases q - p
  {
    if q - p >= 4 {
      LostOverflows(data, p + 4, q, dec);
      var w, k := Rollover(dec), Overflows(data, p + 4, q);
      assert w * (1 + k) == w + w * k;
    }
  }

  /** The loop stops only on a full batch or at the end of the file, emits
      at most one event per record, and an ended cursor gives nothing. */
  lemma {:induction false} PicoStops(data: seq<Byte>, c: Cursor, ref: int, room: nat, dec: Decoder)
    requires Live(c, |data|) && |data| % 4 == 0 && c.pos % 4 == 0
    ensures var r := Pico(data, c, ref, room, dec);
      |r.events| <= room && (|r.events| == room || r.cursor.ended) &&
      (c.ended ==> r == Run([], c, ref)) &&
      4 * |r.events| <= r.cursor.pos - c.pos
    decreases |data| - c.pos
  {
    if room > 0 && !c.ended {
      var p := c.pos;
      var next := Advance(c, 4, |data|);
      var ch := Channel(data[p + 3]);
      if IsPhoton(dec, ch) {
        var t := Time(dec, data[p], data[p + 1], data[p + 2], data[p + 3]);
        PicoStops(data, next, t, room - 1, dec);
      } else if ch == 15 {
        PicoStops(data, next, ToInt32(ref - Rollover(dec)), room, dec);
      } else {
        PicoStops(data, next, ref, room, dec);
      }
    }
  }

  /** The telescoping sum of Pico(data, c, ref, room, dec), up to a
      multiple of 2^32. */
  predicate Telescopes(data: seq<Byte>, c: Cursor, ref: int, room: nat, dec: Decoder)
    requires Live(c, |data|) && |data| % 4 == 0 && c.pos % 4 == 0
  {
    var r := Pico(data, c, ref, room, dec);
    (Ticks(r.events) - (r.iat - ref + Lost(data, c.pos, r.cursor.pos, dec))) % Two32 == 0
  }

  /** A photon record's wrapped interval keeps the run after it
      telescoping. */
  lemma TelescopePhoton(data: seq<Byte>, c: Cursor, ref: int, room: nat, dec: Decoder)
    requires Live(c, |data|) && |data| % 4 == 0 && c.pos % 4 == 0
    requires room > 0 && !c.ended && IsPhoton(dec, Channel(data[c.pos + 3]))
    requires var p := c.pos;
      Telescopes(data, Advance(c, 4, |data|), Time(dec, data[p], data[p + 1], data[p + 2], data[p + 3]), room - 1, dec)
    ensures Telescopes(data, c, ref, room, dec)
  {
    var p, ch := c.pos, Channel(data[c.pos + 3]);
    var next := Advance(c, 4, |data|);
    var t := Time(dec, data[p], data[p + 1], data[p + 2], data[p + 3]);
    var e := Event(ToInt32(t - ref), Weights(dec, ch).0, Weights(dec, ch).1);
    var rest := Pico(data, next, t, room - 1, dec);
    var r := Pico(data, c, ref, room, dec);
    PicoPhoton(data, c, ref, room, dec);
    LostStep(data, p, r.cursor.pos, dec);
    TicksCons(e, rest.events);
    Congruent(Ticks(r.events), r.iat - ref + Lost(data, c.pos, r.cursor.pos, dec),
              Ticks(rest.events) - (rest.iat - t + Lost(data, next.pos, r.cursor.pos, dec)), (t - ref) - ToInt32(t - ref));
  }

  /** Any other record keeps the run after it telescoping; an overflow
      record's wrapped lowering of the reference is its period up to a
      multiple of 2^32. */
  lemma TelescopeSkip(data: seq<Byte>, c: Cursor, ref: int, room: nat, dec: Decoder)
    requires Live(c, |data|) && |data| % 4 == 0 && c.pos % 4 == 0
    requires room > 0 && !c.ended && !IsPhoton(dec, Channel(data[c.pos + 3]))
    requires var ref' := if Channel(data[c.pos + 3]) == 15 then ToInt32(ref - Rollover(dec)) else ref;
      Telescopes(data, Advance(c, 4, |data|), ref', room, dec)
    ensures Telescopes(data, c, ref, room, dec)
  {
    var p, ch := c.pos, Channel(data[c.pos + 3]);
    var next := Advance(c, 4, |data|);
    var ref' := if ch == 15 then ToInt32(ref - Rollover(dec)) else ref;
    var r := Pico(data, c, ref, room, dec);
    PicoSkip(data, c, ref, room, dec);
    LostStep(data, p, r.cursor.pos, dec);
    Congruent(Ticks(r.events), r.iat - ref + Lost(data, c.pos, r.cursor.pos, dec),
              Ticks(r.events) - (r.iat - ref' + Lost(data, next.pos, r.cursor.pos, dec)), (ref - (if ch == 15 then Rollover(dec) else 0)) - ref');
  }

  /** The emitted intervals telescope: together they span the final
      reference minus the initial one, plus one timer period per overflow
      record consumed, up to the Java int wrap of each interval and of
      each lowered reference (a multiple of 2^32). */
  lemma {:induction false} PicoTelescope(data: seq<Byte>, c: Cursor, ref: int, room: nat, dec: Decoder)
    requires Live(c, |data|) && |data| % 4 == 0 && c.pos % 4 == 0
    ensures Telescopes(data, c, ref, room, dec)
    decreases |data| - c.pos
  {
    if room > 0 && !c.ended {
      var p := c.pos;
      var next := Advance(c, 4, |data|);
      var ch := Channel(data[p + 3]);
      if IsPhoton(dec, ch) {
        PicoTelescope(data, next, Time(dec, data[p], data[p + 1], data[p + 2], data[p + 3]), room - 1, dec);
        TelescopePhoton(data, c, ref, room, dec);
      } else {
        PicoTelescope(data, next, if ch == 15 then ToInt32(ref - Rollover(dec)) else ref, room, dec);
        TelescopeSkip(data, c, ref, room, dec);
      }
    } else {
      TelescopeEnd(data, c, ref, room, dec);
    }
  }

  /** A run that reads no record spans nothing. */
  lemma TelescopeEnd(data: seq<Byte>, c: Cursor, ref: int, room: nat, dec: Decoder)
    requires Live(c, |data|) && |data| % 4 == 0 && c.pos % 4 == 0 && (room == 0 || c.ended)
    ensures Telescopes(data, c, ref, room, dec)
  {
    var r := Pico(data, c, ref, room, dec);
    assert r == Run([], c, ref);
    Congruent(Ticks(r.events), r.iat - ref + Lost(data, c.pos, r.cursor.pos, dec), 0, 0);
  }

  /** The telescoping sum in terms of the number of overflow records. */
  lemma PicoConservation(data: seq<Byte>, c: Cursor, ref: int, room: nat, dec: Decoder)
    requires Live(c, |data|) && |data| % 4 == 0 && c.pos % 4 == 0
    ensures var r := Pico(data, c, ref, room, dec);
      (Ticks(r.events) - (r.iat - ref + Rollover(dec) * Overflows(data, c.pos, r.cursor.pos))) % Two32 == 0
  {
    var r := Pico(data, c, ref, room, dec);
    PicoTelescope(data, c, ref, room, dec);
    LostOverflows(data, c.pos, r.cursor.pos, dec);
    Congruent(Ticks(r.events), r.iat - ref + Rollover(dec) * Overflows(data, c.pos, r.cursor.pos),
              Ticks(r.events) - (r.iat - ref + Lost(data, c.pos, r.cursor.pos, dec)), 0);
  }

  /** Without overflow records in Pico(data, c, ref, room, dec), its iats
      sum exactly to the last reference minus the first. */
  predicate Exact(data: seq<Byte>, c: Cursor, ref: int, room: nat, dec: Decoder)
    requires Live(c, |data|) && |data| % 4 == 0 && c.pos % 4 == 0
  {
    var r := Pico(data, c, ref, room, dec);
    Overflows(data, c.pos, r.cursor.pos) == 0 ==> Ticks(r.events) == r.iat - ref
  }

  /** A photon record whose time and reference are both record times
      emits their exact difference. */
  lemma ExactPhoton(data: seq<Byte>, c: Cursor, ref: int, room: nat, dec: Decoder)
    requires Live(c, |data|) && |data| % 4 == 0 && c.pos % 4 == 0 && 0 <= ref < 268435456
    requires room > 0 && !c.ended && IsPhoton(dec, Channel(data[c.pos + 3]))
    requires var p := c.pos;
      Exact(data, Advance(c, 4, |data|), Time(dec, data[p], data[p + 1], data[p + 2], data[p + 3]), room - 1, dec)
    ensures Exact(data, c, ref, room, dec)
  {
    var p, ch := c.pos, Channel(data[c.pos + 3]);
    var t := Time(dec, data[p], data[p + 1], data[p + 2], data[p + 3]);
    var e := Event(ToInt32(t - ref), Weights(dec, ch).0, Weights(dec, ch).1);
    var rest := Pico(data, Advance(c, 4, |data|), t, room - 1, dec);
    var r := Pico(data, c, ref, room, dec);
    PicoPhoton(data, c, ref, room, dec);
    OverflowsStep(data, p, r.cursor.pos);
    TicksCons(e, rest.events);
  }

  /** A record that is neither a photon nor an overflow changes nothing. */
  lemma ExactSkip(data: seq<Byte>, c: Cursor, ref: int, room: nat, dec: Decoder)
    requires Live(c, |data|) && |data| % 4 == 0 && c.pos % 4 == 0
    requires room > 0 && !c.ended && !IsPhoton(dec, Channel(data[c.pos + 3]))
    requires Channel(data[c.pos + 3]) != 15 ==> Exact(data, Advance(c, 4, |data|), ref, room, dec)
    ensures Exact(data, c, ref, room, dec)
  {
    var r := Pico(data, c, ref, room, dec);
    PicoSkip(data, c, ref, room, dec);
    OverflowsStep(data, c.pos, r.cursor.pos);
  }

  /** Without overflow records, and from a reference that is a record's
      time, no interval wraps: the iats are the exact differences of the
      photon times and sum to the last reference minus the first. */
  lemma {:induction false} PicoExact(data: seq<Byte>, c: Cursor, ref: int, room: nat, dec: Decoder)
    requires Live(c, |data|) && |data| % 4 == 0 && c.pos % 4 == 0 && 0 <= ref < 268435456
    ensures Exact(data, c, ref, room, dec)
    decreases |data| - c.pos
  {
    if room > 0 && !c.ended {
      var p := c.pos;
      var ch := Channel(data[p + 3]);
      if IsPhoton(dec, ch) {
        PicoExact(data, Advance(c, 4, |data|), Time(dec, data[p], data[p + 1], data[p + 2], data[p + 3]), room - 1, dec);
        ExactPhoton(data, c, ref, room, dec);
      } else {
        if ch != 15 {
          PicoExact(data, Advance(c, 4, |data|), ref, room, dec);
        }
        ExactSkip(data, c, ref, room, dec);
      }
    } else {
      assert Pico(data, c, ref, room, dec) == Run([], c, ref);
    }
  }

  /** An overflow record in a T2 file wraps the next interval: after a
      photon at 100 and an overflow record, a photon at 200 gets the iat
      200 - (100 - 2147483647) as a Java int, which is negative. */
  lemma PicoWraps()
    ensures var data := [100, 0, 0, 16, 0, 0, 0, 240, 200, 0, 0, 16];
      Pico(data, Cursor(0, false), 0, 3, T2A).events == [Event(100, 1, 0), Event(-2147483549, 1, 0)]
  {
    var data: seq<Byte> := [100, 0, 0, 16, 0, 0, 0, 240, 200, 0, 0, 16];
    assert Channel(data[3]) == 1 && Channel(data[7]) == 15 && Channel(data[11]) == 1;
    assert Time(T2A, data[0], data[1], data[2], data[3]) == 100;
    assert Time(T2A, data[8], data[9], data[10], data[11]) == 200;
    assert ToInt32(100 - 2147483647) == -2147483547;
    assert ToInt32(200 - -2147483547) == -2147483549;
  }

  /** One event per photon record consumed, and none for other records. */
  lemma {:induction false} PicoCount(data: seq<Byte>, c: Cursor, ref: int, room: nat, dec: Decoder)
    requires Live(c, |data|) && |data| % 4 == 0 && c.pos % 4 == 0
    ensures var r := Pico(data, c, ref, room, dec);
      |r.events| == Photons(data, c.pos, r.cursor.pos, dec)
    decreases |data| - c.pos
  {
    if room > 0 && !c.ended {
      var p := c.pos;
      var next := Advance(c, 4, |data|);
      var ch := Channel(data[p + 3]);
      var r := Pico(data, c, ref, room, dec);
      if IsPhoton(dec, ch) {
        var t := Time(dec, data[p], data[p + 1], data[p + 2], data[p + 3]);
        var rest := Pico(data, next, t, room - 1, dec);
        assert |r.events| == 1 + |rest.events| && r.cursor == rest.cursor;
        PicoCount(data, next, t, room - 1, dec);
        PhotonsStep(data, p, r.cursor.pos, dec);
      } else if ch == 15 {
        assert r == Pico(data, next, ToInt32(ref - Rollover(dec)), room, dec);
        PicoCount(data, next, ToInt32(ref - Rollover(dec)), room, dec);
        PhotonsStep(data, p, r.cursor.pos, dec);
      } else {
        assert r == Pico(data, next, ref, room, dec);
        PicoCount(data, next, ref, room, dec);
        PhotonsStep(data, p, r.cursor.pos, dec);
      }
    }
  }

  /** The weights a decoder gives its events. */
  function DecoderTags(dec: Decoder): set<(int, int)>
  {
    if dec == T3AB then {(1, 0), (0, 1)} else {(1, 0)}
  }

  /** chA, chB and T2 give every event weight 1 on A; chAB gives weight 1
      on exactly one side. */
  lemma {:induction false} PicoTags(data: seq<Byte>, c: Cursor, ref: int, room: nat, dec: Decoder)
    requires Live(c, |data|) && |data| % 4 == 0 && c.pos % 4 == 0
    ensures WeightsIn(Pico(data, c, ref, room, dec).events, DecoderTags(dec))
    decreases |data| - c.pos
  {
    if room > 0 && !c.ended {
      var p := c.pos;
      var next := Advance(c, 4, |data|);
      var ch := Channel(data[p + 3]);
      if IsPhoton(dec, ch) {
        var t := Time(dec, data[p], data[p + 1], data[p + 2], data[p + 3]);
        var e := Event(ToInt32(t - ref), Weights(dec, ch).0, Weights(dec, ch).1);
        var rest := Pico(data, next, t, room - 1, dec);
        PicoTags(data, next, t, room - 1, dec);
        assert WeightsIn([e], DecoderTags(dec));
        WeightsAppend([e], rest.events, DecoderTags(dec));
      } else if ch == 15 {
        PicoTags(data, next, ToInt32(ref - Rollover(dec)), room, dec);
      } else {
        PicoTags(data, next, ref, room, dec);
      }
    }
  }

  /** With no photon in the run Pico(data, c, ref, room, dec), the
      reference after it is the initial one less one period per overflow
      record, up to a multiple of 2^32. */
  predicate Lowers(data: seq<Byte>, c: Cursor, ref: int, room: nat, dec: Decoder)
    requires Live(c, |data|) && |data| % 4 == 0 && c.pos % 4 == 0
  {
    var r := Pico(data, c, ref, room, dec);
    r.events == [] ==> (r.iat - (ref - Lost(data, c.pos, r.cursor.pos, dec))) % Two32 == 0
  }

  /** A record that is not a photon keeps the run after it lowering the
      reference; an overflow record lowers it by its period, wrapped. */
  lemma LowersSkip(data: seq<Byte>, c: Cursor, ref: int, room: nat, dec: Decoder)
    requires Live(c, |data|) && |data| % 4 == 0 && c.pos % 4 == 0
    requires room > 0 && !c.ended && !IsPhoton(dec, Channel(data[c.pos + 3]))
    requires var ref' := if Channel(data[c.pos + 3]) == 15 then ToInt32(ref - Rollover(dec)) else ref;
      Lowers(data, Advance(c, 4, |data|), ref', room, dec)
    ensures Lowers(data, c, ref, room, dec)
  {
    var p, ch := c.pos, Channel(data[c.pos + 3]);
    var next := Advance(c, 4, |data|);
    var ref' := if ch == 15 then ToInt32(ref - Rollover(dec)) else ref;
    var r := Pico(data, c, ref, room, dec);
    PicoSkip(data, c, ref, room, dec);
    LostStep(data, p, r.cursor.pos, dec);
    if r.events == [] {
      Congruent(r.iat, ref - Lost(data, c.pos, r.cursor.pos, dec),
                r.iat - (ref' - Lost(data, next.pos, r.cursor.pos, dec)), (ref - (if ch == 15 then Rollover(dec) else 0)) - ref');
    }
  }

  /** The reference after a run: with no photon in it, the initial
      reference less one period per overflow record, up to the Java int
      wrap. */
  lemma {:induction false} PicoReference(data: seq<Byte>, c: Cursor, ref: int, room: nat, dec: Decoder)
    requires Live(c, |data|) && |data| % 4 == 0 && c.pos % 4 == 0
    ensures Lowers(data, c, ref, room, dec)
    decreases |data| - c.pos
  {
    if room > 0 && !c.ended {
      var p := c.pos;
      var ch := Channel(data[p + 3]);
      if IsPhoton(dec, ch) {
        PicoPhoton(data, c, ref, room, dec);
      } else {
        PicoReference(data, Advance(c, 4, |data|), if ch == 15 then ToInt32(ref - Rollover(dec)) else ref, room, dec);
        LowersSkip(data, c, ref, room, dec);
      }
    } else {
      var r := Pico(data, c, ref, room, dec);
      assert r == Run([], c, ref);
      Congruent(r.iat, ref - Lost(data, c.pos, r.cursor.pos, dec), 0, 0);
    }
  }
}

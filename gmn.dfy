/** Class Gmn: the streaming multi-tau photon correlator.

    A decoder call fills photonsIat / wAint / wBint with one batch of at
    most 32768 events; a correlator call runs phases A, B and C over the
    batch; the intensity tracer bins the batch. The fixed-size buffers of
    the source (the event batch and the 256-slot rings) are arrays; the
    per-cascade arrays and the s sums, which are only ever updated one
    entry at a time, are sequences that the methods reassign. The decoder
    state between calls (evA / bufferInSizeA and evB / bufferInSizeB) is a
    cursor into the data after the file header, which the decoders take as
    a sequence of bytes. */
module Correlator {
  import opened JavaInt
  import opened Events
  import opened Stream
  import opened LagTable
  import opened Engine
  import opened EngineChain
  import opened EngineInvariant
  import opened EngineEnds
  import opened EngineSteps
  import opened EngineLaws
  import opened Trace
  import Flex
  import Confocor
  import PicoHarp

  /** The three strings initializeGmn accepts and the correlator each one
      prepares; any other string is refused. */
  function ModeOf(correlationType: string): (r: Option<Mode>)
    ensures r.Some? <==> correlationType == "auto" || correlationType == "cross" || correlationType == "autoHOmlt"
  {
    if correlationType == "auto" then Some(Auto)
    else if correlationType == "cross" then Some(Cross)
    else if correlationType == "autoHOmlt" then Some(HighOrder)
    else None
  }

  datatype Option<T> = None | Some(value: T)

  /** The part of a state correlator m works on: the arrays of the other
      correlators are left out. initializeGmn allocates only the arrays of
      the correlator it prepares; the others keep whatever they held. */
  function Used(e: State, m: Mode): (u: State)
  {
    var x := m == Cross;
    var h := m == HighOrder;
    var r := e.ring;
    var b := e.bins;
    var t := e.totals;
    var s := e.sums;
    State(Ring(r.ciat, r.wa, if x then r.wb else []),
          Bins(b.mta, b.iatnew, b.waTemp, if x then b.wbTemp else [], b.sp),
          Totals(t.tlast, t.waTotal, if x then t.wbTotal else [], if h then t.waTotal2 else [], if h then t.waTotal3 else []),
          Sums(s.s01a, if x then s.s01b else [], if h then s.s02a else [], if h then s.s03a else [],
               s.s11aa, if x then s.s11ab else [], if x then s.s11ba else [], if x then s.s11bb else [],
               if h then s.s12aa else [], if h then s.s21aa else [], if h then s.s13aa else [],
               if h then s.s31aa else [], if h then s.s22aa else []))
  }

  /** The per-cascade and per-lag arrays initializeGmn leaves: those
      correlator m uses are new (all 0); those of the other correlators keep
      what they held. */
  function ResetBins(b: Bins, p: Params, m: Mode): Bins
    requires ValidParams(p)
  {
    var z := Filled(p.nc, 0);
    Bins(z, z, z, if m == Cross then z else b.wbTemp, z)
  }

  function ResetTotals(t: Totals, p: Params, m: Mode): Totals
    requires ValidParams(p)
  {
    var z := Filled(p.nc, 0);
    var h := m == HighOrder;
    Totals(z, z, if m == Cross then z else t.wbTotal, if h then z else t.waTotal2, if h then z else t.waTotal3)
  }

  function ResetSums(s: Sums, p: Params, m: Mode): Sums
    requires ValidParams(p)
  {
    Tiling(p, p.nc - 1);
    var z := Filled(LagCount(p), 0);
    var x, h := m == Cross, m == HighOrder;
    Sums(z, if x then z else s.s01b, if h then z else s.s02a, if h then z else s.s03a,
         z, if x then z else s.s11ab, if x then z else s.s11ba, if x then z else s.s11bb,
         if h then z else s.s12aa, if h then z else s.s21aa, if h then z else s.s13aa,
         if h then z else s.s31aa, if h then z else s.s22aa)
  }

  /** A state with new rings and reset arrays is the initial state
      wherever correlator m looks, and has the shape of correlator m. */
  lemma ResetUsed(e: State, b: Bins, t: Totals, s: Sums, p: Params, m: Mode)
    requires ValidParams(p)
    requires e.ring.ciat == Filled(256 * p.nc, Empty) && e.ring.wa == Filled(256 * p.nc, 0)
    requires m == Cross ==> e.ring.wb == Filled(256 * p.nc, 0)
    requires e.bins == ResetBins(b, p, m) && e.totals == ResetTotals(t, p, m) && e.sums == ResetSums(s, p, m)
    ensures Used(e, m) == Initial(p, m) && Shaped(e, p, m)
  {
  }

  /** The rings initializeGmn allocates: ciatarray filled with 10000,
      wAintArray and, for the cross correlator, wBintArray with 0; without
      the cross correlator wBintArray stays the array it was. */
  method NewRings(n: nat, cross: bool, wb: array<int>) returns (c: array<int>, a: array<int>, b: array<int>)
    ensures fresh(c) && fresh(a) && c != a && c[..] == Filled(n, Empty) && a[..] == Filled(n, 0)
    ensures cross ==> fresh(b) && b != c && b != a && b[..] == Filled(n, 0)
    ensures !cross ==> b == wb
  {
    c := new int[n];
    a := new int[n](_ => 0);
    assert a[..] == Filled(n, 0);
    b := wb;
    if cross {
      b := new int[n](_ => 0);
      assert b[..] == Filled(n, 0);
    }
    var k := 0;
    while k < n
      invariant 0 <= k <= n
      invariant a[..] == Filled(n, 0) && (cross ==> b[..] == Filled(n, 0))
      invariant forall i :: 0 <= i < k ==> c[i] == Empty
    {
      c[k] := Empty;
      k := k + 1;
    }
  }

  /** The batch arrays initializeGmn allocates: wBint has room for a
      batch only for the cross correlator (the source sets it to null
      otherwise). */
  method NewBatch(cross: bool) returns (pi: array<int>, wa: array<int>, wb: array<int>)
    ensures fresh(pi) && fresh(wa) && fresh(wb) && pi != wa && pi != wb && wa != wb
    ensures pi.Length == 32768 && wa.Length == 32768 && wb.Length == (if cross then 32768 else 0)
  {
    pi, wa, wb := new int[32768], new int[32768], new int[if cross then 32768 else 0];
  }

  /** A state whose used part is the initial state satisfies the phase B
      invariant: the invariant looks only at the used part. */
  lemma UsedOk(e: State, p: Params, m: Mode)
    requires ValidParams(p) && Shaped(e, p, m) && Used(e, m) == Initial(p, m)
    ensures Invariant(e, p, m)
  {
    var i := Initial(p, m);
    InitialOk(p, m);
    forall j: nat | j < p.nc
      ensures CascadeOk(e, p, m, j)
    {
      assert CascadeOk(i, p, m, j);
      assert e.ring.ciat == i.ring.ciat && e.bins.sp == i.bins.sp;
    }
  }

  /** A Confocor2 call on its way to the run r: with the cursor c, the
      pending interval iat and n events in the batch, the loop from here
      gives the rest of r after the events got. */
  ghost predicate OnTrack2(data: seq<Byte>, sel: Confocor.Channel, got: seq<Event>, r: Confocor.C2Run,
                           c: Cursor, iat: int, n: int)
  {
    Live(c, |data|) && |data| % 2 == 0 && c.pos % 2 == 0 && 0 <= n <= Capacity &&
    Leads2(got, Confocor.Confocor2(data, c, iat, sel, Capacity - n), r)
  }

  /** The events got, followed by the run rest, make up the run r. */
  ghost predicate Leads2(got: seq<Event>, rest: Confocor.C2Run, r: Confocor.C2Run)
  {
    got + rest.events == r.events && rest.cursor == r.cursor && rest.iat == r.iat
  }

  lemma LeadsOn2(got: seq<Event>, evs: seq<Event>, rest: Confocor.C2Run, rest': Confocor.C2Run, r: Confocor.C2Run)
    requires Leads2(got, rest, r)
    requires rest.events == evs + rest'.events && rest.cursor == rest'.cursor && rest.iat == rest'.iat
    ensures Leads2(got + evs, rest', r)
  {
    assert got + rest.events == (got + evs) + rest'.events;
  }

  /** The Confocor2 loop across one record: when the record is read to the
      end, what it gave followed by the run from the next record still makes
      up r; when the batch fills up in it, what it gave ends r. */
  lemma Confocor2Moves(data: seq<Byte>, sel: Confocor.Channel, got: seq<Event>, r: Confocor.C2Run,
                       c: Cursor, iat: int, n: int)
    requires OnTrack2(data, sel, got, r, c, iat, n) && n < Capacity && !c.ended && data[c.pos] != 0
    ensures var rec := Confocor.Record(data[c.pos], data[c.pos + 1], sel, iat, Capacity - n);
      rec.complete ==> OnTrack2(data, sel, got + rec.events, r, Advance(c, 2, |data|), rec.iat, n + |rec.events|)
    ensures var rec := Confocor.Record(data[c.pos], data[c.pos + 1], sel, iat, Capacity - n);
      !rec.complete ==> got + rec.events == r.events && c == r.cursor && rec.iat == r.iat
  {
    var rec := Confocor.Record(data[c.pos], data[c.pos + 1], sel, iat, Capacity - n);
    if rec.complete {
      Confocor2Completes(data, sel, got, r, c, iat, n);
    } else {
      Confocor.Confocor2Cut(data, c, iat, sel, Capacity - n);
    }
  }

  /** Confocor2Moves on a record read to the end. */
  lemma Confocor2Completes(data: seq<Byte>, sel: Confocor.Channel, got: seq<Event>, r: Confocor.C2Run,
                           c: Cursor, iat: int, n: int)
    requires OnTrack2(data, sel, got, r, c, iat, n) && n < Capacity && !c.ended && data[c.pos] != 0
    requires Confocor.Record(data[c.pos], data[c.pos + 1], sel, iat, Capacity - n).complete
    ensures var rec := Confocor.Record(data[c.pos], data[c.pos + 1], sel, iat, Capacity - n);
      OnTrack2(data, sel, got + rec.events, r, Advance(c, 2, |data|), rec.iat, n + |rec.events|)
  {
    var room := Capacity - n;
    var rec := Confocor.Record(data[c.pos], data[c.pos + 1], sel, iat, room);
    var c' := Advance(c, 2, |data|);
    Confocor.Confocor2Record(data, c, iat, sel, room);
    var rest1 := Confocor.Confocor2(data, c', rec.iat, sel, room - |rec.events|);
    LeadsOn2(got, rec.events, Confocor.Confocor2(data, c, iat, sel, room), rest1, r);
  }

  /** The events got, followed by the run rest, make up the run r. */
  ghost predicate Leads(got: seq<Event>, rest: Run, r: Run)
  {
    got + rest.events == r.events && rest.cursor == r.cursor && rest.iat == r.iat
  }

  /** A Confocor3 call on its way to the run r: with the cursor c, the
      pending interval iat and n events in the batch, the loop from here
      gives the rest of r after the events got. */
  ghost predicate OnTrack3(data: seq<Byte>, got: seq<Event>, r: Run, c: Cursor, iat: int, n: int)
  {
    Live(c, |data|) && |data| % 4 == 0 && c.pos % 4 == 0 && 0 <= n <= Capacity &&
    Leads(got, Confocor.Confocor3(data, c, iat, Capacity - n), r)
  }

  /** The Confocor3 loop across one record: its event, then the run from
      the next record with no pending interval. */
  lemma Confocor3Moves(data: seq<Byte>, got: seq<Event>, r: Run, c: Cursor, iat: int, n: int)
    requires OnTrack3(data, got, r, c, iat, n) && n < Capacity && !c.ended
    ensures c.pos + 4 <= |data|
    ensures var e := Event(ToInt32(iat + LittleEndian(data[c.pos], data[c.pos + 1], data[c.pos + 2], data[c.pos + 3])), 1, 0);
      OnTrack3(data, got + [e], r, Advance(c, 4, |data|), 0, n + 1)
  {
    var e := Event(ToInt32(iat + LittleEndian(data[c.pos], data[c.pos + 1], data[c.pos + 2], data[c.pos + 3])), 1, 0);
    var rest := Confocor.Confocor3(data, Advance(c, 4, |data|), 0, Capacity - n - 1);
    assert Confocor.Confocor3(data, c, iat, Capacity - n).events == [e] + rest.events;
    assert got + [e] + rest.events == got + ([e] + rest.events);
  }

  /** The Confocor3 loop on a full batch or an ended cursor: r is complete. */
  lemma Confocor3Stops(data: seq<Byte>, got: seq<Event>, r: Run, c: Cursor, iat: int, n: int)
    requires OnTrack3(data, got, r, c, iat, n) && (n == Capacity || c.ended)
    ensures got == r.events && c == r.cursor && iat == r.iat
  {
  }

  /** A PicoHarp call on its way to the run r: with the cursor c, the
      reference time ref and n events in the batch, the loop from here gives
      the rest of r after the events got. */
  ghost predicate OnTrackPico(data: seq<Byte>, dec: PicoHarp.Decoder, got: seq<Event>, r: Run, c: Cursor, ref: int, n: int)
  {
    Live(c, |data|) && |data| % 4 == 0 && c.pos % 4 == 0 && 0 <= n <= Capacity &&
    Leads(got, PicoHarp.Pico(data, c, ref, Capacity - n, dec), r)
  }

  /** The PicoHarp loop across a photon record: its event is the next one,
      and its time the new reference. */
  lemma PicoMovesPhoton(data: seq<Byte>, dec: PicoHarp.Decoder, got: seq<Event>, r: Run, c: Cursor, ref: int, n: int)
    requires OnTrackPico(data, dec, got, r, c, ref, n) && n < Capacity && !c.ended
    requires PicoHarp.IsPhoton(dec, PicoHarp.Channel(data[c.pos + 3]))
    ensures var p, ch := c.pos, PicoHarp.Channel(data[c.pos + 3]);
      var t := PicoHarp.Time(dec, data[p], data[p + 1], data[p + 2], data[p + 3]);
      OnTrackPico(data, dec, got + [Event(ToInt32(t - ref), PicoHarp.Weights(dec, ch).0, PicoHarp.Weights(dec, ch).1)], r, Advance(c, 4, |data|), t, n + 1)
  {
    var p, ch := c.pos, PicoHarp.Channel(data[c.pos + 3]);
    var t := PicoHarp.Time(dec, data[p], data[p + 1], data[p + 2], data[p + 3]);
    var e := Event(ToInt32(t - ref), PicoHarp.Weights(dec, ch).0, PicoHarp.Weights(dec, ch).1);
    var rest := PicoHarp.Pico(data, Advance(c, 4, |data|), t, Capacity - n - 1, dec);
    PicoHarp.PicoPhoton(data, c, ref, Capacity - n, dec);
    assert got + [e] + rest.events == got + ([e] + rest.events);
  }

  /** The PicoHarp loop across any other record: an overflow lowers the
      reference by the timer period, other channels are skipped. */
  lemma PicoMovesSkip(data: seq<Byte>, dec: PicoHarp.Decoder, got: seq<Event>, r: Run, c: Cursor, ref: int, n: int)
    requires OnTrackPico(data, dec, got, r, c, ref, n) && n < Capacity && !c.ended
    requires !PicoHarp.IsPhoton(dec, PicoHarp.Channel(data[c.pos + 3]))
    ensures var ref' := if PicoHarp.Channel(data[c.pos + 3]) == 15 then ToInt32(ref - PicoHarp.Rollover(dec)) else ref;
      OnTrackPico(data, dec, got, r, Advance(c, 4, |data|), ref', n)
  {
    PicoHarp.PicoSkip(data, c, ref, Capacity - n, dec);
  }

  /** The PicoHarp loop on a full batch or an ended cursor: r is complete. */
  lemma PicoEnds(data: seq<Byte>, dec: PicoHarp.Decoder, got: seq<Event>, r: Run, c: Cursor, ref: int, n: int)
    requires OnTrackPico(data, dec, got, r, c, ref, n) && (n == Capacity || c.ended)
    ensures got == r.events && c == r.cursor && ref == r.iat
  {
  }

  /** The tracer on its way through a batch: the points ps[i..] still to
      come are those of events evs[ev..] from the open bin (ii events, x
      ticks, weights ya and yb), and the macro time t is t0 plus the
      durations of the points ps[..i] already written. */
  ghost predicate OnTrace(ps: seq<Point>, i: int, t0: int, t: int, evs: seq<Event>, ev: int, size: int,
                          ii: int, x: int, ya: int, yb: int)
  {
    0 <= i <= |ps| && 0 <= ev <= |evs| &&
    ps[i..] == PointsFrom(evs[ev..], size, ii, x, ya, yb, t) && t == t0 + Spanned(ps[..i])
  }

  /** The tracer across event ev: the event joins the open bin, and when
      the bin is full or the batch ends, the bin is the next point. */
  lemma TraceMoves(ps: seq<Point>, i: int, t0: int, t: int, evs: seq<Event>, ev: int, size: int,
                   ii: int, x: int, ya: int, yb: int)
    requires OnTrace(ps, i, t0, t, evs, ev, size, ii, x, ya, yb) && ev < |evs|
    ensures var e := evs[ev];
      var x', ya', yb' := x + e.iat, ya + e.wA, yb + e.wB;
      (ii + 1 == size || ev + 1 == |evs|) ==>
        i < |ps| && ps[i] == Point(t as real + x' as real / 2.0, Rate(ya', x'), Rate(yb', x')) &&
        OnTrace(ps, i + 1, t0, t + x', evs, ev + 1, size, 0, 0, 0, 0)
    ensures var e := evs[ev];
      !(ii + 1 == size || ev + 1 == |evs|) ==> OnTrace(ps, i, t0, t, evs, ev + 1, size, ii + 1, x + e.iat, ya + e.wA, yb + e.wB)
  {
    PointsFromAt(evs, ev, size, ii, x, ya, yb, t);
    var e := evs[ev];
    if ii + 1 == size || ev + 1 == |evs| {
      var rest := PointsFrom(evs[ev + 1..], size, 0, 0, 0, 0, t + x + e.iat);
      assert ps[i..] == [ps[i]] + rest;
      assert ps[i + 1..] == ps[i..][1..];
      SpannedSnoc(ps, i);
    }
  }

  /** When the tracer stops, at the end of the batch or on a full trace
      from position pos0, it has written the first n points, n being all of
      them or as many as fit, and the macro time has moved on by their
      durations; when all of them fit, by the batch's whole duration. */
  lemma TraceEnds(ps: seq<Point>, i: int, t0: int, t: int, evs: seq<Event>, ev: int, size: int,
                  ii: int, x: int, ya: int, yb: int, pos0: int)
    requires OnTrace(ps, i, t0, t, evs, ev, size, ii, x, ya, yb) && ps == Points(evs, size, t0)
    requires 0 <= pos0 && pos0 + i <= TraceLength && (ev == |evs| || pos0 + i == TraceLength)
    ensures var n := if |ps| <= TraceLength - pos0 then |ps| else TraceLength - pos0;
      i == n && t == t0 + Spanned(ps[..n])
    ensures pos0 + |ps| <= TraceLength ==> t == t0 + Ticks(evs)
  {
    if ev == |evs| {
      assert evs[ev..] == [];
    }
    Conserved(evs, size, t0);
    assert ps[..|ps|] == ps;
  }

  /** Lag ii of cascade j in the tail loop, on one of the sums arrays:
      the newest bin's weight w is credited at the lag when tl is below it. */
  method CreditLag(a: seq<int>, p: Params, j: int, tl: int, w: int, ii: int, lag: int, ghost a0: seq<int>)
    returns (a': seq<int>)
    requires ValidParams(p) && 0 <= j < p.nc && 0 <= ii < NtLag(p, j) && |a0| == LagCount(p)
    requires lag == LagAt(p, j, ii) && a == Tail(a0, p, j, tl, w, ii + 1)
    ensures a' == Tail(a0, p, j, tl, w, ii)
  {
    TailStep(a0, p, j, tl, w, ii);
    var k := Offset(p, j) + ii;
    if tl < lag {
      a' := a[k := a[k] + w];
    } else {
      a' := a;
    }
  }

  /** A new array holding the first n entries of a, copied one by one. */
  method Truncated<T(0)>(a: array<T>, n: int) returns (r: array<T>)
    requires 0 <= n <= a.Length
    ensures fresh(r) && r[..] == a[..n]
  {
    r := new T[n];
    var ii := 0;
    while ii < n
      invariant 0 <= ii <= n && r[..ii] == a[..ii]
    {
      r[ii] := a[ii];
      ii := ii + 1;
    }
  }

  class Gmn {
    /** The parameters t0, nc and np. */
    var params: Params

    var photonsIat: array<int>
    var wAint: array<int>
    var wBint: array<int>
    var iatA: int
    var iatB: int
    var nEvents: int

    var curA: Cursor
    var curB: Cursor
    var ccA: int

    var ciatarray: array<int>
    var wAintArray: array<int>
    var wBintArray: array<int>
    /** mta, iatnew, wAintTemp, wBintTemp and sp, one entry per cascade. */
    var bins: Bins
    /** tlast, wAtotal, wBtotal, wAtotal2 and wAtotal3. */
    var totals: Totals
    /** The s arrays, one entry per lag. */
    var sums: Sums

    /** The correlator initializeGmn prepared the arrays for. */
    ghost var mode: Mode

    /** The intensity trace: mid times, rates on A and B, the number of
        points so far, the events per bin and the macro time. */
    var intensityTraceX: array<real>
    var intensityTraceYA: array<Rate>
    var intensityTraceYB: array<Rate>
    var intensityTracePosition: int
    var binSize: int
    var macroTime: int

    /** Phase C's output: for every lag, the integer sums the g arrays are
        computed from in floating point. */
    var norms: seq<Norm>

    /** The object as the source constructs it: the default parameters
        t0 = 1, nc = 16, np = 16 and no arrays yet (every array empty). */
    constructor ()
      ensures params == Params(1, 16, 16) && nEvents == 0
    {
      params := Params(1, 16, 16);
      photonsIat, wAint, wBint := new int[0], new int[0], new int[0];
      iatA, iatB, nEvents := 0, 0, 0;
      curA, curB, ccA := Cursor(0, false), Cursor(0, false), 0;
      ciatarray, wAintArray, wBintArray := new int[0], new int[0], new int[0];
      bins := Bins([], [], [], [], []);
      totals := Totals([], [], [], [], []);
      sums := Sums([], [], [], [], [], [], [], [], [], [], [], [], []);
      mode := Auto;
      intensityTraceX, intensityTraceYA, intensityTraceYB := new real[0], new Rate[0], new Rate[0];
      intensityTracePosition, binSize, macroTime := 0, 0, 0;
      norms := [];
    }

    /** setParams: it only stores the parameters; the arrays keep the sizes
        of the last initializeGmn. */
    method SetParams(baseTime: int, nCascades: int, nPointsPerCascade: int)
      modifies this`params
      ensures params == Params(baseTime, nCascades, nPointsPerCascade)
    {
      params := Params(baseTime, nCascades, nPointsPerCascade);
    }

    /** getParams: a fresh array [t0, nc, np]. */
    method GetParams() returns (a: array<int>)
      ensures fresh(a) && a[..] == [params.t0, params.nc, params.np]
    {
      a := new int[3];
      a[0] := params.t0;
      a[1] := params.nc;
      a[2] := params.np;
    }

    method GetNofEvents() returns (n: int)
      ensures n == nEvents
    {
      n := nEvents;
    }

    /** The event batch: photonsIat, wAint and, for the cross correlator,
        wBint up to nEvents. */
    predicate Buffers()
      reads this`photonsIat, this`wAint, this`wBint, this`nEvents
    {
      photonsIat.Length == 32768 && wAint.Length == 32768 && 0 <= nEvents <= 32768 &&
      photonsIat != wAint && photonsIat != wBint && wAint != wBint
    }

    /** The ring arrays are three different arrays. */
    predicate Apart()
      reads this`ciatarray, this`wAintArray, this`wBintArray
    {
      ciatarray != wAintArray && ciatarray != wBintArray && wAintArray != wBintArray
    }

    /** The ring arrays are three arrays, none of them a batch array. */
    predicate Rings()
      reads this`ciatarray, this`wAintArray, this`wBintArray, this`photonsIat, this`wAint, this`wBint
    {
      Apart() &&
      ciatarray != photonsIat && ciatarray != wAint && ciatarray != wBint &&
      wAintArray != photonsIat && wAintArray != wAint && wAintArray != wBint &&
      wBintArray != photonsIat && wBintArray != wAint && wBintArray != wBint
    }

    ghost function Batch(m: Mode): (evs: seq<Event>)
      reads this`photonsIat, this`wAint, this`wBint, this`nEvents, photonsIat, wAint, wBint
      requires Buffers() && (m == Cross ==> wBint.Length == 32768)
      ensures |evs| == nEvents
    {
      Zip(photonsIat[..nEvents], wAint[..nEvents], if m == Cross then wBint[..nEvents] else Filled(nEvents, 0))
    }

    /** The correlator's state: the ring arrays, the per-cascade arrays and
        the s arrays. */
    function Snapshot(): State
      reads this`ciatarray, this`wAintArray, this`wBintArray, this`bins, this`totals, this`sums, ciatarray, wAintArray, wBintArray
    {
      State(Ring(ciatarray[..], wAintArray[..], wBintArray[..]),
            bins, totals, sums)
    }

    /** What a correlator call needs: parameters the model admits, the
        batch arrays, the ring arrays, and the phase B invariant. */
    ghost predicate Valid()
      reads this`params, this`photonsIat, this`wAint, this`wBint, this`nEvents, this`ciatarray, this`wAintArray, this`wBintArray, this`bins, this`totals, this`sums, this`mode
      reads ciatarray, wAintArray, wBintArray
    {
      ValidParams(params) && Buffers() && Rings() && (mode == Cross ==> wBint.Length == 32768) &&
      Invariant(Snapshot(), params, mode)
    }

    /** The intensity trace: arrays of TraceLength points (YB only for the
        cross correlator), a position within them and bins of at least one
        event. */
    ghost predicate Traced()
      reads this`intensityTraceX, this`intensityTraceYA, this`intensityTraceYB, this`intensityTracePosition,
            this`binSize, this`mode
    {
      intensityTraceX.Length == TraceLength && intensityTraceYA.Length == TraceLength &&
      (mode == Cross ==> intensityTraceYB.Length == TraceLength) &&
      0 <= intensityTracePosition <= TraceLength && binSize >= 1
    }

    /** The decoder side of initializeGmn: a new empty batch (wBint only
        for the cross correlator), both cursors at the start of their data,
        no pending interval. The cross branch leaves ccA as it was. */
    method ResetInput(m: Mode)
      modifies this`curA, this`curB, this`ccA, this`iatA, this`iatB, this`photonsIat, this`wAint, this`wBint,
               this`nEvents
      ensures Buffers() && fresh(photonsIat) && fresh(wAint) && fresh(wBint)
      ensures photonsIat.Length == 32768 && wAint.Length == 32768 && wBint.Length == (if m == Cross then 32768 else 0)
      ensures curA == Cursor(0, false) && curB == Cursor(0, false) && nEvents == 0 && iatA == 0
      ensures ccA == (if m == Cross then old(ccA) else 0) && iatB == (if m == Cross then 0 else old(iatB))
    {
      curA, curB := Cursor(0, false), Cursor(0, false);
      if m != Cross {
        ccA := 0;
      }
      iatA := 0;
      if m == Cross {
        iatB := 0;
      }
      photonsIat, wAint, wBint := NewBatch(m == Cross);
      nEvents := 0;
    }

    /** The per-cascade and per-lag arrays initializeGmn allocates for
        correlator m, all 0; those of the other correlators are kept. */
    method ResetArrays(m: Mode)
      requires ValidParams(params)
      modifies this`bins, this`totals, this`sums, this`mode
      ensures mode == m && bins == ResetBins(old(bins), params, m)
      ensures totals == ResetTotals(old(totals), params, m) && sums == ResetSums(old(sums), params, m)
    {
      var p := params;
      bins, totals, sums := ResetBins(bins, p, m), ResetTotals(totals, p, m), ResetSums(sums, p, m);
      mode := m;
    }

    /** The rings initializeGmn allocates for the correlator the arrays
        were reset for: every time 10000 and every weight 0; wBintArray only
        for the cross correlator. With the reset arrays, the correlator's
        state is the initial one, which keeps the phase B invariant. */
    method AllocateRings(m: Mode, ghost b: Bins, ghost t: Totals, ghost s: Sums)
      requires ValidParams(params) && m == mode
      requires bins == ResetBins(b, params, mode) && totals == ResetTotals(t, params, mode)
      requires sums == ResetSums(s, params, mode)
      modifies this`ciatarray, this`wAintArray, this`wBintArray
      ensures Apart() && ciatarray[..] == Filled(256 * params.nc, Empty) && wAintArray[..] == Filled(256 * params.nc, 0)
      ensures fresh(ciatarray) && fresh(wAintArray)
      ensures mode == Cross ==> fresh(wBintArray) && wBintArray[..] == Filled(256 * params.nc, 0)
      ensures mode != Cross ==> wBintArray == old(wBintArray)
      ensures Invariant(Snapshot(), params, mode)
    {
      ciatarray, wAintArray, wBintArray := NewRings(256 * params.nc, m == Cross, wBintArray);
      ResetUsed(Snapshot(), b, t, s, params, mode);
      UsedOk(Snapshot(), params, mode);
    }

    /** The trace side of initializeGmn: new trace arrays (YB only for the
        cross correlator), no points, bins of 4096 events, macro time 0. */
    method ResetTrace(m: Mode)
      requires m == mode
      modifies this`intensityTraceX, this`intensityTraceYA, this`intensityTraceYB, this`intensityTracePosition,
               this`binSize, this`macroTime
      ensures fresh(intensityTraceX) && fresh(intensityTraceYA)
      ensures intensityTraceX.Length == TraceLength && intensityTraceYA.Length == TraceLength
      ensures m == Cross ==> fresh(intensityTraceYB) && intensityTraceYB.Length == TraceLength
      ensures m != Cross ==> intensityTraceYB == old(intensityTraceYB)
      ensures intensityTracePosition == 0 && binSize == 4096 && macroTime == 0 && Traced()
    {
      intensityTraceX := new real[TraceLength];
      intensityTraceYA := new Rate[TraceLength];
      if m == Cross {
        intensityTraceYB := new Rate[TraceLength];
      }
      intensityTracePosition, binSize, macroTime := 0, 4096, 0;
    }

    /** initializeGmn: for "auto", "cross" and "autoHOmlt" it prepares the
        object for that correlator (Initialize) and returns 1; any other
        string changes nothing and gives -1. */
    method InitializeGmn(correlationType: string) returns (ff: int)
      requires ValidParams(params)
      modifies this
      ensures ff == (if ModeOf(correlationType).Some? then 1 else -1)
      ensures ff == -1 ==> unchanged(this)
      ensures ff == 1 ==> mode == ModeOf(correlationType).value && Valid() && params == old(params)
    {
      var kind := ModeOf(correlationType);
      if kind.None? {
        return -1;
      }
      Initialize(kind.value);
      return 1;
    }

    /** The body of initializeGmn for correlator m: it resets the decoders,
        allocates the arrays of that correlator (every ring time 10000,
        everything else 0) and a new trace. The loop meant to set every
        ring pointer to -128 assigns only its loop variable, so the
        pointers stay 0. */
    method Initialize(m: Mode)
      requires ValidParams(params)
      modifies this
      ensures mode == m && Valid() && Traced() && nEvents == 0 && params == old(params)
    {
      Prepare(m);
      ResetTrace(m);
    }

    /** The correlator side of initializeGmn: a new batch, then the arrays
        of correlator m. */
    method Prepare(m: Mode)
      requires ValidParams(params)
      modifies this`curA, this`curB, this`ccA, this`iatA, this`iatB, this`photonsIat, this`wAint, this`wBint, this`nEvents
      modifies this`ciatarray, this`wAintArray, this`wBintArray, this`bins, this`totals, this`sums, this`mode
      ensures mode == m && Valid() && nEvents == 0
    {
      ResetInput(m);
      AllocateCorrelator(m);
    }

    /** The correlator side of initializeGmn: the arrays of correlator m
        are reset and its rings allocated, which leaves the initial state
        of that correlator. */
    method AllocateCorrelator(m: Mode)
      requires ValidParams(params)
      modifies this`ciatarray, this`wAintArray, this`wBintArray, this`bins, this`totals, this`sums, this`mode
      ensures mode == m && Apart() && params == old(params) && Invariant(Snapshot(), params, m)
      ensures fresh(ciatarray) && fresh(wAintArray)
      ensures m == Cross ==> fresh(wBintArray)
      ensures m != Cross ==> wBintArray == old(wBintArray)
    {
      ResetArrays(m);
      AllocateRings(m, old(bins), old(totals), old(sums));
    }

    /** Phase A's arrays as the correlator computed them. */
    ghost predicate Lags(timebase: array<int>, ntlag: array<int>, cc: array<int>)
      reads this`params, this`ciatarray, this`wAintArray, this`wBintArray, timebase, ntlag, cc
      requires ValidParams(params)
    {
      var p := params;
      timebase.Length == params.nc && ntlag.Length == params.nc && cc[..] == LagTable.LagTable(p) &&
      (forall j :: 0 <= j < params.nc ==> timebase[j] == Timebase(p, j) && ntlag[j] == NtLag(p, j)) &&
      timebase != ciatarray && timebase != wAintArray && timebase != wBintArray &&
      ntlag != ciatarray && ntlag != wAintArray && ntlag != wBintArray &&
      cc != ciatarray && cc != wAintArray && cc != wBintArray
    }

    /** What the steps of phase B need: the parameters, distinct arrays and
        a state of the shape of correlator m. */
    ghost predicate Ready(m: Mode)
      reads this`params, this`photonsIat, this`wAint, this`wBint, this`ciatarray, this`wAintArray, this`wBintArray, this`bins, this`totals, this`sums, this`mode
    {
      var p := params;
      m == mode && ValidParams(p) && Rings() &&
      ciatarray.Length == 256 * params.nc && wAintArray.Length == 256 * params.nc && (m == Cross ==> wBintArray.Length == 256 * params.nc) &&
      BinsShaped(bins, p, m) && TotalsShaped(totals, p, m) && SumsShaped(sums, p, m)
    }

    /** A ready object's state has the shape of its correlator. */
    lemma ReadyShaped(m: Mode)
      requires Ready(m)
      ensures Shaped(Snapshot(), params, m)
    {
    }

    /** The first inner loop of the correlation search: back over the ring
        while the time is below the window, bringing each further slot up
        to date by adding `add`. */
    method SkipLoop(j: int, st0: int, add: int, lo: int) returns (st: int)
      requires 0 <= j && Fits(ciatarray[..], j) && IsByte(st0) && SkipEnds(ciatarray[..], j, st0, add, lo)
      modifies ciatarray
      ensures Probe(ciatarray[..], st) == Skip(old(ciatarray[..]), j, st0, add, lo, 256)
    {
      ghost var r := Skip(ciatarray[..], j, st0, add, lo, 256);
      ghost var fuel: nat := 256;
      st := st0;
      while ciatarray[Slot(j, st)] < lo
        invariant IsByte(st) && Fits(ciatarray[..], j)
        invariant Skip(ciatarray[..], j, st, add, lo, fuel) == r
        invariant fuel == 0 ==> ciatarray[Slot(j, st)] >= lo
        decreases fuel
      {
        ghost var c' := SkipStep(ciatarray[..], j, st, add, lo, fuel);
        st := ByteDec(st);
        ciatarray[Slot(j, st)] := ciatarray[Slot(j, st)] + add;
        assert ciatarray[..] == c';
        fuel := fuel - 1;
      }
    }

    /** A ring slot brought up to date: add is added to its time. */
    method Bump(j: int, st: int, add: int)
      requires 0 <= j && Fits(ciatarray[..], j) && IsByte(st)
      modifies ciatarray
      ensures ciatarray[..] == old(ciatarray[..])[Slot(j, st) := old(ciatarray[..])[Slot(j, st)] + add]
    {
      ciatarray[Slot(j, st)] := ciatarray[Slot(j, st)] + add;
    }

    /** One slot of the second inner loop: the lag product of the newest
        bin with the bin at st, and the step back over the ring. */
    method GatherSlot(p: Params, m: Mode, j: int, w: Window, st: int, add: int, cA: int, cB: int, s: Sums,
                      ghost wa: seq<int>, ghost wb: seq<int>, ghost fuel: nat) returns (st': int, s': Sums)
      requires p == params && ValidParams(p) && 0 <= j < params.nc && WindowOk(w, p) && IsByte(st) && SumsShaped(s, p, m)
      requires ciatarray != wAintArray && ciatarray != wBintArray && wa == wAintArray[..] && wb == wBintArray[..]
      requires Fits(ciatarray[..], j) && Fits(wa, j) && (m == Cross ==> Fits(wb, j))
      requires fuel > 0 && w.lo <= ciatarray[Slot(j, st)] <= w.hi
      modifies ciatarray
      ensures IsByte(st') && SumsShaped(s', p, m) && |ciatarray[..]| == |old(ciatarray[..])|
      ensures Gather(ciatarray[..], s', wa, wb, p, m, j, w, st', add, cA, cB, fuel - 1) ==
              Gather(old(ciatarray[..]), s, wa, wb, p, m, j, w, st, add, cA, cB, fuel)
    {
      var k := w.off + ciatarray[Slot(j, st)] - w.sub;
      var sA := wAintArray[Slot(j, st)];
      var sB := if m == Cross then wBintArray[Slot(j, st)] else 0;
      ghost var c' := GatherNext(ciatarray[..], s, wa, wb, p, m, j, w, st, add, cA, cB, fuel, k, sA, sB);
      s' := Product(s, p, m, k, cA, cB, sA, sB);
      st' := ByteDec(st);
      Bump(j, st', add);
    }

    /** The second inner loop: back over the ring while the time is inside
        the window, adding the lag products of the newest bin's weights
        cA, cB at index off + time - sub. */
    method GatherLoop(p: Params, m: Mode, j: int, w: Window, st0: int, add: int, cA: int, cB: int) returns (st: int)
      requires p == params && ValidParams(p) && 0 <= j < params.nc && WindowOk(w, p) && IsByte(st0)
      requires ciatarray != wAintArray && ciatarray != wBintArray && SumsShaped(sums, p, m)
      requires Fits(ciatarray[..], j) && Fits(wAintArray[..], j) && (m == Cross ==> Fits(wBintArray[..], j))
      requires GatherEnds(ciatarray[..], sums, wAintArray[..], wBintArray[..], p, m, j, w, st0, add, cA, cB)
      modifies ciatarray, this`sums
      ensures SumsShaped(sums, p, m)
      ensures Trail(ciatarray[..], sums, st) ==
              Gather(old(ciatarray[..]), old(sums), wAintArray[..], wBintArray[..], p, m, j, w, st0, add, cA, cB, 256)
    {
      ghost var wa, wb := wAintArray[..], wBintArray[..];
      ghost var t := Gather(ciatarray[..], sums, wa, wb, p, m, j, w, st0, add, cA, cB, 256);
      ghost var fuel: nat := 256;
      var s := sums;
      st := st0;
      while w.lo <= ciatarray[Slot(j, st)] <= w.hi
        invariant IsByte(st) && SumsShaped(s, p, m) && |ciatarray[..]| == |old(ciatarray[..])|
        invariant wAintArray[..] == wa && wBintArray[..] == wb
        invariant Gather(ciatarray[..], s, wa, wb, p, m, j, w, st, add, cA, cB, fuel) == t
        invariant fuel == 0 ==> !(w.lo <= ciatarray[Slot(j, st)] <= w.hi)
        decreases fuel
      {
        st, s := GatherSlot(p, m, j, w, st, add, cA, cB, s, wa, wb, fuel);
        fuel := fuel - 1;
      }
      sums := s;
    }

    /** The tail corrections of a push, as the loop over the lags of
        cascade j from the last one down takes them; the loop runs only
        while the total time tl is below the cascade's last lag. */
    method TailLoop(p: Params, m: Mode, j: int, tl: int, cA: int, cB: int, off: int, nt: int, cc: array<int>)
      requires p == params && ValidParams(p) && 0 <= j < p.nc && SumsShaped(sums, p, m)
      requires off == Offset(p, j) && nt == NtLag(p, j) && cc[..] == LagTable.LagTable(p)
      modifies this`sums
      ensures sums == Tails(old(sums), p, m, j, tl, cA, cB, 0)
    {
      var s0 := sums;
      Tiling(p, j);
      if tl < cc[off + nt - 1] {
        var a1, b1, a2, a3 := s0.s01a, s0.s01b, s0.s02a, s0.s03a;
        var ii := nt;
        while ii > 0
          invariant 0 <= ii <= nt
          invariant a1 == Tail(s0.s01a, p, j, tl, cA, ii)
          invariant b1 == if m == Cross then Tail(s0.s01b, p, j, tl, cB, ii) else s0.s01b
          invariant a2 == if m == HighOrder then Tail(s0.s02a, p, j, tl, ToInt32(cA * cA), ii) else s0.s02a
          invariant a3 == if m == HighOrder then Tail(s0.s03a, p, j, tl, ToInt32(cA * cA * cA), ii) else s0.s03a
        {
          ii := ii - 1;
          var lag := cc[off + ii];
          a1 := CreditLag(a1, p, j, tl, cA, ii, lag, s0.s01a);
          if m == Cross {
            b1 := CreditLag(b1, p, j, tl, cB, ii, lag, s0.s01b);
          }
          if m == HighOrder {
            a2 := CreditLag(a2, p, j, tl, ToInt32(cA * cA), ii, lag, s0.s02a);
            a3 := CreditLag(a3, p, j, tl, ToInt32(cA * cA * cA), ii, lag, s0.s03a);
          }
        }
        sums := s0.(s01a := a1, s01b := b1, s02a := a2, s03a := a3);
      } else {
        TailsNone(s0, p, m, j, tl, cA, cB);
      }
    }

    /** The first half of a push onto cascade j: time d into the current
        slot, the pointer one on, the weights cA, cB into the new slot, and
        the totals. */
    method PushSlots(p: Params, m: Mode, j: int, d: int, cA: int, cB: int)
      requires Ready(m) && p == params && 0 <= j < p.nc
      modifies ciatarray, wAintArray, wBintArray, this`bins, this`totals
      ensures Ready(m) && sums == old(sums)
      ensures ciatarray[..] == Pushed(old(ciatarray[..]), j, old(bins.sp[j]), d)
      ensures wAintArray[..] == PushedA(old(Snapshot()), j, cA) && wBintArray[..] == PushedB(old(Snapshot()), m, j, cB)
      ensures bins == old(bins).(sp := old(bins.sp)[j := ByteInc(old(bins.sp[j]))])
      ensures totals == PushTotals(old(totals), p, m, j, d, cA, cB)
    {
      var s := bins.sp[j];
      var s1 := ByteInc(s);
      ciatarray[Slot(j, s)] := d;
      bins := bins.(sp := bins.sp[j := s1]);
      wAintArray[Slot(j, s1)] := cA;
      if m == Cross {
        wBintArray[Slot(j, s1)] := cB;
      }
      var t := totals;
      totals := Totals(t.tlast[j := t.tlast[j] + d], Add(t.waTotal, j, cA),
                       if m == Cross then Add(t.wbTotal, j, cB) else t.wbTotal,
                       if m == HighOrder then Add(t.waTotal2, j, ToInt32(cA * cA)) else t.waTotal2,
                       if m == HighOrder then Add(t.waTotal3, j, ToInt32(cA * cA * cA)) else t.waTotal3);
    }

    /** The correlation search after a push onto cascade j whose pointer
        is now sp: nothing unless the slot behind the pointer is within the
        window's upper end; else both inner loops. */
    method Search(p: Params, m: Mode, j: int, w: Window, sp: int, add1: int, d: int, cA: int, cB: int)
      requires Ready(m) && p == params && 0 <= j < p.nc && WindowOk(w, p) && IsByte(sp)
      requires var c := ciatarray[..];
        c[Slot(j, ByteDec(sp))] <= w.hi ==>
          SkipEnds(c, j, ByteDec(sp), add1, w.lo) &&
          var pr := Skip(c, j, ByteDec(sp), add1, w.lo, 256);
          GatherEnds(pr.ciat, sums, wAintArray[..], wBintArray[..], p, m, j, w, pr.st, d, cA, cB)
      modifies ciatarray, this`sums
      ensures Ready(m)
      ensures var t := Walk(old(ciatarray[..]), old(sums), wAintArray[..], wBintArray[..], p, m, j, w, sp, add1, d, cA, cB);
        ciatarray[..] == t.ciat && sums == t.sums
    {
      var st := ByteDec(sp);
      if ciatarray[Slot(j, st)] <= w.hi {
        st := SkipLoop(j, st, add1, w.lo);
        st := GatherLoop(p, m, j, w, st, d, cA, cB);
      }
    }

    /** A bin of time d and weights cA, cB closes on cascade j: the time
        goes into the current slot, the pointer moves on, the weights go
        into the new slot, the totals and tail corrections take the bin in,
        and the correlation search runs over the window w. */
    method PushBin(p: Params, m: Mode, j: int, d: int, cA: int, cB: int, add1: int, tb1: bool,
                   w: Window, nt: int, cc: array<int>)
      requires Ready(m) && p == params && 0 <= j < p.nc && (tb1 ==> j == 0)
      requires w == WindowOf(p, j, tb1, m) && nt == NtLag(p, j) && cc[..] == LagTable.LagTable(p)
      requires cc != ciatarray && cc != wAintArray && cc != wBintArray
      requires PushEnds(Snapshot(), p, m, j, d, cA, cB, add1, tb1)
      modifies ciatarray, wAintArray, wBintArray, this`bins, this`totals, this`sums
      ensures Ready(m)
      ensures Snapshot() == Push(old(Snapshot()), p, m, j, d, cA, cB, add1, tb1)
    {
      ghost var e := Snapshot();
      ReadyShaped(m);
      PushSlots(p, m, j, d, cA, cB);
      TailLoop(p, m, j, totals.tlast[j], cA, cB, w.off, nt, cc);
      assert sums == PushTails(e, p, m, j, d, cA, cB);
      Search(p, m, j, w, bins.sp[j], add1, d, cA, cB);
    }

    /** Cascade j's lag window as the search reads it from the lag table
        cc: its block starts at off, its lags run from cc[off] to
        cc[off + nt - 1]. */
    method WindowAt(p: Params, m: Mode, j: int, tb1: bool, nt: int, cc: array<int>) returns (w: Window)
      requires ValidParams(p) && 0 <= j < p.nc && (tb1 ==> j == 0) && nt == NtLag(p, j) && cc[..] == LagTable.LagTable(p)
      ensures w == WindowOf(p, j, tb1, m)
    {
      Tiling(p, j);
      TimesIsProduct(j + 1, p.np);
      var off := if j == 0 then 0 else (j + 1) * p.np;
      w := Window(off, cc[off], cc[off + nt - 1], if tb1 && m != Cross then 1 else cc[off]);
    }

    /** The open bin of coarse cascade j closes once its ticks mt reach
        the time base tb: it is pushed with its coarse time iatnew[j], and
        the whole time bases in mt become the next bin's coarse time. */
    method CloseCascade(p: Params, m: Mode, j: int, ev: Event, tb: int, mt: int, nt: int, cc: array<int>)
      requires Ready(m) && p == params && 0 <= j < p.nc && tb == Timebase(p, j) && tb > 1
      requires mt == bins.mta[j] + ev.iat && mt >= tb
      requires nt == NtLag(p, j) && cc[..] == LagTable.LagTable(p)
      requires cc != ciatarray && cc != wAintArray && cc != wBintArray
      requires PushEnds(Snapshot(), p, m, j, bins.iatnew[j], bins.waTemp[j], if m == Cross then bins.wbTemp[j] else 0,
                        bins.iatnew[j], false)
      modifies ciatarray, wAintArray, wBintArray, this`bins, this`totals, this`sums
      ensures Ready(m)
      ensures Snapshot() == CascadeStep(old(Snapshot()), p, m, j, ev)
    {
      var w := WindowAt(p, m, j, false, nt, cc);
      PushBin(p, m, j, bins.iatnew[j], bins.waTemp[j], if m == Cross then bins.wbTemp[j] else 0,
              bins.iatnew[j], false, w, nt, cc);
      ghost var e1 := Snapshot();
      var q := mt / tb;
      bins := CloseBin(bins, p, m, j, mt - q * tb, q, ev.wA, ev.wB);
      assert Snapshot() == Close(e1, p, m, j, mt, ev);
    }

    /** One event in cascade j, as the loop over the cascades takes it: on
        a coarse cascade the event's ticks go into mta, and once they reach
        the time base tb the open bin is pushed and the next one started;
        on the time-base-1 cascade every event is pushed as a bin. */
    method StepCascade(p: Params, m: Mode, j: int, ev: Event, tb: int, nt: int, cc: array<int>, ghost z: nat)
      requires Ready(m) && p == params && 0 <= j < p.nc && Invariant(Snapshot(), p, m)
      requires Room(Snapshot(), p, m, z) && z < Spread(2 * p.np) && ev.iat >= 0 && (j == 0 ==> EventOk(p, ev, z))
      requires tb == Timebase(p, j) && nt == NtLag(p, j) && cc[..] == LagTable.LagTable(p)
      requires cc != ciatarray && cc != wAintArray && cc != wBintArray
      modifies ciatarray, wAintArray, wBintArray, this`bins, this`totals, this`sums
      ensures Ready(m)
      ensures Snapshot() == CascadeStep(old(Snapshot()), p, m, j, ev)
    {
      ReadyShaped(m);
      StepEnds(Snapshot(), p, m, j, ev, z);
      TimebaseUp(p, j, j);
      if tb != 1 {
        var mt := bins.mta[j] + ev.iat;
        if mt >= tb {
          CloseCascade(p, m, j, ev, tb, mt, nt, cc);
        } else {
          bins := FillBin(bins, p, m, j, mt, ev.wA, ev.wB);
        }
      } else {
        TimebaseOne(p, j);
        var w := WindowAt(p, m, j, true, nt, cc);
        PushBin(p, m, j, ev.iat, ev.wA, if m == Cross then ev.wB else 0, bins.iatnew[j], true, w, nt, cc);
      }
    }

    /** One event through every cascade, from cascade 0 up; the run of
        zeros behind the time-base-1 cascade's pointer goes on from z. */
    method Pass(p: Params, m: Mode, ev: Event, timebase: array<int>, ntlag: array<int>, cc: array<int>, ghost z: nat)
      requires Ready(m) && p == params && Invariant(Snapshot(), p, m) && Lags(timebase, ntlag, cc)
      requires Room(Snapshot(), p, m, z) && z < Spread(2 * p.np) && EventOk(p, ev, z)
      modifies ciatarray, wAintArray, wBintArray, this`bins, this`totals, this`sums
      ensures Ready(m) && Invariant(Snapshot(), p, m) && Room(Snapshot(), p, m, After(p, z, ev))
      ensures Snapshot() == Cascades(old(Snapshot()), p, m, ev, 0)
    {
      ghost var target := Cascades(Snapshot(), p, m, ev, 0);
      ghost var z' := After(p, z, ev);
      PassStep(p, m, 0, ev, timebase, ntlag, cc, z);
      var jj := 1;
      while jj < p.nc
        invariant 1 <= jj <= p.nc && Ready(m) && Invariant(Snapshot(), p, m) && Lags(timebase, ntlag, cc)
        invariant Room(Snapshot(), p, m, z') && z' < Spread(2 * p.np)
        invariant Cascades(Snapshot(), p, m, ev, jj) == target
      {
        PassStep(p, m, jj, ev, timebase, ntlag, cc, z');
        jj := jj + 1;
      }
    }

    /** A cascade's step within a pass keeps the phase B invariant, and the
        rest of the pass goes on from the state it leaves. */
    method PassStep(p: Params, m: Mode, j: int, ev: Event, timebase: array<int>, ntlag: array<int>, cc: array<int>,
                    ghost z: nat)
      requires Ready(m) && p == params && 0 <= j < p.nc && Invariant(Snapshot(), p, m) && Lags(timebase, ntlag, cc)
      requires Room(Snapshot(), p, m, z) && z < Spread(2 * p.np) && ev.iat >= 0 && (j == 0 ==> EventOk(p, ev, z))
      modifies ciatarray, wAintArray, wBintArray, this`bins, this`totals, this`sums
      ensures Ready(m) && Invariant(Snapshot(), p, m) && Lags(timebase, ntlag, cc)
      ensures Room(Snapshot(), p, m, if j == 0 then After(p, z, ev) else z)
      ensures Cascades(Snapshot(), p, m, ev, j + 1) == Cascades(old(Snapshot()), p, m, ev, j)
    {
      ghost var e := Snapshot();
      ghost var e' := StepOk(e, p, m, j, ev, z);
      StepCascade(p, m, j, ev, timebase[j], ntlag[j], cc, z);
      Transfer(e', Snapshot(), p, m);
    }

    /** Phase B has fed the first k events of the batch evs: the state
        is ready and keeps the invariant, the events after k are admitted
        after a run of z zeros, and running them reaches target. */
    ghost predicate Going(p: Params, m: Mode, k: int, z: nat, evs: seq<Event>, target: State,
                          timebase: array<int>, ntlag: array<int>, cc: array<int>)
      reads this`params, this`photonsIat, this`wAint, this`wBint, this`nEvents, this`mode
      reads this`ciatarray, this`wAintArray, this`wBintArray, this`bins, this`totals, this`sums
      reads photonsIat, wAint, wBint, ciatarray, wAintArray, wBintArray, timebase, ntlag, cc
    {
      Ready(m) && p == params && Lags(timebase, ntlag, cc) &&
      Buffers() && (m == Cross ==> wBint.Length == 32768) && Batch(m) == evs && 0 <= k <= nEvents &&
      Invariant(Snapshot(), p, m) && Ahead(Snapshot(), p, m, z, evs[k..]) &&
      Engine.Run(Snapshot(), p, m, evs[k..]) == target
    }

    /** Phase B: every event of the batch, in order, through every
        cascade. */
    method Correlate(p: Params, m: Mode, timebase: array<int>, ntlag: array<int>, cc: array<int>)
      requires Ready(m) && p == params && Invariant(Snapshot(), p, m) && Lags(timebase, ntlag, cc)
      requires Buffers() && (m == Cross ==> wBint.Length == 32768) && EventsOk(p, Batch(m))
      modifies ciatarray, wAintArray, wBintArray, this`bins, this`totals, this`sums
      ensures Ready(m) && Invariant(Snapshot(), p, m) && Batch(m) == old(Batch(m))
      ensures Snapshot() == Engine.Run(old(Snapshot()), p, m, Batch(m))
    {
      ghost var evs := Batch(m);
      ghost var target := Engine.Run(Snapshot(), p, m, evs);
      ghost var z: nat := Start(p, m, timebase, ntlag, cc);
      var ev := 0;
      while ev < nEvents
        invariant Going(p, m, ev, z, evs, target, timebase, ntlag, cc)
      {
        z := Feed(p, m, ev, timebase, ntlag, cc, evs, target, z);
        ev := ev + 1;
      }
      Finish(p, m, z, evs, target, timebase, ntlag, cc);
    }

    /** Before the first event: phase B goes on with the whole batch,
        admitted after Spread(2np) - 1 zeros. */
    lemma Start(p: Params, m: Mode, timebase: array<int>, ntlag: array<int>, cc: array<int>) returns (z: nat)
      requires Ready(m) && p == params && Invariant(Snapshot(), p, m) && Lags(timebase, ntlag, cc)
      requires Buffers() && (m == Cross ==> wBint.Length == 32768) && EventsOk(p, Batch(m))
      ensures Going(p, m, 0, z, Batch(m), Engine.Run(Snapshot(), p, m, Batch(m)), timebase, ntlag, cc)
    {
      var evs := Batch(m);
      Begin(Snapshot(), p, m, evs);
      assert evs[0..] == evs;
      z := Spread(2 * p.np) - 1;
    }

    /** After the last event the state is the batch's run. */
    lemma Finish(p: Params, m: Mode, z: nat, evs: seq<Event>, target: State,
                 timebase: array<int>, ntlag: array<int>, cc: array<int>)
      requires Going(p, m, nEvents, z, evs, target, timebase, ntlag, cc)
      ensures Ready(m) && Invariant(Snapshot(), p, m) && Batch(m) == evs && Snapshot() == target
    {
      assert evs[nEvents..] == [];
    }

    /** Event k of the batch through every cascade: phase B goes on from
        the state it leaves with the events after it. */
    method Feed(p: Params, m: Mode, k: int, timebase: array<int>, ntlag: array<int>, cc: array<int>,
                ghost evs: seq<Event>, ghost target: State, ghost z: nat) returns (ghost z': nat)
      requires Going(p, m, k, z, evs, target, timebase, ntlag, cc) && k < nEvents
      modifies ciatarray, wAintArray, wBintArray, this`bins, this`totals, this`sums
      ensures Going(p, m, k + 1, z', evs, target, timebase, ntlag, cc) && z' == After(p, z, evs[k])
    {
      var event := Event(photonsIat[k], wAint[k], if m == Cross then wBint[k] else 0);
      assert event == evs[k];
      assert evs[k..][1..] == evs[k + 1..];
      RunUnfold(Snapshot(), p, m, evs[k..]);
      Pass(p, m, event, timebase, ntlag, cc, z);
      z' := After(p, z, event);
    }

    /** Phase C for lag ii of cascade j: the totals without the newest bin,
        then back over the ring while a bin's time + 1 is within the lag,
        taking that bin's weight off (and, for the higher-order
        correlator, its square and cube); n is the cascade's total time
        less the lag. */
    method NormAt(p: Params, m: Mode, j: int, ii: int, lag: int) returns (r: Norm)
      requires Ready(m) && p == params && Invariant(Snapshot(), p, m) && 0 <= j < p.nc && 0 <= ii < NtLag(p, j)
      requires lag == LagAt(p, j, ii)
      ensures r == Prepass(Snapshot(), p, m, j, ii)
    {
      ghost var e := Snapshot();
      PrepassEnds(e, p, m, j, ii);
      var s := bins.sp[j];
      var x := wAintArray[Slot(j, s)];
      var s10a := totals.waTotal[j] - x;
      var s10b := if m == Cross then totals.wbTotal[j] - wBintArray[Slot(j, s)] else 0;
      var s20 := if m == HighOrder then totals.waTotal2[j] - Moment(x, 2) else 0;
      var s30 := if m == HighOrder then totals.waTotal3[j] - Moment(x, 3) else 0;
      var st := ByteDec(s);
      ghost var fuel: nat := 256;
      while ciatarray[Slot(j, st)] + 1 <= lag
        invariant IsByte(st) && BehindEnds(e.ring.ciat, j, st, lag, fuel)
        invariant s10a - Behind(e.ring.ciat, e.ring.wa, j, st, lag, 1, fuel) == Without(totals.waTotal[j], e.ring.ciat, e.ring.wa, j, s, lag, 1)
        invariant m != Cross ==> s10b == 0
        invariant m != HighOrder ==> s20 == 0 && s30 == 0
        invariant m == Cross ==>
          s10b - Behind(e.ring.ciat, e.ring.wb, j, st, lag, 1, fuel) == Without(totals.wbTotal[j], e.ring.ciat, e.ring.wb, j, s, lag, 1)
        invariant m == HighOrder ==>
          s20 - Behind(e.ring.ciat, e.ring.wa, j, st, lag, 2, fuel) == Without(totals.waTotal2[j], e.ring.ciat, e.ring.wa, j, s, lag, 2) &&
          s30 - Behind(e.ring.ciat, e.ring.wa, j, st, lag, 3, fuel) == Without(totals.waTotal3[j], e.ring.ciat, e.ring.wa, j, s, lag, 3)
        decreases fuel
      {
        BehindStep(e.ring.ciat, e.ring.wa, j, st, lag, 1, fuel);
        var y := wAintArray[Slot(j, st)];
        s10a := s10a - y;
        if m == Cross {
          BehindStep(e.ring.ciat, e.ring.wb, j, st, lag, 1, fuel);
          s10b := s10b - wBintArray[Slot(j, st)];
        }
        if m == HighOrder {
          BehindStep(e.ring.ciat, e.ring.wa, j, st, lag, 2, fuel);
          BehindStep(e.ring.ciat, e.ring.wa, j, st, lag, 3, fuel);
          s20 := s20 - Moment(y, 2);
          s30 := s30 - Moment(y, 3);
        }
        st := ByteDec(st);
        fuel := fuel - 1;
      }
      r := Norm(s10a, s10b, s20, s30, totals.tlast[j] - lag);
    }

    /** Phase C: the integer part for every lag of every cascade, in the
        layout of the g arrays. */
    method Normalize(p: Params, m: Mode, timebase: array<int>, ntlag: array<int>, cc: array<int>) returns (g: seq<Norm>)
      requires Ready(m) && p == params && Invariant(Snapshot(), p, m) && Lags(timebase, ntlag, cc)
      ensures g == Norms(Snapshot(), p, m, p.nc)
    {
      ghost var e := Snapshot();
      g := [];
      var jj := 0;
      while jj < p.nc
        invariant 0 <= jj <= p.nc && g == Norms(e, p, m, jj)
      {
        Tiling(p, jj);
        TimesIsProduct(jj + 1, p.np);
        var off := if jj == 0 then 0 else (jj + 1) * p.np;
        var block := NormBlock(p, m, jj, ntlag[jj], off, cc);
        g := g + block;
        jj := jj + 1;
      }
    }

    /** Phase C for the lags of cascade j, from the first one on. */
    method NormBlock(p: Params, m: Mode, j: int, nt: int, off: int, cc: array<int>) returns (b: seq<Norm>)
      requires Ready(m) && p == params && Invariant(Snapshot(), p, m) && 0 <= j < p.nc
      requires nt == NtLag(p, j) && off == Offset(p, j) && cc[..] == LagTable.LagTable(p)
      ensures b == Block(Snapshot(), p, m, j)
    {
      ghost var block := Block(Snapshot(), p, m, j);
      Tiling(p, j);
      b := [];
      var ii := 0;
      while ii < nt
        invariant 0 <= ii <= nt && b == block[..ii]
      {
        var r := NormAt(p, m, j, ii, cc[off + ii]);
        assert block[..ii + 1] == block[..ii] + [r];
        b := b + [r];
        ii := ii + 1;
      }
      assert block[..ii] == block;
    }

    /** A valid object is ready for its correlator. */
    lemma ValidReady()
      requires Valid()
      ensures Ready(mode)
    {
    }

    /** An object ready for correlator m, with its batch arrays and the
        phase B invariant, is valid. */
    lemma ReadyValid(m: Mode)
      requires Ready(m) && Invariant(Snapshot(), params, m) && Buffers() && (m == Cross ==> wBint.Length == 32768)
      ensures Valid()
    {
    }

    /** A correlator call: phase A computes the lag table, phase B runs
        the batch through the cascades, and phase C computes, for every
        lag, the integer sums the g arrays are made of. */
    method UpdateCorr(m: Mode)
      requires Valid() && mode == m && EventsOk(params, Batch(m))
      modifies ciatarray, wAintArray, wBintArray, this`bins, this`totals, this`sums, this`norms
      ensures Valid() && Batch(m) == old(Batch(m))
      ensures Snapshot() == Engine.Run(old(Snapshot()), params, m, Batch(m))
      ensures norms == Norms(Snapshot(), params, m, params.nc)
    {
      ValidReady();
      var timebase, ntlag, cc := ComputeLags(params);
      assert Lags(timebase, ntlag, cc);
      Phases(m, timebase, ntlag, cc);
    }

    /** Phases B and C of a correlator call, on the lag table of phase A. */
    method Phases(m: Mode, timebase: array<int>, ntlag: array<int>, cc: array<int>)
      requires Valid() && mode == m && EventsOk(params, Batch(m)) && Lags(timebase, ntlag, cc)
      modifies ciatarray, wAintArray, wBintArray, this`bins, this`totals, this`sums, this`norms
      ensures Valid() && Batch(m) == old(Batch(m))
      ensures Snapshot() == Engine.Run(old(Snapshot()), params, m, Batch(m))
      ensures norms == Norms(Snapshot(), params, m, params.nc)
    {
      ValidReady();
      Correlate(params, m, timebase, ntlag, cc);
      ReadyValid(m);
      Conclude(m, timebase, ntlag, cc);
    }

    /** Phase C of a correlator call, kept in norms. */
    method Conclude(m: Mode, timebase: array<int>, ntlag: array<int>, cc: array<int>)
      requires Valid() && mode == m && Lags(timebase, ntlag, cc)
      modifies this`norms
      ensures Valid() && Snapshot() == old(Snapshot()) && Batch(m) == old(Batch(m))
      ensures norms == Norms(Snapshot(), params, m, params.nc)
    {
      ValidReady();
      var g := Normalize(params, m, timebase, ntlag, cc);
      norms := g;
    }

    /** updateCorrAutoInt: the auto-correlator over the batch. */
    method UpdateCorrAutoInt()
      requires Valid() && mode == Auto && EventsOk(params, Batch(Auto))
      modifies ciatarray, wAintArray, wBintArray, this`bins, this`totals, this`sums, this`norms
      ensures Valid() && Batch(Auto) == old(Batch(Auto))
      ensures Snapshot() == Engine.Run(old(Snapshot()), params, Auto, Batch(Auto))
      ensures norms == Norms(Snapshot(), params, Auto, params.nc)
    {
      UpdateCorr(Auto);
    }

    /** updateCorrCrossInt: the auto- and cross-correlators of channels A
        and B over the batch. */
    method UpdateCorrCrossInt()
      requires Valid() && mode == Cross && EventsOk(params, Batch(Cross))
      modifies ciatarray, wAintArray, wBintArray, this`bins, this`totals, this`sums, this`norms
      ensures Valid() && Batch(Cross) == old(Batch(Cross))
      ensures Snapshot() == Engine.Run(old(Snapshot()), params, Cross, Batch(Cross))
      ensures norms == Norms(Snapshot(), params, Cross, params.nc)
    {
      UpdateCorr(Cross);
    }

    /** updateCorrAutoHOmltInt: the higher-order auto-correlator over the
        batch. */
    method UpdateCorrAutoHOmltInt()
      requires Valid() && mode == HighOrder && EventsOk(params, Batch(HighOrder))
      modifies ciatarray, wAintArray, wBintArray, this`bins, this`totals, this`sums, this`norms
      ensures Valid() && Batch(HighOrder) == old(Batch(HighOrder))
      ensures Snapshot() == Engine.Run(old(Snapshot()), params, HighOrder, Batch(HighOrder))
      ensures norms == Norms(Snapshot(), params, HighOrder, params.nc)
    {
      UpdateCorr(HighOrder);
    }

    /** The first nEvents entries of the batch arrays hold evs: photonsIat
        the intervals, wAint the weights on A and, when withB, wBint the
        weights on B. */
    ghost predicate Holds(evs: seq<Event>, withB: bool)
      reads this`photonsIat, this`wAint, this`wBint, this`nEvents, photonsIat, wAint, wBint
    {
      Buffers() && (withB ==> wBint.Length == Capacity) && |evs| == nEvents &&
      forall i :: 0 <= i < nEvents ==>
        photonsIat[i] == evs[i].iat && wAint[i] == evs[i].wA && (withB ==> wBint[i] == evs[i].wB)
    }

    /** Holding evs is having the batch arrays start with their intervals
        and weights. */
    lemma HoldsBatch(evs: seq<Event>, withB: bool)
      requires Holds(evs, withB)
      ensures photonsIat[..nEvents] == Iats(evs) && wAint[..nEvents] == WeightsA(evs)
      ensures withB ==> wBint[..nEvents] == WeightsB(evs) && Batch(Cross) == evs
    {
      if withB {
        var b := Batch(Cross);
        assert forall i :: 0 <= i < nEvents ==> b[i] == evs[i] by {
          forall i | 0 <= i < nEvents
            ensures b[i] == evs[i]
          {
            assert Iats(b)[i] == photonsIat[i] && WeightsA(b)[i] == wAint[i] && WeightsB(b)[i] == wBint[i];
          }
        }
      }
    }

    /** The one-channel loop of updateDataFlexOneCh and of the drain phase
        of updateDataFlexTwoCh, from a live cursor: it appends the events of
        the one-channel rule to the batch (writing wBint only when withB). */
    method OneChannel(data: seq<Byte>, c0: Cursor, iat0: int, wA: int, wB: int, withB: bool, ghost done: seq<Event>)
      returns (c: Cursor, iat: int)
      requires Holds(done, withB) && Live(c0, |data|)
      modifies this`nEvents, photonsIat, wAint, wBint
      ensures var r := Flex.FlexOne(data, c0, iat0, Capacity - old(nEvents), wA, wB);
        Holds(done + r.events, withB) && c == r.cursor && iat == r.iat
      ensures !withB ==> wBint[..] == old(wBint[..])
    {
      c, iat := c0, iat0;
      ghost var r := Flex.FlexOne(data, c0, iat0, Capacity - nEvents, wA, wB);
      ghost var got := done;
      while nEvents < Capacity && !c.ended
        invariant Live(c, |data|) && Holds(got, withB)
        invariant !withB ==> wBint[..] == old(wBint[..])
        invariant var rest := Flex.FlexOne(data, c, iat, Capacity - nEvents, wA, wB);
          got + rest.events == done + r.events && rest.cursor == r.cursor && rest.iat == r.iat
        decreases |data| - c.pos
      {
        var b := data[c.pos];
        ghost var rest := Flex.FlexOne(data, Advance(c, 1, |data|), 0, Capacity - nEvents - 1, wA, wB);
        if b == 255 {
          iat := iat + 255;
        } else {
          iat := iat + b + 1;
          photonsIat[nEvents] := iat;
          wAint[nEvents] := wA;
          if withB {
            wBint[nEvents] := wB;
          }
          assert got + [Event(iat, wA, wB)] + rest.events == got + ([Event(iat, wA, wB)] + rest.events);
          got := got + [Event(iat, wA, wB)];
          nEvents := nEvents + 1;
          iat := 0;
        }
        c := Advance(c, 1, |data|);
      }
    }

    /** updateDataFlexOneCh: after the entry refill, the one-channel rule
        with weight 1 on A until the batch is full or the file ends; it
        returns bufferInSizeA. */
    method UpdateDataFlexOneCh(data: seq<Byte>) returns (size: int)
      requires Buffers() && curA.pos <= |data|
      modifies this`nEvents, this`curA, this`iatA, photonsIat, wAint, wBint
      ensures var r := Flex.FlexOne(data, Resume(old(curA), |data|), old(iatA), Capacity, 1, 0);
        Holds(r.events, false) && photonsIat[..nEvents] == Iats(r.events) && wAint[..nEvents] == WeightsA(r.events) &&
        curA == r.cursor && iatA == r.iat && size == BufferSize(curA, |data|)
      ensures wBint[..] == old(wBint[..])
    {
      nEvents := 0;
      curA := Resume(curA, |data|);
      ghost var r := Flex.FlexOne(data, curA, iatA, Capacity, 1, 0);
      curA, iatA := OneChannel(data, curA, iatA, 1, 0, false, []);
      HoldsBatch(r.events, false);
      size := BufferSize(curA, |data|);
    }

    /** The start of a pass of the merge loop of updateDataFlexTwoCh: each
        channel without a pending interval gathers its next one. */
    method Gathering(dataA: seq<Byte>, dataB: seq<Byte>)
      requires Live(curA, |dataA|) && Live(curB, |dataB|)
      modifies this`curA, this`iatA, this`curB, this`iatB
      ensures Flex.TwoCh([], curA, iatA, curB, iatB) == Flex.Prepare(dataA, dataB, old(curA), old(iatA), old(curB), old(iatB))
    {
      if iatA == 0 {
        curA, iatA := Flex.Collect(dataA, curA, 0);
      }
      if iatB == 0 {
        curB, iatB := Flex.Collect(dataB, curB, 0);
      }
    }

    /** The end of a pass when both channels are still live: the shorter
        pending interval (both, if equal) becomes an event, and the channels
        it belongs to move on. */
    method MergeOne(dataA: seq<Byte>, dataB: seq<Byte>, ghost done: seq<Event>)
      requires Holds(done, true) && nEvents < Capacity
      requires Live(curA, |dataA|) && Live(curB, |dataB|) && !curA.ended && !curB.ended && iatA != 0 && iatB != 0
      modifies this`nEvents, this`curA, this`iatA, this`curB, this`iatB, photonsIat, wAint, wBint
      ensures Live(curA, |dataA|) && Live(curB, |dataB|)
      ensures var m := Flex.Merge(old(iatA), old(iatB));
        Holds(done + [m.0], true) && iatA == m.1 && iatB == m.2 &&
        curA == (if m.0.wA == 1 then Advance(old(curA), 1, |dataA|) else old(curA)) &&
        curB == (if m.0.wB == 1 then Advance(old(curB), 1, |dataB|) else old(curB))
    {
      var e: Event;
      if iatA > iatB {
        e := Event(iatB, 0, 1);
        iatA, iatB := iatA - iatB, 0;
        curB := Advance(curB, 1, |dataB|);
      } else if iatA < iatB {
        e := Event(iatA, 1, 0);
        iatA, iatB := 0, iatB - iatA;
        curA := Advance(curA, 1, |dataA|);
      } else {
        e := Event(iatA, 1, 1);
        iatA, iatB := 0, 0;
        curA := Advance(curA, 1, |dataA|);
        curB := Advance(curB, 1, |dataB|);
      }
      photonsIat[nEvents] := e.iat;
      wBint[nEvents] := e.wB;
      wAint[nEvents] := e.wA;
      nEvents := nEvents + 1;
    }

    /** One pass of the merge loop: it gathers, and merges when both
        channels are still live. */
    method MergeStep(dataA: seq<Byte>, dataB: seq<Byte>, ghost done: seq<Event>) returns (ghost got: seq<Event>)
      requires Holds(done, true) && nEvents < Capacity
      requires Live(curA, |dataA|) && Live(curB, |dataB|) && !curA.ended && !curB.ended
      modifies this`nEvents, this`curA, this`iatA, this`curB, this`iatB, photonsIat, wAint, wBint
      ensures Live(curA, |dataA|) && Live(curB, |dataB|) && Holds(got, true)
      ensures var f := Flex.FlexTwo(dataA, dataB, old(curA), old(iatA), old(curB), old(iatB), Capacity - old(nEvents));
        var g := Flex.FlexTwo(dataA, dataB, curA, iatA, curB, iatB, Capacity - nEvents);
        got + g.events == done + f.events && g.a == f.a && g.iatA == f.iatA && g.b == f.b && g.iatB == f.iatB
      ensures |dataA| - curA.pos + |dataB| - curB.pos < |dataA| - old(curA.pos) + |dataB| - old(curB.pos)
    {
      ghost var room := Capacity - nEvents;
      ghost var f := Flex.FlexTwo(dataA, dataB, curA, iatA, curB, iatB, room);
      Flex.FlexTwoPrepared(dataA, dataB, curA, iatA, curB, iatB, room);
      Gathering(dataA, dataB);
      assert f == Flex.FlexTwo(dataA, dataB, curA, iatA, curB, iatB, room);
      got := done;
      if !curA.ended && !curB.ended {
        Flex.FlexTwoMerged(dataA, dataB, curA, iatA, curB, iatB, room);
        ghost var m := Flex.Merge(iatA, iatB);
        MergeOne(dataA, dataB, done);
        got := done + [m.0];
        ghost var rest := Flex.FlexTwo(dataA, dataB, curA, iatA, curB, iatB, room - 1);
        assert f == Flex.TwoCh([m.0] + rest.events, rest.a, rest.iatA, rest.b, rest.iatB);
        assert got + rest.events == done + f.events;
      }
    }

    /** updateDataFlexTwoCh: after the entry refills of both files, the
        merge loop while there is room and both channels are live, then the
        drain of the channel that is left; it returns bufferInSizeA. */
    method UpdateDataFlexTwoCh(dataA: seq<Byte>, dataB: seq<Byte>) returns (size: int)
      requires Buffers() && wBint.Length == Capacity && curA.pos <= |dataA| && curB.pos <= |dataB|
      modifies this`nEvents, this`curA, this`iatA, this`curB, this`iatB, photonsIat, wAint, wBint
      ensures var r := Flex.FlexTwo(dataA, dataB, Resume(old(curA), |dataA|), old(iatA), Resume(old(curB), |dataB|), old(iatB), Capacity);
        Holds(r.events, true) && Batch(Cross) == r.events &&
        curA == r.a && iatA == r.iatA && curB == r.b && iatB == r.iatB && size == BufferSize(curA, |dataA|)
    {
      nEvents := 0;
      curA := Resume(curA, |dataA|);
      curB := Resume(curB, |dataB|);
      ghost var r := Flex.FlexTwo(dataA, dataB, curA, iatA, curB, iatB, Capacity);
      ghost var got: seq<Event> := [];
      while nEvents < Capacity && !curA.ended && !curB.ended
        invariant Live(curA, |dataA|) && Live(curB, |dataB|) && Holds(got, true)
        invariant var rest := Flex.FlexTwo(dataA, dataB, curA, iatA, curB, iatB, Capacity - nEvents);
          got + rest.events == r.events && rest.a == r.a && rest.iatA == r.iatA && rest.b == r.b && rest.iatB == r.iatB
        decreases |dataA| - curA.pos + |dataB| - curB.pos
      {
        got := MergeStep(dataA, dataB, got);
      }
      if curA.ended && !curB.ended {
        curB, iatB := OneChannel(dataB, curB, iatB, 0, 1, true, got);
      } else if !curA.ended && curB.ended {
        curA, iatA := OneChannel(dataA, curA, iatA, 1, 0, true, got);
      }
      HoldsBatch(r.events, true);
      size := BufferSize(curA, |dataA|);
    }

    /** updateOnlineCustomHardwareOneCh: the next at most 32768 values of
        the block inputData[ccA..nDataPoints) become events of weight 1,
        each a signed byte read as the interval. When the block is used up,
        ccA goes back to 0 and the call returns nDataPoints; otherwise it
        returns the new ccA. The source does not check nDataPoints against
        the length of inputData: when the copy reaches the end of inputData
        first, the array access throws (thrown), leaving the events copied
        so far and ccA advanced past them; r then carries no value. */
    method UpdateOnlineCustomHardwareOneCh(inputData: seq<Byte>, nDataPoints: int) returns (r: int, thrown: bool)
      requires Buffers() && 0 <= ccA
      modifies this`nEvents, this`ccA, photonsIat, wAint
      ensures Buffers() && 0 <= ccA
      ensures var wanted := if old(ccA) < nDataPoints then
          (if nDataPoints - old(ccA) < Capacity then nDataPoints - old(ccA) else Capacity) else 0;
        (thrown <==> wanted > 0 && old(ccA) + wanted > |inputData|) &&
        nEvents == (if !thrown then wanted else if old(ccA) < |inputData| then |inputData| - old(ccA) else 0)
      ensures forall i :: 0 <= i < nEvents ==> photonsIat[i] == Signed(inputData[old(ccA) + i]) && wAint[i] == 1
      ensures thrown ==> ccA == old(ccA) + nEvents
      ensures !thrown && old(ccA) + nEvents == nDataPoints ==> ccA == 0 && r == nDataPoints
      ensures !thrown && old(ccA) + nEvents != nDataPoints ==> ccA == r == old(ccA) + nEvents
    {
      nEvents := 0;
      while nEvents < Capacity && ccA < nDataPoints
        invariant 0 <= nEvents <= Capacity && ccA == old(ccA) + nEvents
        invariant nEvents > 0 ==> ccA <= |inputData| && ccA <= nDataPoints
        invariant old(ccA) < nDataPoints ==> ccA <= nDataPoints
        invariant forall i :: 0 <= i < nEvents ==> photonsIat[i] == Signed(inputData[old(ccA) + i]) && wAint[i] == 1
      {
        if ccA >= |inputData| {
          return 0, true;
        }
        photonsIat[nEvents] := Signed(inputData[ccA]);
        wAint[nEvents] := 1;
        nEvents := nEvents + 1;
        ccA := ccA + 1;
      }
      if ccA == nDataPoints {
        ccA := 0;
        return nDataPoints, false;
      } else {
        return ccA, false;
      }
    }

    /** Appends one event to the batch: photonsIat[nEvents], wAint[nEvents]
        and, when withB, wBint[nEvents]; then nEvents++. */
    method Put(e: Event, withB: bool, ghost done: seq<Event>)
      requires Holds(done, withB) && nEvents < Capacity
      modifies this`nEvents, photonsIat, wAint, wBint
      ensures Holds(done + [e], withB)
      ensures !withB ==> wBint[..] == old(wBint[..])
    {
      photonsIat[nEvents] := e.iat;
      wAint[nEvents] := e.wA;
      if withB {
        wBint[nEvents] := e.wB;
      }
      nEvents := nEvents + 1;
    }

    /** Bit k of a Confocor2 record: the tick before it, and, when the bit
        is set and kept, the event that closes the pending interval; `stop`
        when that event finds the batch full (the source's array write
        fails). s stands for the record's sub-ticks from Confocor.Slots. */
    method MaskBit(mask: Byte, sel: Confocor.Channel, k: int, ghost s: seq<Confocor.Slot>, ghost got: seq<Event>)
      returns (stop: bool, ghost got': seq<Event>)
      requires 0 <= k < 8 && |s| == 8 && s[k] == Confocor.SlotAt(mask, sel, k) && Holds(got, sel == Confocor.ChAB)
      modifies this`iatA, this`nEvents, photonsIat, wAint, wBint
      ensures Holds(got', sel == Confocor.ChAB)
      ensures sel != Confocor.ChAB ==> wBint[..] == old(wBint[..])
      ensures var before := Confocor.Emit(s[k..], old(iatA), Capacity - old(nEvents));
        if stop then before == Confocor.Rec([], iatA, false) && got' == got
        else
          var after := Confocor.Emit(s[k + 1..], iatA, Capacity - nEvents);
          got' + after.events == got + before.events && after.iat == before.iat && after.complete == before.complete
    {
      ghost var room := Capacity - nEvents;
      ghost var before := Confocor.Emit(s[k..], iatA, room);
      Confocor.EmitAt(s, k, iatA, room);
      iatA := iatA + Confocor.TickBefore(k);
      got' := got;
      stop := false;
      if Confocor.Bit(mask, k) && Confocor.Keeps(sel, k) {
        if nEvents == Capacity {
          return true, got;
        }
        var (a, b) := Confocor.Tag(sel, k);
        ghost var rest := Confocor.Emit(s[k + 1..], 0, room - 1);
        assert before == Confocor.Rec([Event(iatA, a, b)] + rest.events, rest.iat, rest.complete);
        Put(Event(iatA, a, b), sel == Confocor.ChAB, got);
        assert got + [Event(iatA, a, b)] + rest.events == got + ([Event(iatA, a, b)] + rest.events);
        got' := got + [Event(iatA, a, b)];
        iatA := 0;
      }
    }

    /** One Confocor2 record [v, mask] with v != 0 as the unrolled code of
        updateDataConfocor2chA / chB / chAB reads it: v ticks, then the
        eight mask bits in order with one more tick before bits 2, 4 and 6,
        each kept bit closing the pending interval as an event. It stops
        where an event finds the batch full, since the source's array write
        fails there. */
    method Record2(v: Byte, mask: Byte, sel: Confocor.Channel, ghost done: seq<Event>) returns (complete: bool)
      requires Holds(done, sel == Confocor.ChAB)
      modifies this`iatA, this`nEvents, photonsIat, wAint, wBint
      ensures var r := Confocor.Record(v, mask, sel, old(iatA), Capacity - old(nEvents));
        Holds(done + r.events, sel == Confocor.ChAB) && iatA == r.iat && complete == r.complete
      ensures sel != Confocor.ChAB ==> wBint[..] == old(wBint[..])
    {
      ghost var withB := sel == Confocor.ChAB;
      ghost var s := Confocor.Slots(mask, sel);
      ghost var r := Confocor.Record(v, mask, sel, iatA, Capacity - nEvents);
      ghost var got := done;
      Confocor.SlotsAt(mask, sel);
      iatA := iatA + v;
      var k := 0;
      assert s[k..] == s;
      while k < 8
        invariant 0 <= k <= 8 && Holds(got, withB)
        invariant !withB ==> wBint[..] == old(wBint[..])
        invariant var rest := Confocor.Emit(s[k..], iatA, Capacity - nEvents);
          got + rest.events == done + r.events && rest.iat == r.iat && rest.complete == r.complete
      {
        var stop;
        stop, got := MaskBit(mask, sel, k, s, got);
        if stop {
          return false;
        }
        k := k + 1;
      }
      assert s[8..] == [];
      complete := true;
    }

    /** One pass of the Confocor2 loop: an end marker ends the data; any
        other record is decoded, and consumed unless the batch filled up in
        its middle (then `more` is false and the call ends on it). */
    method Confocor2Step(data: seq<Byte>, sel: Confocor.Channel, ghost got: seq<Event>, ghost r: Confocor.C2Run)
      returns (more: bool, ghost got': seq<Event>)
      requires OnTrack2(data, sel, got, r, curA, iatA, nEvents) && Holds(got, sel == Confocor.ChAB)
      requires nEvents < Capacity && !curA.ended
      modifies this`nEvents, this`curA, this`iatA, photonsIat, wAint, wBint
      ensures sel != Confocor.ChAB ==> wBint[..] == old(wBint[..])
      ensures more ==> OnTrack2(data, sel, got', r, curA, iatA, nEvents) && Holds(got', sel == Confocor.ChAB)
      ensures more ==> curA.pos > old(curA.pos) || (curA.pos == old(curA.pos) && curA.ended)
      ensures !more ==> Holds(r.events, sel == Confocor.ChAB) && curA == r.cursor && iatA == r.iat
    {
      if data[curA.pos] != 0 {
        Confocor2Moves(data, sel, got, r, curA, iatA, nEvents);
        var complete;
        complete, got' := Confocor2Record(data, sel, got);
        more := complete;
      } else {
        Confocor.Confocor2Marker(data, curA, iatA, sel, Capacity - nEvents);
        curA := Cursor(curA.pos, true);
        more, got' := true, got;
      }
    }

    /** The Confocor2 loop on a record: decoded, and consumed unless the
        batch filled up in its middle. */
    method Confocor2Record(data: seq<Byte>, sel: Confocor.Channel, ghost got: seq<Event>)
      returns (complete: bool, ghost got': seq<Event>)
      requires Holds(got, sel == Confocor.ChAB) && Live(curA, |data|) && !curA.ended && curA.pos + 1 < |data|
      modifies this`nEvents, this`curA, this`iatA, photonsIat, wAint, wBint
      ensures var rec := Confocor.Record(data[old(curA).pos], data[old(curA).pos + 1], sel, old(iatA), Capacity - old(nEvents));
        got' == got + rec.events && Holds(got', sel == Confocor.ChAB) && iatA == rec.iat && complete == rec.complete
      ensures curA == if complete then Advance(old(curA), 2, |data|) else old(curA)
      ensures sel != Confocor.ChAB ==> wBint[..] == old(wBint[..])
    {
      ghost var rec := Confocor.Record(data[curA.pos], data[curA.pos + 1], sel, iatA, Capacity - nEvents);
      complete := Record2(data[curA.pos], data[curA.pos + 1], sel, got);
      got' := got + rec.events;
      if complete {
        curA := Advance(curA, 2, |data|);
      }
    }

    /** The loop of updateDataConfocor2chA / chB / chAB after the entry
        refill: while there is room and data, a record whose first byte is
        0 ends the data (bufferInSizeA = -1, the cursor stays on it); any
        other record is decoded and consumed, unless the batch filled up in
        the middle of it, which ends the call on that record. */
    method UpdateDataConfocor2(data: seq<Byte>, sel: Confocor.Channel) returns (size: int)
      requires Buffers() && (sel == Confocor.ChAB ==> wBint.Length == Capacity)
      requires curA.pos <= |data| && |data| % 2 == 0 && curA.pos % 2 == 0
      modifies this`nEvents, this`curA, this`iatA, photonsIat, wAint, wBint
      ensures Resume(old(curA), |data|).pos % 2 == 0
      ensures var r := Confocor.Confocor2(data, Resume(old(curA), |data|), old(iatA), sel, Capacity);
        Holds(r.events, sel == Confocor.ChAB) && photonsIat[..nEvents] == Iats(r.events) &&
        wAint[..nEvents] == WeightsA(r.events) && curA == r.cursor && iatA == r.iat && size == BufferSize(curA, |data|)
      ensures sel == Confocor.ChAB ==> Batch(Cross) == Confocor.Confocor2(data, Resume(old(curA), |data|), old(iatA), sel, Capacity).events
      ensures sel != Confocor.ChAB ==> wBint[..] == old(wBint[..])
    {
      nEvents := 0;
      ResumeAligned(curA, |data|, 2);
      curA := Resume(curA, |data|);
      ghost var r := Confocor.Confocor2(data, curA, iatA, sel, Capacity);
      ghost var got: seq<Event> := [];
      while nEvents < Capacity && !curA.ended
        invariant OnTrack2(data, sel, got, r, curA, iatA, nEvents) && Holds(got, sel == Confocor.ChAB)
        invariant sel != Confocor.ChAB ==> wBint[..] == old(wBint[..])
        decreases |data| - curA.pos, if curA.ended then 0 else 1
      {
        var more;
        more, got := Confocor2Step(data, sel, got, r);
        if !more {
          HoldsBatch(r.events, sel == Confocor.ChAB);
          size := BufferSize(curA, |data|);
          return;
        }
      }
      HoldsBatch(r.events, sel == Confocor.ChAB);
      size := BufferSize(curA, |data|);
    }

    /** updateDataConfocor2chA: the even mask bits, weight 1 on wAint. */
    method UpdateDataConfocor2chA(data: seq<Byte>) returns (size: int)
      requires Buffers() && curA.pos <= |data| && |data| % 2 == 0 && curA.pos % 2 == 0
      modifies this`nEvents, this`curA, this`iatA, photonsIat, wAint, wBint
      ensures Resume(old(curA), |data|).pos % 2 == 0
      ensures var r := Confocor.Confocor2(data, Resume(old(curA), |data|), old(iatA), Confocor.ChA, Capacity);
        Holds(r.events, false) && photonsIat[..nEvents] == Iats(r.events) && wAint[..nEvents] == WeightsA(r.events) &&
        curA == r.cursor && iatA == r.iat && size == BufferSize(curA, |data|)
      ensures wBint[..] == old(wBint[..])
    {
      size := UpdateDataConfocor2(data, Confocor.ChA);
    }

    /** updateDataConfocor2chB: the odd mask bits, weight 1 on wAint. */
    method UpdateDataConfocor2chB(data: seq<Byte>) returns (size: int)
      requires Buffers() && curA.pos <= |data| && |data| % 2 == 0 && curA.pos % 2 == 0
      modifies this`nEvents, this`curA, this`iatA, photonsIat, wAint, wBint
      ensures Resume(old(curA), |data|).pos % 2 == 0
      ensures var r := Confocor.Confocor2(data, Resume(old(curA), |data|), old(iatA), Confocor.ChB, Capacity);
        Holds(r.events, false) && photonsIat[..nEvents] == Iats(r.events) && wAint[..nEvents] == WeightsA(r.events) &&
        curA == r.cursor && iatA == r.iat && size == BufferSize(curA, |data|)
      ensures wBint[..] == old(wBint[..])
    {
      size := UpdateDataConfocor2(data, Confocor.ChB);
    }

    /** updateDataConfocor2chAB: all mask bits, even ones on A and odd ones
        on B. */
    method UpdateDataConfocor2chAB(data: seq<Byte>) returns (size: int)
      requires Buffers() && wBint.Length == Capacity && curA.pos <= |data| && |data| % 2 == 0 && curA.pos % 2 == 0
      modifies this`nEvents, this`curA, this`iatA, photonsIat, wAint, wBint
      ensures Resume(old(curA), |data|).pos % 2 == 0
      ensures var r := Confocor.Confocor2(data, Resume(old(curA), |data|), old(iatA), Confocor.ChAB, Capacity);
        Holds(r.events, true) && Batch(Cross) == r.events &&
        curA == r.cursor && iatA == r.iat && size == BufferSize(curA, |data|)
    {
      size := UpdateDataConfocor2(data, Confocor.ChAB);
    }

    /** One pass of the Confocor3 loop: the record at the cursor becomes
        the next event of the batch. */
    method Confocor3Step(data: seq<Byte>, ghost got: seq<Event>, ghost r: Run) returns (ghost got': seq<Event>)
      requires OnTrack3(data, got, r, curA, iatA, nEvents) && Holds(got, false) && nEvents < Capacity && !curA.ended
      modifies this`nEvents, this`curA, this`iatA, photonsIat, wAint, wBint
      ensures OnTrack3(data, got', r, curA, iatA, nEvents) && Holds(got', false)
      ensures wBint[..] == old(wBint[..]) && curA.pos > old(curA.pos)
    {
      Confocor3Moves(data, got, r, curA, iatA, nEvents);
      var p := curA.pos;
      var e := Event(ToInt32(iatA + LittleEndian(data[p], data[p + 1], data[p + 2], data[p + 3])), 1, 0);
      Put(e, false, got);
      got' := got + [e];
      iatA := 0;
      curA := Advance(curA, 4, |data|);
    }

    /** updateDataConfocor3OneCh: after the entry refill, each 4-byte record
        is one event of weight 1 on A whose interval is the pending interval
        plus the record read little-endian, in int arithmetic; it returns
        bufferInSizeA. */
    method UpdateDataConfocor3OneCh(data: seq<Byte>) returns (size: int)
      requires Buffers() && curA.pos <= |data| && |data| % 4 == 0 && curA.pos % 4 == 0
      modifies this`nEvents, this`curA, this`iatA, photonsIat, wAint, wBint
      ensures Resume(old(curA), |data|).pos % 4 == 0
      ensures var r := Confocor.Confocor3(data, Resume(old(curA), |data|), old(iatA), Capacity);
        Holds(r.events, false) && photonsIat[..nEvents] == Iats(r.events) && wAint[..nEvents] == WeightsA(r.events) &&
        curA == r.cursor && iatA == r.iat && size == BufferSize(curA, |data|)
      ensures wBint[..] == old(wBint[..])
    {
      nEvents := 0;
      ResumeAligned(curA, |data|, 4);
      curA := Resume(curA, |data|);
      ghost var r := Confocor.Confocor3(data, curA, iatA, Capacity);
      ghost var got: seq<Event> := [];
      while nEvents < Capacity && !curA.ended
        invariant OnTrack3(data, got, r, curA, iatA, nEvents) && Holds(got, false)
        invariant wBint[..] == old(wBint[..])
        decreases |data| - curA.pos
      {
        got := Confocor3Step(data, got, r);
      }
      Confocor3Stops(data, got, r, curA, iatA, nEvents);
      HoldsBatch(r.events, false);
      size := BufferSize(curA, |data|);
    }

    /** One pass of the PicoHarp loop: a photon record of the decoder's
        channels becomes the next event, an overflow record lowers the
        reference, and the cursor moves to the next record. */
    method PicoStep(data: seq<Byte>, dec: PicoHarp.Decoder, ghost got: seq<Event>, ghost r: Run) returns (ghost got': seq<Event>)
      requires OnTrackPico(data, dec, got, r, curA, iatA, nEvents) && Holds(got, dec == PicoHarp.T3AB)
      requires nEvents < Capacity && !curA.ended
      modifies this`nEvents, this`curA, this`iatA, photonsIat, wAint, wBint
      ensures OnTrackPico(data, dec, got', r, curA, iatA, nEvents) && Holds(got', dec == PicoHarp.T3AB)
      ensures dec != PicoHarp.T3AB ==> wBint[..] == old(wBint[..])
      ensures curA.pos > old(curA.pos) || curA.ended
    {
      var ch := PicoHarp.Channel(data[curA.pos + 3]);
      if PicoHarp.IsPhoton(dec, ch) {
        got' := PicoPhotonStep(data, dec, got, r);
      } else {
        PicoMovesSkip(data, dec, got, r, curA, iatA, nEvents);
        if ch == 15 {
          iatA := ToInt32(iatA - PicoHarp.Rollover(dec));
        }
        curA := Advance(curA, 4, |data|);
        got' := got;
      }
    }

    /** The PicoHarp loop on a photon record: its time minus the reference
        is the next interval, and its time the new reference. */
    method PicoPhotonStep(data: seq<Byte>, dec: PicoHarp.Decoder, ghost got: seq<Event>, ghost r: Run) returns (ghost got': seq<Event>)
      requires OnTrackPico(data, dec, got, r, curA, iatA, nEvents) && Holds(got, dec == PicoHarp.T3AB)
      requires nEvents < Capacity && !curA.ended && PicoHarp.IsPhoton(dec, PicoHarp.Channel(data[curA.pos + 3]))
      modifies this`nEvents, this`curA, this`iatA, photonsIat, wAint, wBint
      ensures OnTrackPico(data, dec, got', r, curA, iatA, nEvents) && Holds(got', dec == PicoHarp.T3AB)
      ensures dec != PicoHarp.T3AB ==> wBint[..] == old(wBint[..])
      ensures curA.pos > old(curA.pos) || curA.ended
    {
      PicoMovesPhoton(data, dec, got, r, curA, iatA, nEvents);
      var p := curA.pos;
      var t := PicoHarp.Time(dec, data[p], data[p + 1], data[p + 2], data[p + 3]);
      var w := PicoHarp.Weights(dec, PicoHarp.Channel(data[p + 3]));
      var e := Event(ToInt32(t - iatA), w.0, w.1);
      Put(e, dec == PicoHarp.T3AB, got);
      got' := got + [e];
      iatA := t;
      curA := Advance(curA, 4, |data|);
    }

    /** The loop of updateDataPicoHarpPT3chA / chB / chAB and
        updateDataPicoHarpPT2chA after the entry refill; each returns
        bufferInSizeA. */
    method UpdateDataPicoHarp(data: seq<Byte>, dec: PicoHarp.Decoder) returns (size: int)
      requires Buffers() && (dec == PicoHarp.T3AB ==> wBint.Length == Capacity)
      requires curA.pos <= |data| && |data| % 4 == 0 && curA.pos % 4 == 0
      modifies this`nEvents, this`curA, this`iatA, photonsIat, wAint, wBint
      ensures Resume(old(curA), |data|).pos % 4 == 0
      ensures var r := PicoHarp.Pico(data, Resume(old(curA), |data|), old(iatA), Capacity, dec);
        Holds(r.events, dec == PicoHarp.T3AB) && photonsIat[..nEvents] == Iats(r.events) &&
        wAint[..nEvents] == WeightsA(r.events) && curA == r.cursor && iatA == r.iat && size == BufferSize(curA, |data|)
      ensures dec == PicoHarp.T3AB ==> Batch(Cross) == PicoHarp.Pico(data, Resume(old(curA), |data|), old(iatA), Capacity, dec).events
      ensures dec != PicoHarp.T3AB ==> wBint[..] == old(wBint[..])
    {
      nEvents := 0;
      ResumeAligned(curA, |data|, 4);
      curA := Resume(curA, |data|);
      ghost var r := PicoHarp.Pico(data, curA, iatA, Capacity, dec);
      ghost var got: seq<Event> := [];
      while nEvents < Capacity && !curA.ended
        invariant OnTrackPico(data, dec, got, r, curA, iatA, nEvents) && Holds(got, dec == PicoHarp.T3AB)
        invariant dec != PicoHarp.T3AB ==> wBint[..] == old(wBint[..])
        decreases |data| - curA.pos, if curA.ended then 0 else 1
      {
        got := PicoStep(data, dec, got, r);
      }
      PicoEnds(data, dec, got, r, curA, iatA, nEvents);
      HoldsBatch(r.events, dec == PicoHarp.T3AB);
      size := BufferSize(curA, |data|);
    }

    /** updateDataPicoHarpPT3chA: photons of channel 1, weight 1 on wAint. */
    method UpdateDataPicoHarpPT3chA(data: seq<Byte>) returns (size: int)
      requires Buffers() && curA.pos <= |data| && |data| % 4 == 0 && curA.pos % 4 == 0
      modifies this`nEvents, this`curA, this`iatA, photonsIat, wAint, wBint
      ensures Resume(old(curA), |data|).pos % 4 == 0
      ensures var r := PicoHarp.Pico(data, Resume(old(curA), |data|), old(iatA), Capacity, PicoHarp.T3A);
        Holds(r.events, false) && photonsIat[..nEvents] == Iats(r.events) && wAint[..nEvents] == WeightsA(r.events) &&
        curA == r.cursor && iatA == r.iat && size == BufferSize(curA, |data|)
      ensures wBint[..] == old(wBint[..])
    {
      size := UpdateDataPicoHarp(data, PicoHarp.T3A);
    }

    /** updateDataPicoHarpPT3chB: photons of channel 2, weight 1 on wAint. */
    method UpdateDataPicoHarpPT3chB(data: seq<Byte>) returns (size: int)
      requires Buffers() && curA.pos <= |data| && |data| % 4 == 0 && curA.pos % 4 == 0
      modifies this`nEvents, this`curA, this`iatA, photonsIat, wAint, wBint
      ensures Resume(old(curA), |data|).pos % 4 == 0
      ensures var r := PicoHarp.Pico(data, Resume(old(curA), |data|), old(iatA), Capacity, PicoHarp.T3B);
        Holds(r.events, false) && photonsIat[..nEvents] == Iats(r.events) && wAint[..nEvents] == WeightsA(r.events) &&
        curA == r.cursor && iatA == r.iat && size == BufferSize(curA, |data|)
      ensures wBint[..] == old(wBint[..])
    {
      size := UpdateDataPicoHarp(data, PicoHarp.T3B);
    }

    /** updateDataPicoHarpPT3chAB: photons of channel 1 on A and of channel 2
        on B. */
    method UpdateDataPicoHarpPT3chAB(data: seq<Byte>) returns (size: int)
      requires Buffers() && wBint.Length == Capacity && curA.pos <= |data| && |data| % 4 == 0 && curA.pos % 4 == 0
      modifies this`nEvents, this`curA, this`iatA, photonsIat, wAint, wBint
      ensures Resume(old(curA), |data|).pos % 4 == 0
      ensures var r := PicoHarp.Pico(data, Resume(old(curA), |data|), old(iatA), Capacity, PicoHarp.T3AB);
        Holds(r.events, true) && Batch(Cross) == r.events &&
        curA == r.cursor && iatA == r.iat && size == BufferSize(curA, |data|)
    {
      size := UpdateDataPicoHarp(data, PicoHarp.T3AB);
    }

    /** updateDataPicoHarpPT2chA: photons of channel 1 with their 28-bit time tag, weight 1 on wAint. */
    method UpdateDataPicoHarpPT2chA(data: seq<Byte>) returns (size: int)
      requires Buffers() && curA.pos <= |data| && |data| % 4 == 0 && curA.pos % 4 == 0
      modifies this`nEvents, this`curA, this`iatA, photonsIat, wAint, wBint
      ensures Resume(old(curA), |data|).pos % 4 == 0
      ensures var r := PicoHarp.Pico(data, Resume(old(curA), |data|), old(iatA), Capacity, PicoHarp.T2A);
        Holds(r.events, false) && photonsIat[..nEvents] == Iats(r.events) && wAint[..nEvents] == WeightsA(r.events) &&
        curA == r.cursor && iatA == r.iat && size == BufferSize(curA, |data|)
      ensures wBint[..] == old(wBint[..])
    {
      size := UpdateDataPicoHarp(data, PicoHarp.T2A);
    }

    /** The trace points written since position pos0 are the first ones of
        ps; every other slot keeps its value in oldX, oldYA and oldYB. */
    ghost predicate Written(ps: seq<Point>, pos0: int, withB: bool, oldX: seq<real>, oldYA: seq<Rate>, oldYB: seq<Rate>)
      reads this`intensityTraceX, this`intensityTraceYA, this`intensityTraceYB, this`intensityTracePosition
      reads intensityTraceX, intensityTraceYA, intensityTraceYB
    {
      intensityTraceX.Length == TraceLength && intensityTraceYA.Length == TraceLength &&
      (withB ==> intensityTraceYB.Length == TraceLength) &&
      |oldX| == TraceLength && |oldYA| == TraceLength && (withB ==> |oldYB| == TraceLength) &&
      0 <= pos0 <= intensityTracePosition <= TraceLength && intensityTracePosition - pos0 <= |ps| &&
      (forall k :: 0 <= k < TraceLength ==>
        intensityTraceX[k] == if pos0 <= k < intensityTracePosition then ps[k - pos0].x else oldX[k]) &&
      (forall k :: 0 <= k < TraceLength ==>
        intensityTraceYA[k] == if pos0 <= k < intensityTracePosition then ps[k - pos0].ya else oldYA[k]) &&
      (withB ==> forall k :: 0 <= k < TraceLength ==>
        intensityTraceYB[k] == if pos0 <= k < intensityTracePosition then ps[k - pos0].yb else oldYB[k])
    }

    /** Writes the next trace point: its mid time, its rate on A and, for
        two channels, its rate on B. */
    method PlacePoint(mid: real, ya: Rate, yb: Rate, withB: bool, ghost ps: seq<Point>, ghost pos0: int,
                      ghost oldX: seq<real>, ghost oldYA: seq<Rate>, ghost oldYB: seq<Rate>)
      requires Written(ps, pos0, withB, oldX, oldYA, oldYB) && intensityTracePosition < TraceLength
      requires withB ==> intensityTraceYA != intensityTraceYB
      requires intensityTracePosition - pos0 < |ps|
      requires var pt := ps[intensityTracePosition - pos0]; pt.x == mid && pt.ya == ya && (withB ==> pt.yb == yb)
      modifies this`intensityTracePosition, intensityTraceX, intensityTraceYA, intensityTraceYB
      ensures Written(ps, pos0, withB, oldX, oldYA, oldYB) && intensityTracePosition == old(intensityTracePosition) + 1
    {
      intensityTraceX[intensityTracePosition] := mid;
      intensityTraceYA[intensityTracePosition] := ya;
      if withB {
        intensityTraceYB[intensityTracePosition] := yb;
      }
      intensityTracePosition := intensityTracePosition + 1;
    }

    /** One pass of the tracer's loop: event ev joins the open bin, and a
        full bin, or the batch's last one, becomes the next point. */
    method TraceStep(withB: bool, ghost evs: seq<Event>, ev: int, ii: int, x: int, ya: int, yb: int, ghost gyb: int,
                     ghost ps: seq<Point>, ghost pos0: int, ghost t0: int,
                     ghost oldX: seq<real>, ghost oldYA: seq<Rate>, ghost oldYB: seq<Rate>)
      returns (ev': int, ii': int, x': int, ya': int, yb': int, ghost gyb': int)
      requires Holds(evs, withB) && Written(ps, pos0, withB, oldX, oldYA, oldYB)
      requires withB ==> intensityTraceYA != intensityTraceYB
      requires OnTrace(ps, intensityTracePosition - pos0, t0, macroTime, evs, ev, binSize, ii, x, ya, gyb)
      requires (withB ==> yb == gyb) && ev < nEvents && intensityTracePosition < TraceLength
      modifies this`intensityTracePosition, this`macroTime, intensityTraceX, intensityTraceYA, intensityTraceYB
      ensures Written(ps, pos0, withB, oldX, oldYA, oldYB)
      ensures OnTrace(ps, intensityTracePosition - pos0, t0, macroTime, evs, ev', binSize, ii', x', ya', gyb')
      ensures (withB ==> yb' == gyb') && ev' == ev + 1
    {
      TraceMoves(ps, intensityTracePosition - pos0, t0, macroTime, evs, ev, binSize, ii, x, ya, gyb);
      var wB := if withB then wBint[ev] else 0;
      x', ya', yb' := x + photonsIat[ev], ya + wAint[ev], yb + wB;
      gyb' := gyb + evs[ev].wB;
      ev', ii' := ev + 1, ii + 1;
      if ii' == binSize || ev' == nEvents {
        PlacePoint(macroTime as real + x' as real / 2.0, Rate(ya', x'), Rate(yb', x'), withB, ps, pos0, oldX, oldYA, oldYB);
        macroTime := macroTime + x';
        x', ya', yb', ii' := 0, 0, 0, 0;
        gyb' := 0;
      }
    }

    /** updateIntensityTraceOneChInt (withB false) and
        updateIntensityTraceTwoChInt (withB true): the batch evs is cut into
        bins of binSize events, the last one taking what is left; each bin
        is a trace point until the trace holds TraceLength points, and the
        macro time moves on by the bins written. */
    method UpdateIntensityTrace(withB: bool, ghost evs: seq<Event>)
      requires Traced() && Holds(evs, withB)
      requires withB ==> intensityTraceYB.Length == TraceLength && intensityTraceYA != intensityTraceYB
      modifies this`intensityTracePosition, this`macroTime, intensityTraceX, intensityTraceYA, intensityTraceYB
      ensures var ps := Points(evs, binSize, old(macroTime));
        var n := if |ps| <= TraceLength - old(intensityTracePosition) then |ps| else TraceLength - old(intensityTracePosition);
        Written(ps, old(intensityTracePosition), withB, old(intensityTraceX[..]), old(intensityTraceYA[..]), old(intensityTraceYB[..])) &&
        intensityTracePosition == old(intensityTracePosition) + n && macroTime == old(macroTime) + Spanned(ps[..n])
      ensures old(intensityTracePosition) + |Points(evs, binSize, old(macroTime))| <= TraceLength ==>
        macroTime == old(macroTime) + Ticks(evs)
    {
      ghost var ps := Points(evs, binSize, macroTime);
      ghost var pos0, t0 := intensityTracePosition, macroTime;
      ghost var oldX, oldYA, oldYB := intensityTraceX[..], intensityTraceYA[..], intensityTraceYB[..];
      var ev, ii, x, ya, yb := 0, 0, 0, 0, 0;
      ghost var gyb := 0;
      assert ps[..0] == [];
      while ev < nEvents && intensityTracePosition < TraceLength
        invariant Written(ps, pos0, withB, oldX, oldYA, oldYB)
        invariant OnTrace(ps, intensityTracePosition - pos0, t0, macroTime, evs, ev, binSize, ii, x, ya, gyb)
        invariant withB ==> yb == gyb
        decreases nEvents - ev
      {
        ev, ii, x, ya, yb, gyb := TraceStep(withB, evs, ev, ii, x, ya, yb, gyb, ps, pos0, t0, oldX, oldYA, oldYB);
      }
      TraceEnds(ps, intensityTracePosition - pos0, t0, macroTime, evs, ev, binSize, ii, x, ya, gyb, pos0);
    }

    /** updateIntensityTraceOneChInt: the trace of the weights on A. */
    method UpdateIntensityTraceOneChInt(ghost evs: seq<Event>)
      requires Traced() && Holds(evs, false)
      modifies this`intensityTracePosition, this`macroTime, intensityTraceX, intensityTraceYA, intensityTraceYB
      ensures var ps := Points(evs, binSize, old(macroTime));
        var n := if |ps| <= TraceLength - old(intensityTracePosition) then |ps| else TraceLength - old(intensityTracePosition);
        Written(ps, old(intensityTracePosition), false, old(intensityTraceX[..]), old(intensityTraceYA[..]), old(intensityTraceYB[..])) &&
        intensityTracePosition == old(intensityTracePosition) + n && macroTime == old(macroTime) + Spanned(ps[..n])
      ensures old(intensityTracePosition) + |Points(evs, binSize, old(macroTime))| <= TraceLength ==>
        macroTime == old(macroTime) + Ticks(evs)
    {
      UpdateIntensityTrace(false, evs);
    }

    /** updateIntensityTraceTwoChInt: the trace of the weights on A and on B. */
    method UpdateIntensityTraceTwoChInt(ghost evs: seq<Event>)
      requires Traced() && Holds(evs, true)
      requires intensityTraceYB.Length == TraceLength && intensityTraceYA != intensityTraceYB
      modifies this`intensityTracePosition, this`macroTime, intensityTraceX, intensityTraceYA, intensityTraceYB
      ensures var ps := Points(evs, binSize, old(macroTime));
        var n := if |ps| <= TraceLength - old(intensityTracePosition) then |ps| else TraceLength - old(intensityTracePosition);
        Written(ps, old(intensityTracePosition), true, old(intensityTraceX[..]), old(intensityTraceYA[..]), old(intensityTraceYB[..])) &&
        intensityTracePosition == old(intensityTracePosition) + n && macroTime == old(macroTime) + Spanned(ps[..n])
      ensures old(intensityTracePosition) + |Points(evs, binSize, old(macroTime))| <= TraceLength ==>
        macroTime == old(macroTime) + Ticks(evs)
    {
      UpdateIntensityTrace(true, evs);
    }

    /** getIntensityTraceX: the mid times of the points so far. */
    method GetIntensityTraceX() returns (r: array<real>)
      requires 0 <= intensityTracePosition <= intensityTraceX.Length
      ensures fresh(r) && r[..] == intensityTraceX[..intensityTracePosition]
    {
      r := Truncated(intensityTraceX, intensityTracePosition);
    }

    /** getIntensityTraceYA: the rates on A of the points so far. */
    method GetIntensityTraceYA() returns (r: array<Rate>)
      requires 0 <= intensityTracePosition <= intensityTraceYA.Length
      ensures fresh(r) && r[..] == intensityTraceYA[..intensityTracePosition]
    {
      r := Truncated(intensityTraceYA, intensityTracePosition);
    }

    /** getIntensityTraceYB: the rates on B of the points so far. */
    method GetIntensityTraceYB() returns (r: array<Rate>)
      requires 0 <= intensityTracePosition <= intensityTraceYB.Length
      ensures fresh(r) && r[..] == intensityTraceYB[..intensityTracePosition]
    {
      r := Truncated(intensityTraceYB, intensityTracePosition);
    }
  }
}

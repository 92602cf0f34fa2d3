/** Phase B of updateCorrAutoInt, updateCorrCrossInt and updateCorrAutoHOmltInt
    as functions of the correlator state, and the integer part of phase C.

    Per event and per cascade j, time is coarsened to the cascade's time base:
    ticks collect in mta[j] and weights in waTemp[j] until a whole time base
    has passed; then the finished bin (its coarse inter-arrival time
    iatnew[j] and its weight) is pushed into cascade j's 256-slot ring, the
    ring pointer sp[j] (a Java byte) moves on, and a backward walk over the
    ring accumulates the lag products. On the cascade whose time base is 1
    every event is its own bin. The ring holds in ciat the time from each
    bin to the newest one, brought up to date lazily by the walk. */
module Engine {
  import opened JavaInt
  import opened Events
  import opened LagTable

  /** Which of the three correlators runs: updateCorrAutoInt,
      updateCorrCrossInt or updateCorrAutoHOmltInt. */
  datatype Mode = Auto | Cross | HighOrder

  /** The value initializeGmn writes into every ring slot; it is above every
      lag, so an unused slot ends every walk. */
  const Empty: int := 10000

  /** Slot s (a Java byte) of cascade j's ring; it always lies in the 256
      entries that belong to cascade j. */
  function Slot(j: nat, s: int): (i: int)
    requires -128 <= s < 128
    ensures 256 * j <= i < 256 * j + 256
  {
    128 + 256 * j + s
  }

  /** ciatarray, wAintArray and wBintArray. */
  datatype Ring = Ring(ciat: seq<int>, wa: seq<int>, wb: seq<int>)

  /** mta, iatnew, wAintTemp, wBintTemp and sp. */
  datatype Bins = Bins(mta: seq<int>, iatnew: seq<int>, waTemp: seq<int>, wbTemp: seq<int>, sp: seq<int>)

  /** tlast, wAtotal, wBtotal, wAtotal2 and wAtotal3. */
  datatype Totals = Totals(tlast: seq<int>, waTotal: seq<int>, wbTotal: seq<int>, waTotal2: seq<int>, waTotal3: seq<int>)

  /** The s arrays, one entry per lag. */
  datatype Sums = Sums(s01a: seq<int>, s01b: seq<int>, s02a: seq<int>, s03a: seq<int>,
                       s11aa: seq<int>, s11ab: seq<int>, s11ba: seq<int>, s11bb: seq<int>,
                       s12aa: seq<int>, s21aa: seq<int>, s13aa: seq<int>, s31aa: seq<int>, s22aa: seq<int>)

  datatype State = State(ring: Ring, bins: Bins, totals: Totals, sums: Sums)

  /** The arrays a mode uses have the sizes initializeGmn gives them; the
      arrays of the other modes are not looked at. */
  predicate RingShaped(r: Ring, p: Params, m: Mode)
  {
    |r.ciat| == 256 * p.nc && |r.wa| == 256 * p.nc && (m == Cross ==> |r.wb| == 256 * p.nc)
  }

  predicate BinsShaped(b: Bins, p: Params, m: Mode)
  {
    |b.mta| == p.nc && |b.iatnew| == p.nc && |b.waTemp| == p.nc && |b.sp| == p.nc &&
    (m == Cross ==> |b.wbTemp| == p.nc) &&
    forall j :: 0 <= j < p.nc ==> -128 <= b.sp[j] < 128
  }

  predicate TotalsShaped(t: Totals, p: Params, m: Mode)
  {
    |t.tlast| == p.nc && |t.waTotal| == p.nc && (m == Cross ==> |t.wbTotal| == p.nc) &&
    (m == HighOrder ==> |t.waTotal2| == p.nc && |t.waTotal3| == p.nc)
  }

  predicate SumsShaped(s: Sums, p: Params, m: Mode)
  {
    var n := LagCount(p);
    |s.s01a| == n && |s.s11aa| == n &&
    (m == Cross ==> |s.s01b| == n && |s.s11ab| == n && |s.s11ba| == n && |s.s11bb| == n) &&
    (m == HighOrder ==> |s.s02a| == n && |s.s03a| == n && |s.s12aa| == n && |s.s21aa| == n &&
                        |s.s13aa| == n && |s.s31aa| == n && |s.s22aa| == n)
  }

  predicate Shaped(e: State, p: Params, m: Mode)
  {
    RingShaped(e.ring, p, m) && BinsShaped(e.bins, p, m) && TotalsShaped(e.totals, p, m) &&
    SumsShaped(e.sums, p, m)
  }

  /** n copies of x: a freshly allocated (and, for the ring times, freshly
      filled) array. */
  function Filled(n: int, x: int): (r: seq<int>)
    requires n >= 0
    ensures |r| == n
  {
    seq(n, _ => x)
  }

  /** The state initializeGmn leaves: every ring time Empty, everything
      else 0, and every ring pointer 0 (the loop meant to set them to -128
      assigns only its loop variable). */
  function Initial(p: Params, m: Mode): (e: State)
    requires ValidParams(p)
    ensures Shaped(e, p, m)
  {
    var ring := 256 * p.nc;
    var n := LagCount(p);
    var z := Filled(p.nc, 0);
    var s := Filled(n, 0);
    State(Ring(Filled(ring, Empty), Filled(ring, 0), if m == Cross then Filled(ring, 0) else []),
          Bins(z, z, z, if m == Cross then z else [], z),
          Totals(z, z, if m == Cross then z else [], if m == HighOrder then z else [], if m == HighOrder then z else []),
          Sums(s, if m == Cross then s else [], if m == HighOrder then s else [], if m == HighOrder then s else [],
               s, if m == Cross then s else [], if m == Cross then s else [], if m == Cross then s else [],
               if m == HighOrder then s else [], if m == HighOrder then s else [], if m == HighOrder then s else [],
               if m == HighOrder then s else [], if m == HighOrder then s else []))
  }

  /** The lag window of a cascade: its block of the s arrays starts at off,
      its lags run from lo to hi, and a ring time d in [lo, hi] is
      accumulated at off + d - sub. */
  datatype Window = Window(off: int, lo: int, hi: int, sub: int)

  predicate WindowOk(w: Window, p: Params)
  {
    0 <= w.off && 1 <= w.sub <= w.lo <= w.hi && w.off + w.hi - w.sub < LagCount(p)
  }

  /** A time base is 1 only in cascade 0. */
  lemma TimebaseOne(p: Params, j: nat)
    requires p.t0 >= 1
    ensures Timebase(p, j) == 1 ==> j == 0
  {
    if j > 0 {
      TimebaseUp(p, j - 1, j - 1);
    }
  }

  /** Cascade j's window: lags cc[off] .. cc[off + ntlag - 1] = 2np. The
      coarse branches index the s arrays by d - cc[off]; the time-base-1
      branch of the auto and higher-order correlators by d - 1, which is
      the same there since that branch is cascade 0, whose first lag is 1. */
  function WindowOf(p: Params, j: nat, tb1: bool, m: Mode): (w: Window)
    requires ValidParams(p) && j < p.nc && (tb1 ==> j == 0)
    ensures WindowOk(w, p)
    ensures w.off == Offset(p, j) && w.lo == Lag(p, Offset(p, j)) && w.hi == 2 * p.np
    ensures w.hi - w.lo + 1 == NtLag(p, j) && w.sub == w.lo
  {
    LagOf(p, j, NtLag(p, j) - 1);
    Tiling(p, j);
    var lo := Lag(p, Offset(p, j));
    Window(Offset(p, j), lo, Lag(p, Offset(p, j) + NtLag(p, j) - 1), if tb1 && m != Cross then 1 else lo)
  }

  function Add(a: seq<int>, k: int, x: int): (r: seq<int>)
    requires 0 <= k < |a|
    ensures |r| == |a|
  {
    a[k := a[k] + x]
  }

  /** One lag product at index k: the newest bin's weights cA, cB times the
      weights sA, sB of the bin the walk has reached, computed as Java ints
      (so wrapped to 32 bits) before the double sums take them in. The
      cross correlator adds only products of positive weights. */
  function Product(s: Sums, p: Params, m: Mode, k: int, cA: int, cB: int, sA: int, sB: int): (r: Sums)
    requires SumsShaped(s, p, m) && 0 <= k < LagCount(p)
    ensures SumsShaped(r, p, m)
  {
    match m
    case Auto => s.(s11aa := Add(s.s11aa, k, ToInt32(cA * sA)))
    case Cross =>
      s.(s11aa := if sA > 0 && cA > 0 then Add(s.s11aa, k, ToInt32(sA * cA)) else s.s11aa,
         s11ab := if sA > 0 && cB > 0 then Add(s.s11ab, k, ToInt32(sA * cB)) else s.s11ab,
         s11bb := if sB > 0 && cB > 0 then Add(s.s11bb, k, ToInt32(sB * cB)) else s.s11bb,
         s11ba := if sB > 0 && cA > 0 then Add(s.s11ba, k, ToInt32(sB * cA)) else s.s11ba)
    case HighOrder =>
      s.(s11aa := Add(s.s11aa, k, ToInt32(cA * sA)),
         s12aa := Add(s.s12aa, k, ToInt32(cA * sA * cA)),
         s21aa := Add(s.s21aa, k, ToInt32(cA * sA * sA)),
         s13aa := Add(s.s13aa, k, ToInt32(cA * sA * cA * cA)),
         s31aa := Add(s.s31aa, k, ToInt32(cA * sA * sA * sA)),
         s22aa := Add(s.s22aa, k, ToInt32(cA * sA * cA * sA)))
  }

  /** The tail correction of cascade j once its total time is tl: every lag
      of the block from index `from` on that exceeds tl gets the weight w
      (EngineSteps.TailAt states it lag by lag). */
  function Tail(a: seq<int>, p: Params, j: nat, tl: int, w: int, from: nat): (r: seq<int>)
    requires ValidParams(p) && j < p.nc && |a| == LagCount(p)
    ensures |r| == |a|
    decreases NtLag(p, j) - from
  {
    if from >= NtLag(p, j) then a
    else
      var t := Tail(a, p, j, tl, w, from + 1);
      var k := Offset(p, j) + from;
      Tiling(p, j);
      if tl < Lag(p, k) then t[k := t[k] + w] else t
  }

  /** The tail corrections of the lags of cascade j from `from` on: s01a
      takes cA (s01b cB for the cross correlator; s02a and s03a cA^2 and
      cA^3, as Java ints, for the higher-order one). */
  function Tails(s: Sums, p: Params, m: Mode, j: nat, tl: int, cA: int, cB: int, from: nat): (r: Sums)
    requires ValidParams(p) && j < p.nc && SumsShaped(s, p, m)
    ensures SumsShaped(r, p, m)
  {
    s.(s01a := Tail(s.s01a, p, j, tl, cA, from),
       s01b := if m == Cross then Tail(s.s01b, p, j, tl, cB, from) else s.s01b,
       s02a := if m == HighOrder then Tail(s.s02a, p, j, tl, ToInt32(cA * cA), from) else s.s02a,
       s03a := if m == HighOrder then Tail(s.s03a, p, j, tl, ToInt32(cA * cA * cA), from) else s.s03a)
  }

  /** Where a walk stands: the ring times so far and the pointer st. */
  datatype Probe = Probe(ciat: seq<int>, st: int)

  /** Walks back over the ring while the time is below the window, bringing
      each further slot up to date by adding `add` (the first inner loop of
      the correlation search). The fuel is never used up on the states the
      correlator reaches (see EngineChain). */
  function Skip(c: seq<int>, j: nat, st: int, add: int, lo: int, fuel: nat): (r: Probe)
    requires |c| >= 256 * (j + 1) && -128 <= st < 128
    ensures |r.ciat| == |c| && -128 <= r.st < 128
    decreases fuel
  {
    if fuel == 0 || c[Slot(j, st)] >= lo then Probe(c, st)
    else
      var st' := ByteDec(st);
      Skip(c[Slot(j, st') := c[Slot(j, st')] + add], j, st', add, lo, fuel - 1)
  }

  datatype Trail = Trail(ciat: seq<int>, sums: Sums, st: int)

  /** Walks back over the ring while the time is inside the window, adding
      the product of the newest bin's weights with each bin's weights at
      that bin's lag (the second inner loop). */
  function Gather(c: seq<int>, s: Sums, wa: seq<int>, wb: seq<int>, p: Params, m: Mode, j: nat, w: Window,
                  st: int, add: int, cA: int, cB: int, fuel: nat): (t: Trail)
    requires ValidParams(p) && WindowOk(w, p) && SumsShaped(s, p, m) && -128 <= st < 128
    requires |c| >= 256 * (j + 1) && |wa| >= 256 * (j + 1) && (m == Cross ==> |wb| >= 256 * (j + 1))
    ensures |t.ciat| == |c| && SumsShaped(t.sums, p, m) && -128 <= t.st < 128
    decreases fuel
  {
    var d := c[Slot(j, st)];
    if fuel == 0 || !(w.lo <= d <= w.hi) then Trail(c, s, st)
    else
      var sA := wa[Slot(j, st)];
      var sB := if m == Cross then wb[Slot(j, st)] else 0;
      var s' := Product(s, p, m, w.off + d - w.sub, cA, cB, sA, sB);
      var st' := ByteDec(st);
      Gather(c[Slot(j, st') := c[Slot(j, st')] + add], s', wa, wb, p, m, j, w, st', add, cA, cB, fuel - 1)
  }

  /** The correlation search after a push: nothing unless the newest time
      is within the window's upper end. */
  function Walk(c: seq<int>, s: Sums, wa: seq<int>, wb: seq<int>, p: Params, m: Mode, j: nat, w: Window,
                sp: int, add1: int, add2: int, cA: int, cB: int): (t: Trail)
    requires ValidParams(p) && WindowOk(w, p) && SumsShaped(s, p, m) && -128 <= sp < 128
    requires |c| >= 256 * (j + 1) && |wa| >= 256 * (j + 1) && (m == Cross ==> |wb| >= 256 * (j + 1))
    ensures |t.ciat| == |c| && SumsShaped(t.sums, p, m)
  {
    var st := ByteDec(sp);
    if c[Slot(j, st)] <= w.hi then
      var probe := Skip(c, j, st, add1, w.lo, 256);
      Gather(probe.ciat, s, wa, wb, p, m, j, w, probe.st, add2, cA, cB, 256)
    else Trail(c, s, st)
  }

  /** Closing a bin of cascade j whose time is d and whose weights are cA,
      cB: the time goes into the current slot, the pointer moves on, the
      weights go into the new slot, the totals and the tail corrections
      take the bin in, and the walk accumulates its lag products. The
      first inner loop of the walk adds add1 (iatnew[j], even on the
      time-base-1 branch); the second adds d. */
  function Push(e: State, p: Params, m: Mode, j: nat, d: int, cA: int, cB: int, add1: int, tb1: bool): (r: State)
    requires ValidParams(p) && Shaped(e, p, m) && j < p.nc && (tb1 ==> j == 0)
    ensures Shaped(r, p, m)
  {
    var s1 := ByteInc(e.bins.sp[j]);
    var trail := PushWalk(e, p, m, j, d, cA, cB, add1, tb1);
    State(Ring(trail.ciat, PushedA(e, j, cA), PushedB(e, m, j, cB)),
          e.bins.(sp := e.bins.sp[j := s1]), PushTotals(e.totals, p, m, j, d, cA, cB), trail.sums)
  }

  /** The totals of cascade j take in a bin of time d and weights cA, cB
      (and, for the higher-order correlator, cA^2 and cA^3 as Java ints). */
  function PushTotals(t: Totals, p: Params, m: Mode, j: nat, d: int, cA: int, cB: int): (r: Totals)
    requires TotalsShaped(t, p, m) && j < p.nc
    ensures TotalsShaped(r, p, m)
  {
    Totals(t.tlast[j := t.tlast[j] + d], Add(t.waTotal, j, cA),
           if m == Cross then Add(t.wbTotal, j, cB) else t.wbTotal,
           if m == HighOrder then Add(t.waTotal2, j, ToInt32(cA * cA)) else t.waTotal2,
           if m == HighOrder then Add(t.waTotal3, j, ToInt32(cA * cA * cA)) else t.waTotal3)
  }

  /** The weights of the closed bin go into the slot after the pointer. */
  function PushedA(e: State, j: nat, cA: int): (r: seq<int>)
    requires |e.ring.wa| >= 256 * (j + 1)
    requires j < |e.bins.sp| && -128 <= e.bins.sp[j] < 128
    ensures |r| == |e.ring.wa| && r[Slot(j, ByteInc(e.bins.sp[j]))] == cA
  {
    e.ring.wa[Slot(j, ByteInc(e.bins.sp[j])) := cA]
  }

  function PushedB(e: State, m: Mode, j: nat, cB: int): (r: seq<int>)
    requires m == Cross ==> |e.ring.wb| >= 256 * (j + 1)
    requires j < |e.bins.sp| && -128 <= e.bins.sp[j] < 128
    ensures |r| == |e.ring.wb| && (m == Cross ==> r[Slot(j, ByteInc(e.bins.sp[j]))] == cB)
  {
    if m == Cross then e.ring.wb[Slot(j, ByteInc(e.bins.sp[j])) := cB] else e.ring.wb
  }

  /** Pushing a bin: time d into the current slot s of cascade j. */
  function Pushed(c: seq<int>, j: nat, s: int, d: int): (r: seq<int>)
    requires |c| >= 256 * (j + 1) && -128 <= s < 128
    ensures |r| == |c| && r[Slot(j, s)] == d
  {
    c[Slot(j, s) := d]
  }

  /** The walk of a push: the time d goes into the current slot and the
      walk starts from the slot after it, with the tail corrections of the
      bin already taken in. */
  function PushWalk(e: State, p: Params, m: Mode, j: nat, d: int, cA: int, cB: int, add1: int, tb1: bool): (t: Trail)
    requires ValidParams(p) && Shaped(e, p, m) && j < p.nc && (tb1 ==> j == 0)
    ensures |t.ciat| == |e.ring.ciat| && SumsShaped(t.sums, p, m)
  {
    var s := e.bins.sp[j];
    Walk(Pushed(e.ring.ciat, j, s, d), PushTails(e, p, m, j, d, cA, cB), PushedA(e, j, cA), PushedB(e, m, j, cB),
         p, m, j, WindowOf(p, j, tb1, m), ByteInc(s), add1, d, cA, cB)
  }

  /** The tail corrections a push of a bin of time d and weights cA, cB
      makes, the cascade's clock having moved on by d. */
  function PushTails(e: State, p: Params, m: Mode, j: nat, d: int, cA: int, cB: int): (r: Sums)
    requires ValidParams(p) && Shaped(e, p, m) && j < p.nc
    ensures SumsShaped(r, p, m)
  {
    Tails(e.sums, p, m, j, e.totals.tlast[j] + d, cA, cB, 0)
  }

  /** A bin of cascade j closes: what is left of mta after the whole time
      bases (rest), the new coarse time q, and the event's weights start
      the next bin. */
  function CloseBin(b: Bins, p: Params, m: Mode, j: nat, rest: int, q: int, wA: int, wB: int): (r: Bins)
    requires BinsShaped(b, p, m) && j < p.nc
    ensures BinsShaped(r, p, m)
  {
    Bins(b.mta[j := rest], b.iatnew[j := q], b.waTemp[j := wA],
         if m == Cross then b.wbTemp[j := wB] else b.wbTemp, b.sp)
  }

  /** An event falls into the open bin of cascade j. */
  function FillBin(b: Bins, p: Params, m: Mode, j: nat, mta: int, wA: int, wB: int): (r: Bins)
    requires BinsShaped(b, p, m) && j < p.nc
    ensures BinsShaped(r, p, m)
  {
    b.(mta := b.mta[j := mta], waTemp := Add(b.waTemp, j, wA),
       wbTemp := if m == Cross then Add(b.wbTemp, j, wB) else b.wbTemp)
  }

  /** The open bin of a coarse cascade j, already pushed in e1, closes:
      the whole time bases in its ticks mta become the next bin's coarse
      time, the rest of the ticks stay open, and the event's weights start
      the next bin. */
  function Close(e1: State, p: Params, m: Mode, j: nat, mta: int, ev: Event): (r: State)
    requires ValidParams(p) && Shaped(e1, p, m) && j < p.nc
    ensures Shaped(r, p, m)
  {
    var tb := Timebase(p, j);
    TimebaseUp(p, j, j);
    var q := mta / tb;
    e1.(bins := CloseBin(e1.bins, p, m, j, mta - q * tb, q, ev.wA, ev.wB))
  }

  /** One event in cascade j. On a coarse cascade the event's ticks go
      into the open bin, which is pushed with its coarse time once they
      reach the time base; on the time-base-1 cascade the event itself is
      pushed as a bin. */
  function CascadeStep(e: State, p: Params, m: Mode, j: nat, ev: Event): (r: State)
    requires ValidParams(p) && Shaped(e, p, m) && j < p.nc
    ensures Shaped(r, p, m)
  {
    var tb := Timebase(p, j);
    var b := e.bins;
    var mta := b.mta[j] + ev.iat;
    if tb != 1 && mta < tb then e.(bins := FillBin(b, p, m, j, mta, ev.wA, ev.wB))
    else
      var fine := tb == 1;
      TimebaseOne(p, j);
      var e1 := Push(e, p, m, j, if fine then ev.iat else b.iatnew[j], if fine then ev.wA else b.waTemp[j],
                     if m != Cross then 0 else if fine then ev.wB else b.wbTemp[j], b.iatnew[j], fine);
      if fine then e1 else Close(e1, p, m, j, mta, ev)
  }

  /** One event in cascades j .. nc - 1. */
  function Cascades(e: State, p: Params, m: Mode, ev: Event, j: nat): (r: State)
    requires ValidParams(p) && Shaped(e, p, m) && j <= p.nc
    ensures Shaped(r, p, m)
    decreases p.nc - j
  {
    if j == p.nc then e else Cascades(CascadeStep(e, p, m, j, ev), p, m, ev, j + 1)
  }

  /** Phase B over a batch of events, in order. */
  function Run(e: State, p: Params, m: Mode, evs: seq<Event>): (r: State)
    requires ValidParams(p) && Shaped(e, p, m)
    ensures Shaped(r, p, m)
    decreases |evs|
  {
    if evs == [] then e else Run(Cascades(e, p, m, evs[0], 0), p, m, evs[1..])
  }

  /** The weight as phase C's sums take it: w, w^2 or w^3, the powers
      computed as Java ints. */
  function Moment(x: int, deg: nat): int
  {
    if deg == 1 then x else if deg == 2 then ToInt32(x * x) else ToInt32(x * x * x)
  }

  /** Phase C's walk for one lag: the moments of the weights of the bins
      from st backwards whose time + 1 is at most the lag. */
  function Behind(c: seq<int>, w: seq<int>, j: nat, st: int, lag: int, deg: nat, fuel: nat): int
    requires |c| >= 256 * (j + 1) && |w| >= 256 * (j + 1) && -128 <= st < 128
    decreases fuel
  {
    if fuel == 0 || c[Slot(j, st)] + 1 > lag then 0
    else Moment(w[Slot(j, st)], deg) + Behind(c, w, j, ByteDec(st), lag, deg, fuel - 1)
  }

  /** The integer part of phase C for lag ii of cascade j: the totals
      without the newest bin and without the bins closer than the lag
      (s10, s10a/s10b, s20, s30), and the duration n = tlast - cc. */
  datatype Norm = Norm(s10a: int, s10b: int, s20: int, s30: int, n: int)

  /** A total without the newest bin (slot sp) and without the bins phase
      C walks back over for the lag. */
  function Without(total: int, c: seq<int>, w: seq<int>, j: nat, sp: int, lag: int, deg: nat): int
    requires |c| >= 256 * (j + 1) && |w| >= 256 * (j + 1) && -128 <= sp < 128
  {
    total - Moment(w[Slot(j, sp)], deg) - Behind(c, w, j, ByteDec(sp), lag, deg, 256)
  }

  /** cc[off + ii]: lag ii of cascade j. */
  function LagAt(p: Params, j: nat, ii: nat): int
    requires p.np >= 1
  {
    Lag(p, Offset(p, j) + ii)
  }

  function Prepass(e: State, p: Params, m: Mode, j: nat, ii: nat): (r: Norm)
    requires ValidParams(p) && Shaped(e, p, m) && j < p.nc
  {
    var lag := LagAt(p, j, ii);
    var s := e.bins.sp[j];
    assert -128 <= s < 128;
    var c := e.ring.ciat;
    var t := e.totals;
    Norm(Without(t.waTotal[j], c, e.ring.wa, j, s, lag, 1),
         if m == Cross then Without(t.wbTotal[j], c, e.ring.wb, j, s, lag, 1) else 0,
         if m == HighOrder then Without(t.waTotal2[j], c, e.ring.wa, j, s, lag, 2) else 0,
         if m == HighOrder then Without(t.waTotal3[j], c, e.ring.wa, j, s, lag, 3) else 0,
         t.tlast[j] - lag)
  }

  /** Phase C's integer part for the lags of cascade j. */
  function Block(e: State, p: Params, m: Mode, j: nat): (r: seq<Norm>)
    requires ValidParams(p) && Shaped(e, p, m) && j < p.nc
    ensures |r| == NtLag(p, j)
  {
    seq(NtLag(p, j), ii requires 0 <= ii < NtLag(p, j) => Prepass(e, p, m, j, ii))
  }

  /** Phase C's integer part for cascades 0 .. j - 1, in the layout of the
      g arrays. */
  function Norms(e: State, p: Params, m: Mode, j: nat): (r: seq<Norm>)
    requires ValidParams(p) && Shaped(e, p, m) && j <= p.nc
    ensures |r| == Offset(p, j)
  {
    if j == 0 then []
    else
      Tiling(p, j - 1);
      Norms(e, p, m, j - 1) + Block(e, p, m, j - 1)
  }
}

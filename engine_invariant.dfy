/** The invariant phase B keeps on every cascade: an ordered frontier
    behind the ring pointer (see EngineChain), non-negative pending ticks
    and coarse times, and a coarse time of 0 only while the ring's newest
    time is past the window. On the time-base-1 cascade every event is a
    bin, and an event of time 0 (two photons in the same tick) is a bin of
    time 0: those are admitted in runs shorter than Spread(2np), which is 7
    for np = 16 and 1 (no zeros) for np > 62. The invariant holds for the
    state initializeGmn leaves and after every admitted event, so every
    backward walk of phase B and phase C ends inside the ring. */
module EngineInvariant {
  import opened JavaInt
  import opened Events
  import opened LagTable
  import opened Engine
  import opened EngineChain

  /** An event the invariant admits after the time-base-1 cascade has taken
      z events of time 0 in a row: its time is not negative, and a time of
      0 there keeps the run shorter than Spread(2np). */
  predicate EventOk(p: Params, ev: Event, z: nat)
  {
    ev.iat >= 0 && (p.t0 == 1 && ev.iat == 0 ==> z + 1 < Spread(2 * p.np))
  }

  /** The run of events of time 0 on the time-base-1 cascade after ev. */
  function After(p: Params, z: nat, ev: Event): nat
  {
    if ev.iat >= 1 || p.t0 != 1 then 0 else z + 1
  }

  /** A batch the invariant admits after a run of z events of time 0. */
  predicate Admits(p: Params, z: nat, evs: seq<Event>)
    decreases |evs|
  {
    evs == [] || (EventOk(p, evs[0], z) && Admits(p, After(p, z, evs[0]), evs[1..]))
  }

  /** A batch the invariant admits whatever came before it: no time is
      negative and, when the finest time base is 1, each time of 0 is
      preceded within the batch by a nonzero time, in runs of at most
      Spread(2np) - 1 times of 0. */
  predicate EventsOk(p: Params, evs: seq<Event>)
    requires ValidParams(p)
  {
    SpreadFits(2 * p.np);
    Admits(p, Spread(2 * p.np) - 1, evs)
  }

  predicate CascadeOk(e: State, p: Params, m: Mode, j: nat)
    requires Shaped(e, p, m) && j < p.nc
  {
    e.bins.mta[j] >= 0 && e.bins.iatnew[j] >= 0 && (Timebase(p, j) == 1 ==> e.bins.iatnew[j] == 0) &&
    exists f: nat, z: nat :: f <= 256 && z < Spread(2 * p.np) && Frontier(e.ring.ciat, j, e.bins.sp[j], 2 * p.np, f, z) &&
                             (Timebase(p, j) == 1 || e.bins.iatnew[j] >= 1 || f == 1)
  }

  /** The time-base-1 cascade's ring has a frontier with the newest z bins
      of time 0. */
  predicate Room(e: State, p: Params, m: Mode, z: nat)
  {
    p.t0 == 1 ==>
      |e.bins.sp| >= 1 && Fits(e.ring.ciat, 0) && IsByte(e.bins.sp[0]) &&
      exists f: nat :: f <= 256 && Frontier(e.ring.ciat, 0, e.bins.sp[0], 2 * p.np, f, z)
  }

  predicate Invariant(e: State, p: Params, m: Mode)
  {
    Shaped(e, p, m) && forall j: nat :: j < p.nc ==> CascadeOk(e, p, m, j)
  }

  /** Phase B can go on from state e over the events evs while the newest
      z bins of the time-base-1 cascade have time 0: the invariant and that
      room hold now, and again after each event in turn, which is admitted
      when it comes. */
  predicate Ahead(e: State, p: Params, m: Mode, z: nat, evs: seq<Event>)
    decreases |evs|
  {
    ValidParams(p) && Invariant(e, p, m) && Room(e, p, m, z) && z < Spread(2 * p.np) &&
    (evs != [] ==> EventOk(p, evs[0], z) && Ahead(Cascades(e, p, m, evs[0], 0), p, m, After(p, z, evs[0]), evs[1..]))
  }

  /** The lags of cascade 0 start at 1. */
  lemma FirstLag(p: Params)
    requires ValidParams(p)
    ensures Lag(p, Offset(p, 0)) == 1
  {
    LagOf(p, 0, 0);
  }

  lemma InitialOk(p: Params, m: Mode)
    requires ValidParams(p)
    ensures Invariant(Initial(p, m), p, m)
  {
    var e := Initial(p, m);
    forall j: nat | j < p.nc
      ensures CascadeOk(e, p, m, j)
    {
      assert View(e.ring.ciat, j, 0, 1) == Empty;
      assert Frontier(e.ring.ciat, j, e.bins.sp[j], 2 * p.np, 1, 0);
      SpreadFits(2 * p.np);
    }
  }

  /** Any state the invariant admits has room for a run of Spread(2np) - 1
      zeros: the batch admitted from it by EventsOk starts there. */
  lemma Roomy(e: State, p: Params, m: Mode)
    requires ValidParams(p) && Invariant(e, p, m)
    ensures 1 <= Spread(2 * p.np) && Room(e, p, m, Spread(2 * p.np) - 1)
  {
    SpreadFits(2 * p.np);
    if p.t0 == 1 {
      assert CascadeOk(e, p, m, 0);
      var f: nat, z: nat :| f <= 256 && z < Spread(2 * p.np) && Frontier(e.ring.ciat, 0, e.bins.sp[0], 2 * p.np, f, z);
      FrontierWeaker(e.ring.ciat, 0, e.bins.sp[0], 2 * p.np, f, z, Spread(2 * p.np) - 1);
    }
  }

  /** A push onto a ring with frontier f: the pushed cascade gets a new
      frontier behind its moved pointer, nothing else in the bins changes,
      and the other cascades' ring slots are not touched. */
  lemma PushRing(e: State, p: Params, m: Mode, j: nat, d: int, cA: int, cB: int, add1: int, tb1: bool, f: nat, z: nat)
    returns (f': nat)
    requires ValidParams(p) && Shaped(e, p, m) && j < p.nc && (tb1 ==> j == 0)
    requires Setup(e.ring.ciat, j, e.bins.sp[j], 2 * p.np, f, d, z)
    requires add1 == d || d >= WindowOf(p, j, tb1, m).lo
    ensures var r := Push(e, p, m, j, d, cA, cB, add1, tb1);
      Frontier(r.ring.ciat, j, r.bins.sp[j], 2 * p.np, f', Later(z, d, f)) &&
      r.bins == e.bins.(sp := e.bins.sp[j := ByteInc(e.bins.sp[j])]) &&
      forall i :: 0 <= i < |e.ring.ciat| && !(256 * j <= i < 256 * j + 256) ==> r.ring.ciat[i] == e.ring.ciat[i]
  {
    var s := e.bins.sp[j];
    var sums := PushTails(e, p, m, j, d, cA, cB);
    var w := WindowOf(p, j, tb1, m);
    var wa := PushedA(e, j, cA);
    var wb := PushedB(e, m, j, cB);
    var t := Walk(Pushed(e.ring.ciat, j, s, d), sums, wa, wb, p, m, j, w, ByteInc(s), add1, d, cA, cB);
    PushIs(e, p, m, j, d, cA, cB, add1, tb1);
    assert PushWalk(e, p, m, j, d, cA, cB, add1, tb1) == t;
    f' := WalkChain(e.ring.ciat, j, s, f, d, sums, wa, wb, p, m, w, add1, cA, cB, z);
  }

  /** Push takes its ring times from its walk and moves only the pointer of
      cascade j. */
  lemma PushIs(e: State, p: Params, m: Mode, j: nat, d: int, cA: int, cB: int, add1: int, tb1: bool)
    requires ValidParams(p) && Shaped(e, p, m) && j < p.nc && (tb1 ==> j == 0)
    ensures var r := Push(e, p, m, j, d, cA, cB, add1, tb1);
      r.ring.ciat == PushWalk(e, p, m, j, d, cA, cB, add1, tb1).ciat &&
      r.bins == e.bins.(sp := e.bins.sp[j := ByteInc(e.bins.sp[j])])
  {
  }

  /** What is left after whole time bases. */
  lemma Coarsen(x: int, tb: int)
    requires tb >= 1 && x >= tb
    ensures x / tb >= 1 && 0 <= x - (x / tb) * tb < tb
  {
    var q := x / tb;
    assert x == q * tb + x % tb;
    if q <= 0 {
      MulMono(tb, q, 0);
    }
  }

  /** Cascades other than j keep their invariant when their bins and ring
      slots are left alone. */
  lemma Others(e: State, r: State, p: Params, m: Mode, j: nat)
    requires ValidParams(p) && Invariant(e, p, m) && Shaped(r, p, m) && j < p.nc
    requires forall j': nat :: j' < p.nc && j' != j ==>
      r.bins.mta[j'] == e.bins.mta[j'] && r.bins.iatnew[j'] == e.bins.iatnew[j'] && r.bins.sp[j'] == e.bins.sp[j']
    requires forall i :: 0 <= i < |e.ring.ciat| && !(256 * j <= i < 256 * j + 256) ==> r.ring.ciat[i] == e.ring.ciat[i]
    ensures forall j': nat :: j' < p.nc && j' != j ==> CascadeOk(r, p, m, j')
  {
    forall j': nat | j' < p.nc && j' != j
      ensures CascadeOk(r, p, m, j')
    {
      assert CascadeOk(e, p, m, j');
      var f: nat, z: nat :| f <= 256 && z < Spread(2 * p.np) && Frontier(e.ring.ciat, j', e.bins.sp[j'], 2 * p.np, f, z) &&
                            (Timebase(p, j') == 1 || e.bins.iatnew[j'] >= 1 || f == 1);
      FrontierFrame(e.ring.ciat, r.ring.ciat, j', e.bins.sp[j'], 2 * p.np, f, z);
    }
  }

  /** A step on a cascade other than 0 leaves the time-base-1 cascade's
      room as it is. */
  lemma RoomKept(e: State, r: State, p: Params, m: Mode, j: nat, z: nat)
    requires ValidParams(p) && Shaped(e, p, m) && Shaped(r, p, m) && 0 < j < p.nc && Room(e, p, m, z)
    requires r.bins.sp[0] == e.bins.sp[0]
    requires forall i :: 0 <= i < |e.ring.ciat| && !(256 * j <= i < 256 * j + 256) ==> r.ring.ciat[i] == e.ring.ciat[i]
    ensures Room(r, p, m, z)
  {
    if p.t0 == 1 {
      var f: nat :| f <= 256 && Frontier(e.ring.ciat, 0, e.bins.sp[0], 2 * p.np, f, z);
      FrontierFrame(e.ring.ciat, r.ring.ciat, 0, e.bins.sp[0], 2 * p.np, f, z);
    }
  }

  /** An event that stays in the open bin. */
  lemma FillOk(e: State, p: Params, m: Mode, j: nat, ev: Event)
    requires ValidParams(p) && Invariant(e, p, m) && j < p.nc && ev.iat >= 0
    requires Timebase(p, j) != 1 && e.bins.mta[j] + ev.iat < Timebase(p, j)
    ensures Invariant(CascadeStep(e, p, m, j, ev), p, m)
    ensures j > 0 ==> CascadeStep(e, p, m, j, ev).bins.sp[0] == e.bins.sp[0]
    ensures forall i :: 0 <= i < |e.ring.ciat| && !(256 * j <= i < 256 * j + 256) ==> CascadeStep(e, p, m, j, ev).ring.ciat[i] == e.ring.ciat[i]
  {
    var r := e.(bins := FillBin(e.bins, p, m, j, e.bins.mta[j] + ev.iat, ev.wA, ev.wB));
    assert r == CascadeStep(e, p, m, j, ev);
    assert CascadeOk(e, p, m, j);
    var f: nat, z: nat :| f <= 256 && z < Spread(2 * p.np) && Frontier(e.ring.ciat, j, e.bins.sp[j], 2 * p.np, f, z) &&
                          (Timebase(p, j) == 1 || e.bins.iatnew[j] >= 1 || f == 1);
    assert CascadeOk(r, p, m, j);
    Others(e, r, p, m, j);
  }

  /** What Close leaves in the bins: the pushed state's ring and pointers,
      a non-negative rest of ticks and a coarse time of at least 1. */
  lemma CloseBins(e1: State, p: Params, m: Mode, j: nat, mta: int, ev: Event)
    requires ValidParams(p) && Shaped(e1, p, m) && j < p.nc && mta >= Timebase(p, j)
    ensures var r := Close(e1, p, m, j, mta, ev);
      r.ring == e1.ring && r.bins.sp == e1.bins.sp && r.bins.mta[j] >= 0 && r.bins.iatnew[j] >= 1 &&
      forall j' :: 0 <= j' < p.nc && j' != j ==> r.bins.mta[j'] == e1.bins.mta[j'] && r.bins.iatnew[j'] == e1.bins.iatnew[j']
  {
    TimebaseUp(p, j, j);
    Coarsen(mta, Timebase(p, j));
  }

  /** Closing the open bin pushes it with its coarse time: cascade j's
      frontier moves on, and no other cascade's ring slots change. */
  lemma CloseRing(e: State, p: Params, m: Mode, j: nat, ev: Event)
    requires ValidParams(p) && Invariant(e, p, m) && j < p.nc
    requires Timebase(p, j) != 1 && e.bins.mta[j] + ev.iat >= Timebase(p, j)
    ensures var b := e.bins;
      var e1 := Push(e, p, m, j, b.iatnew[j], b.waTemp[j], if m == Cross then b.wbTemp[j] else 0, b.iatnew[j], false);
      (exists f: nat, z: nat :: f <= 256 && z < Spread(2 * p.np) &&
         Frontier(e1.ring.ciat, j, e1.bins.sp[j], 2 * p.np, f, z)) &&
      e1.bins == b.(sp := b.sp[j := ByteInc(b.sp[j])]) &&
      forall i :: 0 <= i < |e.ring.ciat| && !(256 * j <= i < 256 * j + 256) ==> e1.ring.ciat[i] == e.ring.ciat[i]
  {
    var b := e.bins;
    var d := b.iatnew[j];
    var cB := if m == Cross then b.wbTemp[j] else 0;
    assert CascadeOk(e, p, m, j);
    var f: nat, z: nat :| f <= 256 && z < Spread(2 * p.np) && Frontier(e.ring.ciat, j, e.bins.sp[j], 2 * p.np, f, z) &&
                          (Timebase(p, j) == 1 || e.bins.iatnew[j] >= 1 || f == 1);
    var fj := PushRing(e, p, m, j, d, b.waTemp[j], cB, d, false, f, z);
    var e1 := Push(e, p, m, j, d, b.waTemp[j], cB, d, false);
    assert fj <= 256 && Later(z, d, f) < Spread(2 * p.np) && Frontier(e1.ring.ciat, j, e1.bins.sp[j], 2 * p.np, fj, Later(z, d, f));
  }

  /** An event that closes the open bin of a coarse cascade. */
  lemma CloseOk(e: State, p: Params, m: Mode, j: nat, ev: Event)
    requires ValidParams(p) && Invariant(e, p, m) && j < p.nc && ev.iat >= 0
    requires Timebase(p, j) != 1 && e.bins.mta[j] + ev.iat >= Timebase(p, j)
    ensures Invariant(CascadeStep(e, p, m, j, ev), p, m)
    ensures j > 0 ==> CascadeStep(e, p, m, j, ev).bins.sp[0] == e.bins.sp[0]
    ensures forall i :: 0 <= i < |e.ring.ciat| && !(256 * j <= i < 256 * j + 256) ==> CascadeStep(e, p, m, j, ev).ring.ciat[i] == e.ring.ciat[i]
  {
    var b := e.bins;
    var mta := b.mta[j] + ev.iat;
    var d := b.iatnew[j];
    var cB := if m == Cross then b.wbTemp[j] else 0;
    var e1 := Push(e, p, m, j, d, b.waTemp[j], cB, d, false);
    var r := Close(e1, p, m, j, mta, ev);
    assert r == CascadeStep(e, p, m, j, ev);
    CloseBins(e1, p, m, j, mta, ev);
    CloseRing(e, p, m, j, ev);
    var fj: nat, zj: nat :| fj <= 256 && zj < Spread(2 * p.np) && Frontier(e1.ring.ciat, j, e1.bins.sp[j], 2 * p.np, fj, zj);
    assert CascadeOk(r, p, m, j) by {
      assert Frontier(r.ring.ciat, j, r.bins.sp[j], 2 * p.np, fj, zj);
    }
    Others(e, r, p, m, j);
  }

  /** An event on the cascade whose time base is 1: the run of zeros
      behind its pointer goes on from z to After(p, z, ev). */
  lemma FineOk(e: State, p: Params, m: Mode, j: nat, ev: Event, z: nat)
    requires ValidParams(p) && Invariant(e, p, m) && j < p.nc
    requires Room(e, p, m, z) && z < Spread(2 * p.np) && EventOk(p, ev, z)
    requires Timebase(p, j) == 1
    ensures Invariant(CascadeStep(e, p, m, j, ev), p, m) && Room(CascadeStep(e, p, m, j, ev), p, m, After(p, z, ev))
  {
    TimebaseOne(p, j);
    FirstLag(p);
    assert CascadeOk(e, p, m, j);
    var f: nat :| f <= 256 && Frontier(e.ring.ciat, j, e.bins.sp[j], 2 * p.np, f, z);
    var cB := if m == Cross then ev.wB else 0;
    var fj := PushRing(e, p, m, j, ev.iat, ev.wA, cB, e.bins.iatnew[j], true, f, z);
    var r := Push(e, p, m, j, ev.iat, ev.wA, cB, e.bins.iatnew[j], true);
    assert r == CascadeStep(e, p, m, j, ev);
    var z' := Later(z, ev.iat, f);
    assert CascadeOk(r, p, m, j) by {
      assert fj <= 256 && z' < Spread(2 * p.np) && Frontier(r.ring.ciat, j, r.bins.sp[j], 2 * p.np, fj, z');
    }
    Others(e, r, p, m, j);
    FrontierWeaker(r.ring.ciat, j, r.bins.sp[j], 2 * p.np, fj, z', After(p, z, ev));
  }

  /** One cascade's step keeps the invariant, and the time-base-1
      cascade's room moves on with the event; the rest of the pass goes on
      from the state it leaves. */
  lemma StepOk(e: State, p: Params, m: Mode, j: nat, ev: Event, z: nat) returns (e': State)
    requires ValidParams(p) && Invariant(e, p, m) && j < p.nc
    requires Room(e, p, m, z) && z < Spread(2 * p.np) && ev.iat >= 0 && (j == 0 ==> EventOk(p, ev, z))
    ensures e' == CascadeStep(e, p, m, j, ev)
    ensures Invariant(e', p, m) && Room(e', p, m, if j == 0 then After(p, z, ev) else z)
    ensures Cascades(e, p, m, ev, j) == Cascades(e', p, m, ev, j + 1)
  {
    e' := CascadeStep(e, p, m, j, ev);
    assert Cascades(e, p, m, ev, j) == Cascades(e', p, m, ev, j + 1);
    if Timebase(p, j) == 1 {
      TimebaseOne(p, j);
      FineOk(e, p, m, j, ev, z);
    } else {
      if e.bins.mta[j] + ev.iat < Timebase(p, j) {
        FillOk(e, p, m, j, ev);
      } else {
        CloseOk(e, p, m, j, ev);
      }
      if j > 0 {
        RoomKept(e, e', p, m, j, z);
      }
    }
  }

  /** A pass of phase B over the cascades from j on keeps the invariant;
      the time-base-1 cascade's room moves on with the event at cascade 0. */
  lemma {:induction false} CascadesOk(e: State, p: Params, m: Mode, ev: Event, j: nat, z: nat)
    requires ValidParams(p) && Invariant(e, p, m) && j <= p.nc
    requires Room(e, p, m, z) && z < Spread(2 * p.np) && ev.iat >= 0 && (j == 0 ==> EventOk(p, ev, z))
    ensures Invariant(Cascades(e, p, m, ev, j), p, m)
    ensures Room(Cascades(e, p, m, ev, j), p, m, if j == 0 then After(p, z, ev) else z)
    decreases p.nc - j
  {
    if j < p.nc {
      var e' := StepOk(e, p, m, j, ev, z);
      CascadesOk(e', p, m, ev, j + 1, if j == 0 then After(p, z, ev) else z);
    }
  }

  /** The invariant carries over to an equal state. */
  lemma Transfer(a: State, b: State, p: Params, m: Mode)
    requires a == b && Invariant(a, p, m)
    ensures Invariant(b, p, m)
  {
  }

  /** From a state with room for a run of z zeros, phase B can go on over
      any batch admitted after that run. */
  lemma {:induction false} AheadFrom(e: State, p: Params, m: Mode, z: nat, evs: seq<Event>)
    requires ValidParams(p) && Invariant(e, p, m) && Room(e, p, m, z) && z < Spread(2 * p.np) && Admits(p, z, evs)
    ensures Ahead(e, p, m, z, evs)
    decreases |evs|
  {
    if evs != [] {
      CascadesOk(e, p, m, evs[0], 0, z);
      AheadFrom(Cascades(e, p, m, evs[0], 0), p, m, After(p, z, evs[0]), evs[1..]);
    }
  }

  /** Phase B starts on any admitted batch. */
  lemma Begin(e: State, p: Params, m: Mode, evs: seq<Event>)
    requires ValidParams(p) && Invariant(e, p, m) && EventsOk(p, evs)
    ensures 1 <= Spread(2 * p.np) && Ahead(e, p, m, Spread(2 * p.np) - 1, evs[0..])
  {
    Roomy(e, p, m);
    assert evs[0..] == evs;
    AheadFrom(e, p, m, Spread(2 * p.np) - 1, evs);
  }

  /** Where phase B can go on over a batch, the run over it keeps the
      invariant. */
  lemma {:induction false} AheadRun(e: State, p: Params, m: Mode, z: nat, evs: seq<Event>)
    requires Ahead(e, p, m, z, evs)
    ensures Invariant(Run(e, p, m, evs), p, m)
    decreases |evs|
  {
    if evs != [] {
      AheadRun(Cascades(e, p, m, evs[0], 0), p, m, After(p, z, evs[0]), evs[1..]);
    }
  }

  /** Phase B keeps the invariant over any admitted batch. */
  lemma RunOk(e: State, p: Params, m: Mode, evs: seq<Event>)
    requires ValidParams(p) && Invariant(e, p, m) && EventsOk(p, evs)
    ensures Invariant(Run(e, p, m, evs), p, m)
  {
    Begin(e, p, m, evs);
    assert evs[0..] == evs;
    AheadRun(e, p, m, Spread(2 * p.np) - 1, evs);
  }

  /** Every lag of cascade j is within its window's upper end 2np. */
  lemma LagWithin(p: Params, j: nat, ii: nat)
    requires ValidParams(p) && j < p.nc && ii < NtLag(p, j)
    ensures 1 <= LagAt(p, j, ii) <= 2 * p.np
  {
    LagOf(p, j, ii);
  }

  /** Phase C's walk for lag ii of cascade j ends inside the ring. */
  lemma PrepassEnds(e: State, p: Params, m: Mode, j: nat, ii: nat)
    requires ValidParams(p) && Invariant(e, p, m) && j < p.nc && ii < NtLag(p, j)
    ensures BehindEnds(e.ring.ciat, j, ByteDec(e.bins.sp[j]), LagAt(p, j, ii), 256)
  {
    assert CascadeOk(e, p, m, j);
    var f: nat, z: nat :| f <= 256 && z < Spread(2 * p.np) && Frontier(e.ring.ciat, j, e.bins.sp[j], 2 * p.np, f, z);
    LagWithin(p, j, ii);
    BehindStops(e.ring.ciat, j, e.bins.sp[j], 2 * p.np, f, z, LagAt(p, j, ii));
  }
}

/** What the loops of phase B need to know before they start: on every
    state the invariant admits, both inner loops of the correlation search
    after a push stop before their fuel runs out. The imperative search of
    class Gmn has no fuel; these facts are what make its loops end where
    the functions Skip and Gather stop. */
module EngineEnds {
  import opened JavaInt
  import opened Events
  import opened LagTable
  import opened Engine
  import opened EngineChain
  import opened EngineInvariant

  /** The first inner loop from st stops at a slot whose time has reached lo. */
  predicate SkipEnds(c: seq<int>, j: nat, st: int, add: int, lo: int)
    requires Fits(c, j) && IsByte(st)
  {
    var pr := Skip(c, j, st, add, lo, 256);
    pr.ciat[Slot(j, pr.st)] >= lo
  }

  /** The second inner loop from st stops at a slot whose time is outside
      the window. */
  predicate GatherEnds(c: seq<int>, s: Sums, wa: seq<int>, wb: seq<int>, p: Params, m: Mode,
                       j: nat, w: Window, st: int, add: int, cA: int, cB: int)
    requires ValidParams(p) && WindowOk(w, p) && SumsShaped(s, p, m) && IsByte(st)
    requires Fits(c, j) && Fits(wa, j) && (m == Cross ==> Fits(wb, j))
  {
    var t := Gather(c, s, wa, wb, p, m, j, w, st, add, cA, cB, 256);
    !(w.lo <= t.ciat[Slot(j, t.st)] <= w.hi)
  }

  /** Both loops of the search that follows a push of a bin of time d and
      weights cA, cB onto cascade j stop. */
  predicate PushEnds(e: State, p: Params, m: Mode, j: nat, d: int, cA: int, cB: int, add1: int, tb1: bool)
    requires ValidParams(p) && Shaped(e, p, m) && j < p.nc && (tb1 ==> j == 0)
  {
    var s := e.bins.sp[j];
    var c1 := Pushed(e.ring.ciat, j, s, d);
    var w := WindowOf(p, j, tb1, m);
    var st := ByteDec(ByteInc(s));
    c1[Slot(j, st)] <= w.hi ==>
      SkipEnds(c1, j, st, add1, w.lo) &&
      var pr := Skip(c1, j, st, add1, w.lo, 256);
      GatherEnds(pr.ciat, PushTails(e, p, m, j, d, cA, cB), PushedA(e, j, cA), PushedB(e, m, j, cB),
                 p, m, j, w, pr.st, d, cA, cB)
  }

  /** A push onto a ring with a frontier ends both loops of its search. */
  lemma PushStops(e: State, p: Params, m: Mode, j: nat, d: int, cA: int, cB: int, add1: int, tb1: bool, f: nat, z: nat)
    requires ValidParams(p) && Shaped(e, p, m) && j < p.nc && (tb1 ==> j == 0)
    requires Setup(e.ring.ciat, j, e.bins.sp[j], 2 * p.np, f, d, z)
    requires add1 == d || d >= WindowOf(p, j, tb1, m).lo
    ensures PushEnds(e, p, m, j, d, cA, cB, add1, tb1)
  {
    var s := e.bins.sp[j];
    var c1 := Pushed(e.ring.ciat, j, s, d);
    var w := WindowOf(p, j, tb1, m);
    var sums := PushTails(e, p, m, j, d, cA, cB);
    var wa := PushedA(e, j, cA);
    var wb := PushedB(e, m, j, cB);
    var _ := WalkChain(e.ring.ciat, j, s, f, d, sums, wa, wb, p, m, w, add1, cA, cB, z);
    var st := ByteDec(ByteInc(s));
    if c1[Slot(j, st)] <= w.hi {
      var pr := Skip(c1, j, st, add1, w.lo, 256);
      GatherSweep(pr.ciat, sums, wa, wb, p, m, j, w, pr.st, d, cA, cB, 256);
    }
  }

  /** On a state the invariant admits, the search of an event's push ends:
      on the time-base-1 cascade, where every event is pushed, and on a
      coarse cascade, where the open bin is pushed when it closes. */
  lemma StepEnds(e: State, p: Params, m: Mode, j: nat, ev: Event, z: nat)
    requires ValidParams(p) && Invariant(e, p, m) && j < p.nc
    requires Room(e, p, m, z) && z < Spread(2 * p.np) && ev.iat >= 0 && (j == 0 ==> EventOk(p, ev, z))
    ensures Timebase(p, j) == 1 ==>
      j == 0 && PushEnds(e, p, m, j, ev.iat, ev.wA, if m == Cross then ev.wB else 0, e.bins.iatnew[j], true)
    ensures Timebase(p, j) != 1 ==>
      PushEnds(e, p, m, j, e.bins.iatnew[j], e.bins.waTemp[j], if m == Cross then e.bins.wbTemp[j] else 0,
               e.bins.iatnew[j], false)
  {
    if Timebase(p, j) == 1 {
      TimebaseOne(p, j);
      FirstLag(p);
      var f: nat :| f <= 256 && Frontier(e.ring.ciat, j, e.bins.sp[j], 2 * p.np, f, z);
      PushStops(e, p, m, j, ev.iat, ev.wA, if m == Cross then ev.wB else 0, e.bins.iatnew[j], true, f, z);
    } else {
      assert CascadeOk(e, p, m, j);
      var f: nat, zj: nat :| f <= 256 && zj < Spread(2 * p.np) && Frontier(e.ring.ciat, j, e.bins.sp[j], 2 * p.np, f, zj) &&
                             (Timebase(p, j) == 1 || e.bins.iatnew[j] >= 1 || f == 1);
      PushStops(e, p, m, j, e.bins.iatnew[j], e.bins.waTemp[j], if m == Cross then e.bins.wbTemp[j] else 0,
                e.bins.iatnew[j], false, f, zj);
    }
  }
}

/** The tail corrections s01a of phase B, lag by lag: along the block of
    each cascade they never decrease, and the last of them is at most the
    cascade's total weight wAtotal. A lag's tail correction takes in a
    bin's weight exactly when the cascade's clock tlast is still below the
    lag, so a longer lag takes in every bin a shorter one does; and wAtotal
    takes in every bin. This needs the weights to be non-negative. */
module EngineTails {
  import opened JavaInt
  import opened Events
  import opened LagTable
  import opened Engine
  import opened EngineSteps
  import opened EngineLaws

  /** Block j of a: non-decreasing, and its last entry at most total. */
  predicate BlockOrdered(a: seq<int>, p: Params, j: nat, total: int)
    requires ValidParams(p) && j < p.nc && |a| == LagCount(p)
  {
    Tiling(p, j);
    var off, n := Offset(p, j), NtLag(p, j);
    (forall k :: off <= k < off + n - 1 ==> a[k] <= a[k + 1]) && a[off + n - 1] <= total
  }

  /** Every cascade's block of s01a is ordered below its wAtotal. */
  predicate TailsOrdered(a: seq<int>, total: seq<int>, p: Params)
    requires ValidParams(p) && |a| == LagCount(p) && |total| == p.nc
  {
    forall j: nat :: j < p.nc ==> BlockOrdered(a, p, j, total[j])
  }

  /** Every open bin weighs at least 0 on A. */
  predicate OpenNonNegative(waTemp: seq<int>)
  {
    forall j :: 0 <= j < |waTemp| ==> waTemp[j] >= 0
  }

  /** The open bins weigh at least 0 on A and the tail corrections are
      ordered. */
  predicate Ordered(e: State, p: Params, m: Mode)
    requires ValidParams(p) && Shaped(e, p, m)
  {
    OpenNonNegative(e.bins.waTemp) && TailsOrdered(e.sums.s01a, e.totals.waTotal, p)
  }

  /** Events whose weight on A is not negative. */
  predicate WeightsANonNegative(evs: seq<Event>)
  {
    forall i :: 0 <= i < |evs| ==> evs[i].wA >= 0
  }

  /** The blocks of two different cascades do not overlap. */
  lemma {:induction false} BlocksApart(p: Params, i: nat, j: nat)
    requires ValidParams(p) && i < j
    ensures Offset(p, i) + NtLag(p, i) <= Offset(p, j)
    decreases j - i
  {
    Tiling(p, i);
    if i + 1 < j {
      BlocksApart(p, i + 1, j);
      Tiling(p, i + 1);
    }
  }

  /** One tail correction of cascade j with a weight w >= 0 keeps block jj
      ordered; block j's bound grows by w. */
  lemma TailOrdered(a: seq<int>, p: Params, j: nat, tl: int, w: int, jj: nat, total: int)
    requires ValidParams(p) && j < p.nc && jj < p.nc && |a| == LagCount(p) && w >= 0
    requires BlockOrdered(a, p, jj, total)
    ensures BlockOrdered(Tail(a, p, j, tl, w, 0), p, jj, total + if jj == j then w else 0)
  {
    var r := Tail(a, p, j, tl, w, 0);
    Tiling(p, jj);
    var off, n := Offset(p, jj), NtLag(p, jj);
    if jj < j {
      BlocksApart(p, jj, j);
    } else if j < jj {
      BlocksApart(p, j, jj);
    }
    forall k | off <= k < off + n - 1
      ensures r[k] <= r[k + 1]
    {
      TailAt(a, p, j, tl, w, 0, k);
      TailAt(a, p, j, tl, w, 0, k + 1);
      if jj == j {
        LagOf(p, j, k - off);
        LagOf(p, j, k + 1 - off);
      }
    }
    TailAt(a, p, j, tl, w, 0, off + n - 1);
  }

  /** The walk of a search changes only lag products, never s01a. */
  lemma {:induction false} GatherKeepsTails(c: seq<int>, s: Sums, wa: seq<int>, wb: seq<int>, p: Params, m: Mode,
                                            j: nat, w: Window, st: int, add: int, cA: int, cB: int, fuel: nat)
    requires ValidParams(p) && WindowOk(w, p) && SumsShaped(s, p, m) && -128 <= st < 128
    requires |c| >= 256 * (j + 1) && |wa| >= 256 * (j + 1) && (m == Cross ==> |wb| >= 256 * (j + 1))
    ensures Gather(c, s, wa, wb, p, m, j, w, st, add, cA, cB, fuel).sums.s01a == s.s01a
    decreases fuel
  {
    var d := c[Slot(j, st)];
    if fuel > 0 && w.lo <= d <= w.hi {
      var sA := wa[Slot(j, st)];
      var sB := if m == Cross then wb[Slot(j, st)] else 0;
      var s' := Product(s, p, m, w.off + d - w.sub, cA, cB, sA, sB);
      var st' := ByteDec(st);
      GatherKeepsTails(c[Slot(j, st') := c[Slot(j, st')] + add], s', wa, wb, p, m, j, w, st', add, cA, cB, fuel - 1);
    }
  }

  /** The search after a push changes only lag products, never s01a. */
  lemma WalkKeepsTails(c: seq<int>, s: Sums, wa: seq<int>, wb: seq<int>, p: Params, m: Mode, j: nat, w: Window,
                       sp: int, add1: int, add2: int, cA: int, cB: int)
    requires ValidParams(p) && WindowOk(w, p) && SumsShaped(s, p, m) && -128 <= sp < 128
    requires |c| >= 256 * (j + 1) && |wa| >= 256 * (j + 1) && (m == Cross ==> |wb| >= 256 * (j + 1))
    ensures Walk(c, s, wa, wb, p, m, j, w, sp, add1, add2, cA, cB).sums.s01a == s.s01a
  {
    var st := ByteDec(sp);
    if c[Slot(j, st)] <= w.hi {
      var probe := Skip(c, j, st, add1, w.lo, 256);
      GatherKeepsTails(probe.ciat, s, wa, wb, p, m, j, w, probe.st, add2, cA, cB, 256);
    }
  }

  /** A push of a bin of weight cA >= 0 onto cascade j: s01a takes in the
      tail correction of the bin, wAtotal[j] takes in cA, and so the order
      is kept. */
  lemma PushOrdered(e: State, p: Params, m: Mode, j: nat, d: int, cA: int, cB: int, add1: int, tb1: bool)
    requires ValidParams(p) && Shaped(e, p, m) && j < p.nc && (tb1 ==> j == 0) && Ordered(e, p, m) && cA >= 0
    ensures Ordered(Push(e, p, m, j, d, cA, cB, add1, tb1), p, m)
  {
    var r := Push(e, p, m, j, d, cA, cB, add1, tb1);
    var tails := PushTails(e, p, m, j, d, cA, cB);
    var tl := e.totals.tlast[j] + d;
    WalkKeepsTails(Pushed(e.ring.ciat, j, e.bins.sp[j], d), tails, PushedA(e, j, cA), PushedB(e, m, j, cB), p, m, j,
                   WindowOf(p, j, tb1, m), ByteInc(e.bins.sp[j]), add1, d, cA, cB);
    assert r.sums.s01a == Tail(e.sums.s01a, p, j, tl, cA, 0);
    assert r.totals.waTotal == Add(e.totals.waTotal, j, cA);
    forall jj: nat | jj < p.nc
      ensures BlockOrdered(r.sums.s01a, p, jj, r.totals.waTotal[jj])
    {
      TailOrdered(e.sums.s01a, p, j, tl, cA, jj, e.totals.waTotal[jj]);
    }
  }

  /** One event of weight wA >= 0 in cascade j keeps the order. */
  lemma StepOrdered(e: State, p: Params, m: Mode, j: nat, ev: Event)
    requires ValidParams(p) && Shaped(e, p, m) && j < p.nc && Ordered(e, p, m) && ev.wA >= 0
    ensures Ordered(CascadeStep(e, p, m, j, ev), p, m)
  {
    var tb := Timebase(p, j);
    var b := e.bins;
    TimebaseOne(p, j);
    if tb == 1 || b.mta[j] + ev.iat >= tb {
      var fine := tb == 1;
      var cB := if m != Cross then 0 else if fine then ev.wB else b.wbTemp[j];
      PushOrdered(e, p, m, j, if fine then ev.iat else b.iatnew[j], if fine then ev.wA else b.waTemp[j],
                  cB, b.iatnew[j], fine);
    }
  }

  lemma OrderedStep(e: State, p: Params, m: Mode, ev: Event, j: nat) returns (e': State)
    requires ValidParams(p) && Shaped(e, p, m) && j < p.nc && Ordered(e, p, m) && ev.wA >= 0
    ensures Shaped(e', p, m) && Ordered(e', p, m)
    ensures Cascades(e, p, m, ev, j) == Cascades(e', p, m, ev, j + 1)
  {
    e' := CascadeStep(e, p, m, j, ev);
    CascadesUnfold(e, p, m, ev, j);
    StepOrdered(e, p, m, j, ev);
  }

  /** One event through cascades j .. nc - 1 keeps the order. */
  lemma {:induction false} CascadesOrdered(e: State, p: Params, m: Mode, ev: Event, j: nat)
    requires ValidParams(p) && Shaped(e, p, m) && j < p.nc && Ordered(e, p, m) && ev.wA >= 0
    ensures Ordered(Cascades(e, p, m, ev, j), p, m)
    decreases p.nc - j
  {
    var e' := OrderedStep(e, p, m, ev, j);
    if j + 1 < p.nc {
      CascadesOrdered(e', p, m, ev, j + 1);
    } else {
      CascadesDone(e', p, m, ev);
    }
  }

  /** The tail corrections stay ordered over a batch whose weights on A are
      not negative: s01a[off + ii] <= s01a[off + ii + 1] along every
      cascade's block, and the last of them is at most wAtotal. */
  lemma {:induction false} RunOrdered(e: State, p: Params, m: Mode, evs: seq<Event>)
    requires ValidParams(p) && Shaped(e, p, m) && Ordered(e, p, m) && WeightsANonNegative(evs)
    ensures Ordered(Run(e, p, m, evs), p, m)
    decreases |evs|
  {
    if evs != [] {
      CascadesOrdered(e, p, m, evs[0], 0);
      var e' := Cascades(e, p, m, evs[0], 0);
      assert Run(e, p, m, evs) == Run(e', p, m, evs[1..]);
      assert WeightsANonNegative(evs[1..]) by {
        forall i | 0 <= i < |evs[1..]|
          ensures evs[1..][i].wA >= 0
        {
          assert evs[1..][i] == evs[i + 1];
        }
      }
      RunOrdered(e', p, m, evs[1..]);
    }
  }

  /** The state initializeGmn leaves is ordered: every sum is 0. */
  lemma InitialOrdered(p: Params, m: Mode)
    requires ValidParams(p)
    ensures Ordered(Initial(p, m), p, m)
  {
    var e := Initial(p, m);
    forall j: nat | j < p.nc
      ensures BlockOrdered(e.sums.s01a, p, j, e.totals.waTotal[j])
    {
      Tiling(p, j);
    }
  }
}

/** Two laws that relate runs of phase B. The cross correlator fed events
    whose two weights agree keeps channel B's arrays equal to channel A's
    (and its four product sums equal); the higher-order correlator keeps
    the clocks, the ring, the channel-A totals and the sums s01a and s11aa
    exactly as the auto correlator does on the same events. */
module EngineSymmetry {
  import opened JavaInt
  import opened Events
  import opened LagTable
  import opened Engine
  import opened EngineLaws
  import opened EngineSteps

  // ----- Cross correlator with equal weights on both channels -----

  /** The sums of channel B mirror those of channel A. */
  predicate SumsMirrored(s: Sums)
  {
    s.s01b == s.s01a && s.s11bb == s.s11aa && s.s11ab == s.s11aa && s.s11ba == s.s11aa
  }

  /** Every array of channel B equals its channel-A counterpart. */
  predicate Mirrored(e: State)
  {
    e.ring.wb == e.ring.wa && e.bins.wbTemp == e.bins.waTemp && e.totals.wbTotal == e.totals.waTotal &&
    SumsMirrored(e.sums)
  }

  /** Events whose weight on B is their weight on A. */
  predicate EqualWeights(evs: seq<Event>)
  {
    forall i :: 0 <= i < |evs| ==> evs[i].wA == evs[i].wB
  }

  /** With non-negative weights the cross correlator's guards "both
      weights positive" change nothing: a product with a zero weight is 0. */
  lemma CrossGuards(s: Sums, p: Params, k: int, cA: int, cB: int, sA: int, sB: int)
    requires SumsShaped(s, p, Cross) && 0 <= k < LagCount(p)
    requires cA >= 0 && cB >= 0 && sA >= 0 && sB >= 0
    ensures Product(s, p, Cross, k, cA, cB, sA, sB) ==
      s.(s11aa := Add(s.s11aa, k, ToInt32(sA * cA)), s11ab := Add(s.s11ab, k, ToInt32(sA * cB)),
         s11bb := Add(s.s11bb, k, ToInt32(sB * cB)), s11ba := Add(s.s11ba, k, ToInt32(sB * cA)))
  {
    assert Add(s.s11aa, k, 0) == s.s11aa;
    assert Add(s.s11ab, k, 0) == s.s11ab;
    assert Add(s.s11bb, k, 0) == s.s11bb;
    assert Add(s.s11ba, k, 0) == s.s11ba;
  }

  /** Equal weights on both sides give the four product sums equal terms. */
  lemma ProductMirrored(s: Sums, p: Params, k: int, c: int, sw: int)
    requires SumsShaped(s, p, Cross) && 0 <= k < LagCount(p) && SumsMirrored(s)
    ensures SumsMirrored(Product(s, p, Cross, k, c, c, sw, sw))
  {
  }

  /** The walk keeps the sums mirrored when the ring's weights on B are
      those on A and the new bin's weights agree. */
  lemma {:induction false} GatherMirrored(c: seq<int>, s: Sums, wa: seq<int>, p: Params, j: nat, w: Window,
                                          st: int, add: int, cA: int, fuel: nat)
    requires ValidParams(p) && WindowOk(w, p) && SumsShaped(s, p, Cross) && -128 <= st < 128
    requires |c| >= 256 * (j + 1) && |wa| >= 256 * (j + 1) && SumsMirrored(s)
    ensures SumsMirrored(Gather(c, s, wa, wa, p, Cross, j, w, st, add, cA, cA, fuel).sums)
    decreases fuel
  {
    var d := c[Slot(j, st)];
    if fuel > 0 && w.lo <= d <= w.hi {
      var sA := wa[Slot(j, st)];
      var s' := Product(s, p, Cross, w.off + d - w.sub, cA, cA, sA, sA);
      ProductMirrored(s, p, w.off + d - w.sub, cA, sA);
      var st' := ByteDec(st);
      GatherMirrored(c[Slot(j, st') := c[Slot(j, st')] + add], s', wa, p, j, w, st', add, cA, fuel - 1);
    }
  }

  /** A push of a bin whose two weights agree keeps the state mirrored. */
  lemma PushMirrored(e: State, p: Params, j: nat, d: int, c: int, add1: int, tb1: bool)
    requires ValidParams(p) && Shaped(e, p, Cross) && j < p.nc && (tb1 ==> j == 0) && Mirrored(e)
    ensures Mirrored(Push(e, p, Cross, j, d, c, c, add1, tb1))
  {
    var s := e.bins.sp[j];
    var c1 := Pushed(e.ring.ciat, j, s, d);
    var w := WindowOf(p, j, tb1, Cross);
    var tails := PushTails(e, p, Cross, j, d, c, c);
    var wa := PushedA(e, j, c);
    assert PushedB(e, Cross, j, c) == wa;
    var st := ByteDec(ByteInc(s));
    assert SumsMirrored(tails);
    if c1[Slot(j, st)] <= w.hi {
      var probe := Skip(c1, j, st, add1, w.lo, 256);
      GatherMirrored(probe.ciat, tails, wa, p, j, w, probe.st, d, c, 256);
    }
  }

  /** One event with equal weights, in any cascade, keeps the state
      mirrored. */
  lemma StepMirrored(e: State, p: Params, j: nat, ev: Event)
    requires ValidParams(p) && Shaped(e, p, Cross) && j < p.nc && Mirrored(e) && ev.wA == ev.wB
    ensures Mirrored(CascadeStep(e, p, Cross, j, ev))
  {
    var tb := Timebase(p, j);
    var b := e.bins;
    if tb == 1 || b.mta[j] + ev.iat >= tb {
      TimebaseOne(p, j);
      var fine := tb == 1;
      PushMirrored(e, p, j, if fine then ev.iat else b.iatnew[j], if fine then ev.wA else b.waTemp[j],
                   b.iatnew[j], fine);
    }
  }

  /** One step of the pass, named, with the state it leaves. */
  lemma MirroredStep(e: State, p: Params, ev: Event, j: nat) returns (e': State)
    requires ValidParams(p) && Shaped(e, p, Cross) && j < p.nc && Mirrored(e) && ev.wA == ev.wB
    ensures Shaped(e', p, Cross) && Mirrored(e') && Cascades(e, p, Cross, ev, j) == Cascades(e', p, Cross, ev, j + 1)
  {
    e' := CascadeStep(e, p, Cross, j, ev);
    CascadesUnfold(e, p, Cross, ev, j);
    StepMirrored(e, p, j, ev);
  }

  /** A pass over the cascades from j on keeps the state mirrored. */
  lemma {:induction false} CascadesMirrored(e: State, p: Params, ev: Event, j: nat)
    requires ValidParams(p) && Shaped(e, p, Cross) && j <= p.nc && Mirrored(e) && ev.wA == ev.wB
    ensures Mirrored(Cascades(e, p, Cross, ev, j))
    decreases p.nc - j
  {
    if j < p.nc {
      var e' := MirroredStep(e, p, ev, j);
      CascadesMirrored(e', p, ev, j + 1);
    }
  }

  /** Cross symmetry: from the state initializeGmn leaves, or any mirrored
      one, a batch of events with equal weights on A and B leaves wBtotal
      equal to wAtotal, s01b to s01a, and s11bb, s11ab and s11ba to s11aa. */
  lemma {:induction false} RunMirrored(e: State, p: Params, evs: seq<Event>)
    requires ValidParams(p) && Shaped(e, p, Cross) && Mirrored(e) && EqualWeights(evs)
    ensures Mirrored(Run(e, p, Cross, evs))
    decreases |evs|
  {
    if evs != [] {
      CascadesMirrored(e, p, evs[0], 0);
      var e' := Cascades(e, p, Cross, evs[0], 0);
      assert Run(e, p, Cross, evs) == Run(e', p, Cross, evs[1..]);
      assert EqualWeights(evs[1..]) by {
        forall i | 0 <= i < |evs[1..]|
          ensures evs[1..][i].wA == evs[1..][i].wB
        {
          assert evs[1..][i] == evs[i + 1];
        }
      }
      RunMirrored(e', p, evs[1..]);
    }
  }

  lemma InitialMirrored(p: Params)
    requires ValidParams(p)
    ensures Mirrored(Initial(p, Cross))
  {
  }

  // ----- The higher-order correlator against the auto correlator -----

  /** A higher-order state h and an auto state a agree on everything the
      auto correlator keeps: the ring, the bins, tlast, wAtotal, s01a and
      s11aa. */
  predicate Agrees(h: State, a: State)
  {
    h.ring == a.ring && h.bins == a.bins && h.totals.tlast == a.totals.tlast &&
    h.totals.waTotal == a.totals.waTotal && h.sums.s01a == a.sums.s01a && h.sums.s11aa == a.sums.s11aa
  }

  /** The two walks visit the same slots and leave the same ring times;
      their s11aa sums take the same products. */
  lemma {:induction false} GatherAgrees(c: seq<int>, sh: Sums, sa: Sums, wa: seq<int>, wb: seq<int>, p: Params,
                                        j: nat, w: Window, st: int, add: int, cA: int, fuel: nat)
    requires ValidParams(p) && WindowOk(w, p) && SumsShaped(sh, p, HighOrder) && SumsShaped(sa, p, Auto)
    requires -128 <= st < 128 && |c| >= 256 * (j + 1) && |wa| >= 256 * (j + 1)
    requires sh.s01a == sa.s01a && sh.s11aa == sa.s11aa
    ensures var th := Gather(c, sh, wa, wb, p, HighOrder, j, w, st, add, cA, 0, fuel);
      var ta := Gather(c, sa, wa, wb, p, Auto, j, w, st, add, cA, 0, fuel);
      th.ciat == ta.ciat && th.st == ta.st && th.sums.s01a == ta.sums.s01a && th.sums.s11aa == ta.sums.s11aa
    decreases fuel
  {
    var d := c[Slot(j, st)];
    if fuel > 0 && w.lo <= d <= w.hi {
      var sA := wa[Slot(j, st)];
      var k := w.off + d - w.sub;
      var sh' := Product(sh, p, HighOrder, k, cA, 0, sA, 0);
      var sa' := Product(sa, p, Auto, k, cA, 0, sA, 0);
      var st' := ByteDec(st);
      GatherAgrees(c[Slot(j, st') := c[Slot(j, st')] + add], sh', sa', wa, wb, p, j, w, st', add, cA, fuel - 1);
    }
  }

  /** A push of the same bin onto agreeing states leaves agreeing states. */
  lemma PushAgrees(h: State, a: State, p: Params, j: nat, d: int, cA: int, add1: int, tb1: bool)
    requires ValidParams(p) && Shaped(h, p, HighOrder) && Shaped(a, p, Auto) && j < p.nc && (tb1 ==> j == 0)
    requires Agrees(h, a)
    ensures Agrees(Push(h, p, HighOrder, j, d, cA, 0, add1, tb1), Push(a, p, Auto, j, d, cA, 0, add1, tb1))
  {
    var s := a.bins.sp[j];
    var c1 := Pushed(a.ring.ciat, j, s, d);
    var w := WindowOf(p, j, tb1, Auto);
    assert WindowOf(p, j, tb1, HighOrder) == w;
    var th := PushTails(h, p, HighOrder, j, d, cA, 0);
    var ta := PushTails(a, p, Auto, j, d, cA, 0);
    assert th.s01a == ta.s01a && th.s11aa == ta.s11aa;
    var wa := PushedA(a, j, cA);
    assert PushedA(h, j, cA) == wa;
    assert PushedB(h, HighOrder, j, 0) == PushedB(a, Auto, j, 0);
    var st := ByteDec(ByteInc(s));
    if c1[Slot(j, st)] <= w.hi {
      var probe := Skip(c1, j, st, add1, w.lo, 256);
      GatherAgrees(probe.ciat, th, ta, wa, a.ring.wb, p, j, w, probe.st, d, cA, 256);
    }
  }

  /** The same event in the same cascade of agreeing states. */
  lemma StepAgrees(h: State, a: State, p: Params, j: nat, ev: Event)
    requires ValidParams(p) && Shaped(h, p, HighOrder) && Shaped(a, p, Auto) && j < p.nc && Agrees(h, a)
    ensures Agrees(CascadeStep(h, p, HighOrder, j, ev), CascadeStep(a, p, Auto, j, ev))
  {
    var tb := Timebase(p, j);
    var b := a.bins;
    if tb == 1 || b.mta[j] + ev.iat >= tb {
      TimebaseOne(p, j);
      var fine := tb == 1;
      PushAgrees(h, a, p, j, if fine then ev.iat else b.iatnew[j], if fine then ev.wA else b.waTemp[j],
                 b.iatnew[j], fine);
    }
  }

  /** One step of both passes, named, with the states they leave. */
  lemma AgreesStep(h: State, a: State, p: Params, ev: Event, j: nat) returns (h': State, a': State)
    requires ValidParams(p) && Shaped(h, p, HighOrder) && Shaped(a, p, Auto) && j < p.nc && Agrees(h, a)
    ensures Shaped(h', p, HighOrder) && Shaped(a', p, Auto) && Agrees(h', a')
    ensures Cascades(h, p, HighOrder, ev, j) == Cascades(h', p, HighOrder, ev, j + 1)
    ensures Cascades(a, p, Auto, ev, j) == Cascades(a', p, Auto, ev, j + 1)
  {
    h' := CascadeStep(h, p, HighOrder, j, ev);
    a' := CascadeStep(a, p, Auto, j, ev);
    CascadesUnfold(h, p, HighOrder, ev, j);
    CascadesUnfold(a, p, Auto, ev, j);
    StepAgrees(h, a, p, j, ev);
  }

  lemma {:induction false} CascadesAgree(h: State, a: State, p: Params, ev: Event, j: nat)
    requires ValidParams(p) && Shaped(h, p, HighOrder) && Shaped(a, p, Auto) && j <= p.nc && Agrees(h, a)
    ensures Agrees(Cascades(h, p, HighOrder, ev, j), Cascades(a, p, Auto, ev, j))
    decreases p.nc - j
  {
    if j < p.nc {
      var h', a' := AgreesStep(h, a, p, ev, j);
      CascadesAgree(h', a', p, ev, j + 1);
    }
  }

  /** The higher-order path: over any batch, updateCorrAutoHOmltInt leaves
      tlast, wAtotal, s01a and s11aa (and the ring and the bins) exactly as
      updateCorrAutoInt does from agreeing states, in particular from the
      states initializeGmn leaves for the two modes. */
  lemma {:induction false} RunAgrees(h: State, a: State, p: Params, evs: seq<Event>)
    requires ValidParams(p) && Shaped(h, p, HighOrder) && Shaped(a, p, Auto) && Agrees(h, a)
    ensures Agrees(Run(h, p, HighOrder, evs), Run(a, p, Auto, evs))
    decreases |evs|
  {
    if evs != [] {
      CascadesAgree(h, a, p, evs[0], 0);
      var h' := Cascades(h, p, HighOrder, evs[0], 0);
      var a' := Cascades(a, p, Auto, evs[0], 0);
      assert Run(h, p, HighOrder, evs) == Run(h', p, HighOrder, evs[1..]);
      assert Run(a, p, Auto, evs) == Run(a', p, Auto, evs[1..]);
      RunAgrees(h', a', p, evs[1..]);
    }
  }

  lemma InitialAgrees(p: Params)
    requires ValidParams(p)
    ensures Agrees(Initial(p, HighOrder), Initial(p, Auto))
  {
  }

  // ----- The higher-order sums on the time-base-1 cascade -----

  predicate Binary(x: int)
  {
    x == 0 || x == 1
  }

  /** Index k of the sums: the powers of 0/1 weights are the weights. */
  predicate PowersAt(s: Sums, k: int)
    requires 0 <= k < |s.s01a| && 0 <= k < |s.s11aa| && |s.s02a| == |s.s03a| == |s.s01a|
    requires |s.s12aa| == |s.s21aa| == |s.s13aa| == |s.s31aa| == |s.s22aa| == |s.s11aa|
  {
    s.s02a[k] == s.s01a[k] && s.s03a[k] == s.s01a[k] &&
    s.s12aa[k] == s.s11aa[k] && s.s21aa[k] == s.s11aa[k] && s.s13aa[k] == s.s11aa[k] &&
    s.s31aa[k] == s.s11aa[k] && s.s22aa[k] == s.s11aa[k]
  }

  /** The block of cascade 0 (its 2np lags) has equal power sums. */
  predicate BlockPowers(s: Sums, p: Params)
    requires ValidParams(p) && SumsShaped(s, p, HighOrder)
  {
    Tiling(p, 0);
    forall k :: 0 <= k < 2 * p.np ==> PowersAt(s, k)
  }

  /** The higher-order state of cascade 0 when its bins are single events
      of weight 0 or 1: its ring weights are 0 or 1, wAtotal2[0] and
      wAtotal3[0] equal wAtotal[0], and its block of the sums has s02a and
      s03a equal to s01a and s12aa .. s22aa equal to s11aa. */
  predicate Powers(e: State, p: Params)
    requires ValidParams(p) && Shaped(e, p, HighOrder)
  {
    (forall i :: 0 <= i < 256 ==> Binary(e.ring.wa[i])) &&
    e.totals.waTotal2[0] == e.totals.waTotal[0] && e.totals.waTotal3[0] == e.totals.waTotal[0] &&
    BlockPowers(e.sums, p)
  }

  /** Events whose weight on A is 0 or 1. */
  predicate BinaryWeights(evs: seq<Event>)
  {
    forall i :: 0 <= i < |evs| ==> Binary(evs[i].wA)
  }

  lemma BinaryProducts(c: int, x: int)
    requires Binary(c) && Binary(x)
    ensures c * c == c && c * c * c == c
    ensures c * x * c == c * x && c * x * x == c * x && c * x * c * c == c * x
    ensures c * x * x * x == c * x && c * x * c * x == c * x
  {
  }

  /** Every cascade but 0 has its block past cascade 0's. */
  lemma PastBlockZero(p: Params, j: nat)
    requires ValidParams(p) && j >= 1
    ensures Offset(p, j) >= 2 * p.np
  {
    TimesUp(2, j + 1, p.np, p.np);
    assert Times(2, p.np) == 2 * p.np;
  }

  /** One product: at an index past cascade 0's block nothing of the block
      changes; inside it, 0/1 weights add the same term to every power. */
  lemma ProductPowers(s: Sums, p: Params, k: int, c: int, x: int)
    requires ValidParams(p) && SumsShaped(s, p, HighOrder) && 0 <= k < LagCount(p) && BlockPowers(s, p)
    requires k >= 2 * p.np || (Binary(c) && Binary(x))
    ensures BlockPowers(Product(s, p, HighOrder, k, c, 0, x, 0), p)
  {
    var r := Product(s, p, HighOrder, k, c, 0, x, 0);
    Tiling(p, 0);
    if k < 2 * p.np {
      BinaryProducts(c, x);
    }
    forall i | 0 <= i < 2 * p.np
      ensures PowersAt(r, i)
    {
      assert PowersAt(s, i);
    }
  }

  /** The walk of cascade j: past cascade 0's block it leaves the block
      alone; on cascade 0 with a 0/1 bin weight and 0/1 ring weights it
      keeps the powers equal. */
  lemma {:induction false} GatherPowers(c: seq<int>, s: Sums, wa: seq<int>, wb: seq<int>, p: Params, j: nat,
                                        w: Window, st: int, add: int, cA: int, fuel: nat)
    requires ValidParams(p) && WindowOk(w, p) && SumsShaped(s, p, HighOrder) && -128 <= st < 128
    requires |c| >= 256 * (j + 1) && |wa| >= 256 * (j + 1) && BlockPowers(s, p)
    requires w.off >= 2 * p.np || (j == 0 && Binary(cA) && forall i :: 0 <= i < 256 ==> Binary(wa[i]))
    ensures BlockPowers(Gather(c, s, wa, wb, p, HighOrder, j, w, st, add, cA, 0, fuel).sums, p)
    decreases fuel
  {
    var d := c[Slot(j, st)];
    if fuel > 0 && w.lo <= d <= w.hi {
      var sA := wa[Slot(j, st)];
      var k := w.off + d - w.sub;
      ProductPowers(s, p, k, cA, sA);
      var s' := Product(s, p, HighOrder, k, cA, 0, sA, 0);
      var st' := ByteDec(st);
      GatherPowers(c[Slot(j, st') := c[Slot(j, st')] + add], s', wa, wb, p, j, w, st', add, cA, fuel - 1);
    }
  }

  /** The tail corrections of a push: on cascade 0 the same lags gain the
      bin weight and its powers; on any other cascade the block of cascade
      0 is not touched. */
  lemma TailsPowers(e: State, p: Params, j: nat, d: int, cA: int)
    requires ValidParams(p) && Shaped(e, p, HighOrder) && j < p.nc && BlockPowers(e.sums, p)
    requires j == 0 ==> Binary(cA)
    ensures BlockPowers(PushTails(e, p, HighOrder, j, d, cA, 0), p)
  {
    var s := e.sums;
    var r := PushTails(e, p, HighOrder, j, d, cA, 0);
    var tl := e.totals.tlast[j] + d;
    Tiling(p, 0);
    if j == 0 {
      BinaryProducts(cA, 0);
    } else {
      PastBlockZero(p, j);
    }
    forall k | 0 <= k < 2 * p.np
      ensures PowersAt(r, k)
    {
      assert PowersAt(s, k);
      TailAt(s.s01a, p, j, tl, cA, 0, k);
      TailAt(s.s02a, p, j, tl, ToInt32(cA * cA), 0, k);
      TailAt(s.s03a, p, j, tl, ToInt32(cA * cA * cA), 0, k);
    }
  }

  /** A push onto cascade j keeps the powers equal; on cascade 0 the bin
      must weigh 0 or 1. */
  lemma PushPowers(e: State, p: Params, j: nat, d: int, cA: int, add1: int, tb1: bool)
    requires ValidParams(p) && Shaped(e, p, HighOrder) && j < p.nc && (tb1 ==> j == 0) && Powers(e, p)
    requires j == 0 ==> Binary(cA)
    ensures Powers(Push(e, p, HighOrder, j, d, cA, 0, add1, tb1), p)
  {
    var r := Push(e, p, HighOrder, j, d, cA, 0, add1, tb1);
    var s := e.bins.sp[j];
    var c1 := Pushed(e.ring.ciat, j, s, d);
    var w := WindowOf(p, j, tb1, HighOrder);
    var tails := PushTails(e, p, HighOrder, j, d, cA, 0);
    TailsPowers(e, p, j, d, cA);
    var wa := PushedA(e, j, cA);
    assert forall i :: 0 <= i < 256 ==> Binary(wa[i]);
    if j > 0 {
      PastBlockZero(p, j);
    } else {
      BinaryProducts(cA, 0);
    }
    var st := ByteDec(ByteInc(s));
    if c1[Slot(j, st)] <= w.hi {
      var probe := Skip(c1, j, st, add1, w.lo, 256);
      GatherPowers(probe.ciat, tails, wa, PushedB(e, HighOrder, j, 0), p, j, w, probe.st, d, cA, 256);
    }
  }

  /** With the finest time base 1, one event of weight 0 or 1 on A, in any
      cascade, keeps the powers equal. */
  lemma StepPowers(e: State, p: Params, j: nat, ev: Event)
    requires ValidParams(p) && p.t0 == 1 && Shaped(e, p, HighOrder) && j < p.nc && Powers(e, p) && Binary(ev.wA)
    ensures Powers(CascadeStep(e, p, HighOrder, j, ev), p)
  {
    var tb := Timebase(p, j);
    var b := e.bins;
    TimebaseOne(p, j);
    if tb == 1 || b.mta[j] + ev.iat >= tb {
      var fine := tb == 1;
      PushPowers(e, p, j, if fine then ev.iat else b.iatnew[j], if fine then ev.wA else b.waTemp[j],
                 b.iatnew[j], fine);
    }
  }

  lemma PowersStep(e: State, p: Params, ev: Event, j: nat) returns (e': State)
    requires ValidParams(p) && p.t0 == 1 && Shaped(e, p, HighOrder) && j < p.nc && Powers(e, p) && Binary(ev.wA)
    ensures Shaped(e', p, HighOrder) && Powers(e', p)
    ensures Cascades(e, p, HighOrder, ev, j) == Cascades(e', p, HighOrder, ev, j + 1)
  {
    e' := CascadeStep(e, p, HighOrder, j, ev);
    CascadesUnfold(e, p, HighOrder, ev, j);
    StepPowers(e, p, j, ev);
  }

  lemma {:induction false} CascadesPowers(e: State, p: Params, ev: Event, j: nat)
    requires ValidParams(p) && p.t0 == 1 && Shaped(e, p, HighOrder) && j <= p.nc && Powers(e, p) && Binary(ev.wA)
    ensures Powers(Cascades(e, p, HighOrder, ev, j), p)
    decreases p.nc - j
  {
    if j < p.nc {
      var e' := PowersStep(e, p, ev, j);
      CascadesPowers(e', p, ev, j + 1);
    }
  }

  /** The higher-order power sums on the time-base-1 cascade: when the
      finest time base is 1 and every event weighs 0 or 1 on A, a batch
      leaves wAtotal2[0] = wAtotal3[0] = wAtotal[0], s02a = s03a = s01a and
      s12aa = s21aa = s13aa = s31aa = s22aa = s11aa on cascade 0's lags. */
  lemma {:induction false} RunPowers(e: State, p: Params, evs: seq<Event>)
    requires ValidParams(p) && p.t0 == 1 && Shaped(e, p, HighOrder) && Powers(e, p) && BinaryWeights(evs)
    ensures Powers(Run(e, p, HighOrder, evs), p)
    decreases |evs|
  {
    if evs != [] {
      CascadesPowers(e, p, evs[0], 0);
      var e' := Cascades(e, p, HighOrder, evs[0], 0);
      assert Run(e, p, HighOrder, evs) == Run(e', p, HighOrder, evs[1..]);
      assert BinaryWeights(evs[1..]) by {
        forall i | 0 <= i < |evs[1..]|
          ensures Binary(evs[1..][i].wA)
        {
          assert evs[1..][i] == evs[i + 1];
        }
      }
      RunPowers(e', p, evs[1..]);
    }
  }

  lemma InitialPowers(p: Params)
    requires ValidParams(p)
    ensures Powers(Initial(p, HighOrder), p)
  {
    Tiling(p, 0);
  }
}

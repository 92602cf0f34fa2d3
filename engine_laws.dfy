/** Laws of phase B and phase C: what each event does to the clocks and
    totals of the cascades, the conservation of ticks and weights over a
    batch, the bound on the open bin's ticks, splitting a batch, and the
    order of phase C's sums over the lags. */
module EngineLaws {
  import opened JavaInt
  import opened Events
  import opened LagTable
  import opened Engine

  /** A push (closing a bin of time d and weights cA, cB) adds d to the
      cascade's clock tlast[j] and the bin's weights to its totals, moves
      its pointer one slot on, and stores the weights in the new slot. */
  lemma PushEffect(e: State, p: Params, m: Mode, j: nat, d: int, cA: int, cB: int, add1: int, tb1: bool)
    requires ValidParams(p) && Shaped(e, p, m) && j < p.nc && (tb1 ==> j == 0)
    ensures var r := Push(e, p, m, j, d, cA, cB, add1, tb1);
      var t := e.totals;
      r.totals.tlast == Add(t.tlast, j, d) && r.totals.waTotal == Add(t.waTotal, j, cA) &&
      (m == Cross ==> r.totals.wbTotal == Add(t.wbTotal, j, cB)) &&
      (m == HighOrder ==> r.totals.waTotal2 == Add(t.waTotal2, j, ToInt32(cA * cA)) &&
                          r.totals.waTotal3 == Add(t.waTotal3, j, ToInt32(cA * cA * cA))) &&
      r.bins == e.bins.(sp := e.bins.sp[j := ByteInc(e.bins.sp[j])]) &&
      r.ring.wa == PushedA(e, j, cA) && r.ring.wb == PushedB(e, m, j, cB)
  {
  }

  /** One event on the time-base-1 cascade pushes it as its own bin. */
  lemma FineEffect(e: State, p: Params, m: Mode, j: nat, ev: Event)
    requires ValidParams(p) && Shaped(e, p, m) && j < p.nc && Timebase(p, j) == 1
    ensures var r := CascadeStep(e, p, m, j, ev);
      var t := e.totals;
      r.totals.tlast == Add(t.tlast, j, ev.iat) && r.totals.waTotal == Add(t.waTotal, j, ev.wA) &&
      (m == Cross ==> r.totals.wbTotal == Add(t.wbTotal, j, ev.wB)) &&
      r.bins == e.bins.(sp := e.bins.sp[j := ByteInc(e.bins.sp[j])])
  {
    TimebaseOne(p, j);
    PushEffect(e, p, m, j, ev.iat, ev.wA, if m == Cross then ev.wB else 0, e.bins.iatnew[j], true);
  }

  /** An event that leaves a coarse cascade's bin open adds its ticks to
      mta[j] and its weights to the open bin, and nothing else. */
  lemma FillEffect(e: State, p: Params, m: Mode, j: nat, ev: Event)
    requires ValidParams(p) && Shaped(e, p, m) && j < p.nc
    requires Timebase(p, j) != 1 && e.bins.mta[j] + ev.iat < Timebase(p, j)
    ensures var r := CascadeStep(e, p, m, j, ev);
      r.totals == e.totals && r.bins == FillBin(e.bins, p, m, j, e.bins.mta[j] + ev.iat, ev.wA, ev.wB)
  {
  }

  /** An event that closes a coarse cascade's bin pushes the bin's coarse
      time iatnew[j] and weights, and splits the open ticks into whole time
      bases (the next coarse time) and a remainder below one time base;
      the event's weights start the next bin. */
  lemma CloseEffect(e: State, p: Params, m: Mode, j: nat, ev: Event)
    requires ValidParams(p) && Shaped(e, p, m) && j < p.nc
    requires Timebase(p, j) != 1 && e.bins.mta[j] + ev.iat >= Timebase(p, j)
    ensures var r := CascadeStep(e, p, m, j, ev);
      var t := e.totals;
      var b := e.bins;
      var q := r.bins.iatnew[j];
      var rest := r.bins.mta[j];
      r.totals.tlast == Add(t.tlast, j, b.iatnew[j]) && r.totals.waTotal == Add(t.waTotal, j, b.waTemp[j]) &&
      (m == Cross ==> r.totals.wbTotal == Add(t.wbTotal, j, b.wbTemp[j])) &&
      1 <= Timebase(p, j) && Times(Timebase(p, j), q) + rest == b.mta[j] + ev.iat && 0 <= rest < Timebase(p, j) &&
      r.bins == CloseBin(b.(sp := b.sp[j := ByteInc(b.sp[j])]), p, m, j, rest, q, ev.wA, ev.wB)
  {
    var b := e.bins;
    var tb := Timebase(p, j);
    var mta := b.mta[j] + ev.iat;
    var e1 := Push(e, p, m, j, b.iatnew[j], b.waTemp[j], if m == Cross then b.wbTemp[j] else 0, b.iatnew[j], false);
    assert CascadeStep(e, p, m, j, ev) == Close(e1, p, m, j, mta, ev);
    PushEffect(e, p, m, j, b.iatnew[j], b.waTemp[j], if m == Cross then b.wbTemp[j] else 0, b.iatnew[j], false);
    TimebaseUp(p, j, j);
    CoarseSplit(mta, tb);
    TimesIsProduct(tb, mta / tb);
  }

  /** Whole time bases and the remainder, as Close computes them. */
  lemma CoarseSplit(x: int, tb: int)
    requires tb >= 1
    ensures tb * (x / tb) + (x - (x / tb) * tb) == x && 0 <= x - (x / tb) * tb < tb
  {
    assert x == tb * (x / tb) + x % tb;
  }

  /** The ticks cascade j has taken in: its closed bins (tlast), the bin
      waiting to be pushed (iatnew), both in time-base units, and the ticks
      of the open bin (mta). */
  function Clock(e: State, p: Params, j: nat): int
    requires p.t0 >= 1 && j < |e.totals.tlast| && j < |e.bins.iatnew| && j < |e.bins.mta|
  {
    TimebaseUp(p, j, j);
    Times(Timebase(p, j), e.totals.tlast[j] + e.bins.iatnew[j]) + e.bins.mta[j]
  }

  /** The weight cascade j has taken in on channel A: its total and its
      open bin. */
  function WeightA(e: State, j: nat): int
    requires j < |e.totals.waTotal| && j < |e.bins.waTemp|
  {
    e.totals.waTotal[j] + e.bins.waTemp[j]
  }

  function WeightB(e: State, j: nat): int
    requires j < |e.totals.wbTotal| && j < |e.bins.wbTemp|
  {
    e.totals.wbTotal[j] + e.bins.wbTemp[j]
  }

  /** An event advances the clock of cascade k by its iat, whichever branch
      it takes, and leaves every other cascade's clock alone. */
  lemma ClockStep(e: State, p: Params, m: Mode, k: nat, ev: Event, j: nat)
    requires ValidParams(p) && Shaped(e, p, m) && k < p.nc && j < p.nc
    ensures Clock(CascadeStep(e, p, m, k, ev), p, j) == Clock(e, p, j) + (if j == k then ev.iat else 0)
  {
    if Timebase(p, k) == 1 {
      ClockFine(e, p, m, k, ev, j);
    } else if e.bins.mta[k] + ev.iat < Timebase(p, k) {
      ClockFill(e, p, m, k, ev, j);
    } else {
      ClockClose(e, p, m, k, ev, j);
    }
  }

  lemma ClockFine(e: State, p: Params, m: Mode, k: nat, ev: Event, j: nat)
    requires ValidParams(p) && Shaped(e, p, m) && k < p.nc && j < p.nc && Timebase(p, k) == 1
    ensures Clock(CascadeStep(e, p, m, k, ev), p, j) == Clock(e, p, j) + (if j == k then ev.iat else 0)
  {
    var r := CascadeStep(e, p, m, k, ev);
    FineEffect(e, p, m, k, ev);
    if j == k {
      assert Timebase(p, j) == 1;
      TimesOne(ev.iat);
      ClockMove(e, r, p, m, j, ev.iat, ev.iat);
    } else {
      ClockMove(e, r, p, m, j, 0, 0);
    }
  }

  lemma ClockFill(e: State, p: Params, m: Mode, k: nat, ev: Event, j: nat)
    requires ValidParams(p) && Shaped(e, p, m) && k < p.nc && j < p.nc
    requires Timebase(p, k) != 1 && e.bins.mta[k] + ev.iat < Timebase(p, k)
    ensures Clock(CascadeStep(e, p, m, k, ev), p, j) == Clock(e, p, j) + (if j == k then ev.iat else 0)
  {
    var r := CascadeStep(e, p, m, k, ev);
    FillEffect(e, p, m, k, ev);
    ClockMove(e, r, p, m, j, if j == k then ev.iat else 0, 0);
  }

  lemma ClockClose(e: State, p: Params, m: Mode, k: nat, ev: Event, j: nat)
    requires ValidParams(p) && Shaped(e, p, m) && k < p.nc && j < p.nc
    requires Timebase(p, k) != 1 && e.bins.mta[k] + ev.iat >= Timebase(p, k)
    ensures Clock(CascadeStep(e, p, m, k, ev), p, j) == Clock(e, p, j) + (if j == k then ev.iat else 0)
  {
    var r := CascadeStep(e, p, m, k, ev);
    CloseEffect(e, p, m, k, ev);
    if j == k {
      ClockMove(e, r, p, m, j, ev.iat, r.bins.iatnew[j]);
    } else {
      ClockMove(e, r, p, m, j, 0, 0);
    }
  }

  /** The clock moves by d when q whole time bases enter the pushed and
      waiting bins and the open bin's ticks make up the rest of d. */
  lemma ClockMove(e: State, r: State, p: Params, m: Mode, j: nat, d: int, q: int)
    requires ValidParams(p) && Shaped(e, p, m) && Shaped(r, p, m) && j < p.nc
    requires r.totals.tlast[j] + r.bins.iatnew[j] == e.totals.tlast[j] + e.bins.iatnew[j] + q
    requires (q == 0 && r.bins.mta[j] == e.bins.mta[j] + d) ||
             (1 <= Timebase(p, j) && Times(Timebase(p, j), q) + r.bins.mta[j] == e.bins.mta[j] + d)
    ensures Clock(r, p, j) == Clock(e, p, j) + d
  {
    TimebaseUp(p, j, j);
    TimesAdd(Timebase(p, j), e.totals.tlast[j] + e.bins.iatnew[j], q);
    if q == 0 {
      TimesAdd(Timebase(p, j), 0, 0);
    }
  }

  lemma TimesOne(x: int)
    ensures Times(1, x) == x
  {
  }

  /** Repeated addition distributes over a sum. */
  lemma {:induction false} TimesAdd(n: nat, a: int, b: int)
    ensures Times(n, a + b) == Times(n, a) + Times(n, b)
  {
    if n > 0 {
      TimesAdd(n - 1, a, b);
    }
  }

  /** An event adds its weights to cascade k's and to no other's. */
  lemma WeightStep(e: State, p: Params, m: Mode, k: nat, ev: Event, j: nat)
    requires ValidParams(p) && Shaped(e, p, m) && k < p.nc && j < p.nc
    ensures WeightA(CascadeStep(e, p, m, k, ev), j) == WeightA(e, j) + (if j == k then ev.wA else 0)
    ensures m == Cross ==>
      WeightB(CascadeStep(e, p, m, k, ev), j) == WeightB(e, j) + (if j == k then ev.wB else 0)
  {
    if Timebase(p, k) == 1 {
      FineEffect(e, p, m, k, ev);
    } else if e.bins.mta[k] + ev.iat < Timebase(p, k) {
      FillEffect(e, p, m, k, ev);
    } else {
      CloseEffect(e, p, m, k, ev);
    }
  }

  /** What cascade j shows: its clock and the weights it has taken in (on
      channel B only for the cross correlator). */
  datatype Reading = Reading(clock: int, wA: int, wB: int)

  function ReadingOf(e: State, p: Params, m: Mode, j: nat): Reading
    requires ValidParams(p) && Shaped(e, p, m) && j < p.nc
  {
    Reading(Clock(e, p, j), WeightA(e, j), if m == Cross then WeightB(e, j) else 0)
  }

  /** A reading moved on by one event. */
  function Moved(r: Reading, m: Mode, ev: Event): Reading
  {
    Reading(r.clock + ev.iat, r.wA + ev.wA, r.wB + if m == Cross then ev.wB else 0)
  }

  /** One cascade's step, named: the next state, that it moves cascade k's
      reading on by the event and leaves cascade j's alone otherwise, and
      that the rest of the cascades continue from it. */
  lemma StepLaws(e: State, p: Params, m: Mode, ev: Event, k: nat, j: nat) returns (e': State)
    requires ValidParams(p) && Shaped(e, p, m) && k < p.nc && j < p.nc
    ensures Shaped(e', p, m) && Cascades(e, p, m, ev, k) == Cascades(e', p, m, ev, k + 1)
    ensures ReadingOf(e', p, m, j) ==
            if j == k then Moved(ReadingOf(e, p, m, j), m, ev) else ReadingOf(e, p, m, j)
  {
    e' := CascadeStep(e, p, m, k, ev);
    CascadesUnfold(e, p, m, ev, k);
    ClockStep(e, p, m, k, ev, j);
    WeightStep(e, p, m, k, ev, j);
  }

  /** Past the last cascade an event is through. */
  lemma CascadesDone(e: State, p: Params, m: Mode, ev: Event)
    requires ValidParams(p) && Shaped(e, p, m)
    ensures Cascades(e, p, m, ev, p.nc) == e
  {
  }

  /** One event through cascades k .. nc - 1 leaves the reading of a
      cascade before k alone. */
  lemma {:induction false} ClockPast(e: State, p: Params, m: Mode, ev: Event, k: nat, j: nat)
    requires ValidParams(p) && Shaped(e, p, m) && j < k < p.nc
    ensures ReadingOf(Cascades(e, p, m, ev, k), p, m, j) == ReadingOf(e, p, m, j)
    decreases p.nc - k
  {
    var e' := StepLaws(e, p, m, ev, k, j);
    if k + 1 < p.nc {
      ClockPast(e', p, m, ev, k + 1, j);
    } else {
      CascadesDone(e', p, m, ev);
    }
  }

  /** One event through cascades j .. nc - 1 moves cascade j's reading on
      by the event's ticks and weights. */
  lemma ClockAt(e: State, p: Params, m: Mode, ev: Event, j: nat)
    requires ValidParams(p) && Shaped(e, p, m) && j < p.nc
    ensures ReadingOf(Cascades(e, p, m, ev, j), p, m, j) == Moved(ReadingOf(e, p, m, j), m, ev)
  {
    var e' := StepLaws(e, p, m, ev, j, j);
    if j + 1 < p.nc {
      ClockPast(e', p, m, ev, j + 1, j);
    } else {
      CascadesDone(e', p, m, ev);
    }
  }

  /** One event through cascades k .. nc - 1 moves the reading of every
      cascade from k on by the event's ticks and weights. */
  lemma {:induction false} ClockAhead(e: State, p: Params, m: Mode, ev: Event, k: nat, j: nat)
    requires ValidParams(p) && Shaped(e, p, m) && k <= j < p.nc
    ensures ReadingOf(Cascades(e, p, m, ev, k), p, m, j) == Moved(ReadingOf(e, p, m, j), m, ev)
    decreases p.nc - k
  {
    if k == j {
      ClockAt(e, p, m, ev, j);
    } else {
      var e' := StepLaws(e, p, m, ev, k, j);
      ClockAhead(e', p, m, ev, k + 1, j);
    }
  }

  lemma CascadesUnfold(e: State, p: Params, m: Mode, ev: Event, k: nat)
    requires ValidParams(p) && Shaped(e, p, m) && k < p.nc
    ensures Cascades(e, p, m, ev, k) == Cascades(CascadeStep(e, p, m, k, ev), p, m, ev, k + 1)
  {
  }

  lemma RunUnfold(e: State, p: Params, m: Mode, evs: seq<Event>)
    requires ValidParams(p) && Shaped(e, p, m) && evs != []
    ensures Run(e, p, m, evs) == Run(Cascades(e, p, m, evs[0], 0), p, m, evs[1..])
  {
  }

  /** Ticks in equal ticks out: over a batch, the clock of every cascade
      advances by the batch's total time, and its weights by the batch's
      total weights. */
  lemma {:induction false} ClockRun(e: State, p: Params, m: Mode, evs: seq<Event>, j: nat)
    requires ValidParams(p) && Shaped(e, p, m) && j < p.nc
    ensures Clock(Run(e, p, m, evs), p, j) == Clock(e, p, j) + Ticks(evs)
    ensures WeightA(Run(e, p, m, evs), j) == WeightA(e, j) + Sum(WeightsA(evs))
    ensures m == Cross ==> WeightB(Run(e, p, m, evs), j) == WeightB(e, j) + Sum(WeightsB(evs))
    decreases |evs|
  {
    if evs == [] {
      assert Run(e, p, m, evs) == e;
    } else {
      var e' := Cascades(e, p, m, evs[0], 0);
      assert Run(e, p, m, evs) == Run(e', p, m, evs[1..]);
      ClockAhead(e, p, m, evs[0], 0, j);
      ClockRun(e', p, m, evs[1..], j);
      FirstAndRest(evs);
    }
  }

  /** The ticks of every open bin are fewer than a time base. */
  predicate Bounded(e: State, p: Params)
    requires |e.bins.mta| == p.nc
  {
    forall j: nat :: j < p.nc ==> 0 <= e.bins.mta[j] < Timebase(p, j)
  }

  lemma BoundedStep(e: State, p: Params, m: Mode, k: nat, ev: Event) returns (e': State)
    requires ValidParams(p) && Shaped(e, p, m) && k < p.nc && Bounded(e, p) && ev.iat >= 0
    ensures Shaped(e', p, m) && Cascades(e, p, m, ev, k) == Cascades(e', p, m, ev, k + 1)
    ensures Bounded(e', p)
  {
    e' := CascadeStep(e, p, m, k, ev);
    CascadesUnfold(e, p, m, ev, k);
    var tb := Timebase(p, k);
    if tb == 1 {
      FineEffect(e, p, m, k, ev);
    } else if e.bins.mta[k] + ev.iat < tb {
      FillEffect(e, p, m, k, ev);
    } else {
      CloseEffect(e, p, m, k, ev);
    }
  }

  /** One event through cascades k .. nc - 1 keeps every open bin bounded. */
  lemma {:induction false} BoundedCascades(e: State, p: Params, m: Mode, ev: Event, k: nat)
    requires ValidParams(p) && Shaped(e, p, m) && k < p.nc && Bounded(e, p) && ev.iat >= 0
    ensures Bounded(Cascades(e, p, m, ev, k), p)
    decreases p.nc - k
  {
    var e' := BoundedStep(e, p, m, k, ev);
    if k + 1 < p.nc {
      BoundedCascades(e', p, m, ev, k + 1);
    } else {
      CascadesDone(e', p, m, ev);
    }
  }

  /** Over a batch of events with non-negative iats, every open bin keeps
      0 <= mta[j] < timebase[j]; the initial state has mta = 0. */
  lemma {:induction false} BoundedRun(e: State, p: Params, m: Mode, evs: seq<Event>)
    requires ValidParams(p) && Shaped(e, p, m) && Bounded(e, p) && NonNegative(evs)
    ensures Bounded(Run(e, p, m, evs), p)
    decreases |evs|
  {
    if evs == [] {
      assert Run(e, p, m, evs) == e;
    } else {
      var e' := Cascades(e, p, m, evs[0], 0);
      assert Run(e, p, m, evs) == Run(e', p, m, evs[1..]);
      BoundedCascades(e, p, m, evs[0], 0);
      assert NonNegative(evs[1..]) by {
        forall i | 0 <= i < |evs[1..]|
          ensures evs[1..][i].iat >= 0
        {
          assert evs[1..][i] == evs[i + 1];
        }
      }
      BoundedRun(e', p, m, evs[1..]);
    }
  }

  lemma InitialBounded(p: Params, m: Mode)
    requires ValidParams(p)
    ensures Bounded(Initial(p, m), p)
  {
    forall j: nat | j < p.nc
      ensures 0 <= Initial(p, m).bins.mta[j] < Timebase(p, j)
    {
      TimebaseUp(p, j, j);
    }
  }

  /** All state carried from one event to the next is in the state, so a
      batch split in two gives what the whole batch gives. */
  lemma {:induction false} RunSplit(e: State, p: Params, m: Mode, a: seq<Event>, b: seq<Event>)
    requires ValidParams(p) && Shaped(e, p, m)
    ensures Run(Run(e, p, m, a), p, m, b) == Run(e, p, m, a + b)
    decreases |a|
  {
    if a == [] {
      assert Run(e, p, m, a) == e;
      assert a + b == b;
    } else {
      var e' := SplitStep(e, p, m, a, b);
      RunSplit(e', p, m, a[1..], b);
      RunLink(Run(e, p, m, a), Run(e', p, m, a[1..]), p, m, b);
    }
  }

  /** The first event of a + b is a's, and the rest of a + b is the rest of
      a followed by b. */
  lemma SplitStep(e: State, p: Params, m: Mode, a: seq<Event>, b: seq<Event>) returns (e': State)
    requires ValidParams(p) && Shaped(e, p, m) && a != []
    ensures Shaped(e', p, m)
    ensures Run(e, p, m, a) == Run(e', p, m, a[1..]) && Run(e, p, m, a + b) == Run(e', p, m, a[1..] + b)
  {
    e' := Cascades(e, p, m, a[0], 0);
    assert (a + b)[0] == a[0] && (a + b)[1..] == a[1..] + b;
    RunUnfold(e, p, m, a);
    RunUnfold(e, p, m, a + b);
  }

  lemma RunLink(x: State, y: State, p: Params, m: Mode, b: seq<Event>)
    requires ValidParams(p) && Shaped(x, p, m) && x == y
    ensures Run(x, p, m, b) == Run(y, p, m, b)
  {
  }

  /** The largest weights whose square and whose cube are Java ints. */
  const MaxSquareWeight := 46340
  const MaxCubeWeight := 1290

  /** A weight that is not negative and whose power of degree deg does
      not wrap. */
  predicate PowerFits(x: int, deg: nat)
  {
    0 <= x && (deg == 2 ==> x <= MaxSquareWeight) && (deg != 1 && deg != 2 ==> x <= MaxCubeWeight)
  }

  /** Powers of non-negative weights are non-negative as long as they do
      not wrap. */
  lemma MomentNonNegative(x: int, deg: nat)
    requires PowerFits(x, deg)
    ensures Moment(x, deg) >= 0
  {
    if deg == 2 {
      MulBound(x, x, MaxSquareWeight, MaxSquareWeight);
    } else if deg != 1 {
      MulBound(x, x, MaxCubeWeight, MaxCubeWeight);
      MulBound(x * x, x, MaxCubeWeight * MaxCubeWeight, MaxCubeWeight);
    }
  }

  lemma MulBound(a: int, b: int, c: int, d: int)
    requires 0 <= a <= c && 0 <= b <= d
    ensures 0 <= a * b <= c * d
  {
    assert a * b <= c * b;
    assert c * b <= c * d;
  }

  /** A wrapped power can be negative: a weight of 46341 in a bin squares
      to a negative Java int. */
  lemma SquareWraps()
    ensures Moment(MaxSquareWeight + 1, 2) < 0
  {
  }

  /** With non-negative ring weights whose powers do not wrap, phase C's
      walk for a longer lag goes at least as far and takes in at least as
      much weight. */
  lemma {:induction false} BehindMono(c: seq<int>, w: seq<int>, j: nat, st: int, lag1: int, lag2: int, deg: nat, fuel: nat)
    requires |c| >= 256 * (j + 1) && |w| >= 256 * (j + 1) && -128 <= st < 128
    requires forall i :: 256 * j <= i < 256 * j + 256 ==> PowerFits(w[i], deg)
    requires lag1 <= lag2
    ensures 0 <= Behind(c, w, j, st, lag1, deg, fuel) <= Behind(c, w, j, st, lag2, deg, fuel)
    decreases fuel
  {
    if fuel > 0 && c[Slot(j, st)] + 1 <= lag2 {
      MomentNonNegative(w[Slot(j, st)], deg);
      BehindMono(c, w, j, ByteDec(st), lag1, lag2, deg, fuel - 1);
    }
  }

  /** Lags grow along a cascade's block. */
  lemma LagsGrow(p: Params, j: nat, ii1: nat, ii2: nat)
    requires ValidParams(p) && j < p.nc && ii1 <= ii2 < NtLag(p, j)
    ensures LagAt(p, j, ii1) <= LagAt(p, j, ii2)
  {
    LagOf(p, j, ii1);
    LagOf(p, j, ii2);
  }

  /** With non-negative weights, s10 does not grow along a cascade's lags,
      and the duration n = tlast - cc shrinks; s20 and s30 do not grow
      either while the weights' squares and cubes do not wrap. */
  lemma PrepassMono(e: State, p: Params, m: Mode, j: nat, ii1: nat, ii2: nat)
    requires ValidParams(p) && Shaped(e, p, m) && j < p.nc && ii1 <= ii2 < NtLag(p, j)
    requires forall i :: 256 * j <= i < 256 * j + 256 ==> e.ring.wa[i] >= 0
    requires m == Cross ==> forall i :: 256 * j <= i < 256 * j + 256 ==> e.ring.wb[i] >= 0
    ensures var r1 := Prepass(e, p, m, j, ii1);
      var r2 := Prepass(e, p, m, j, ii2);
      r2.s10a <= r1.s10a && r2.s10b <= r1.s10b && r2.n <= r1.n &&
      ((forall i :: 256 * j <= i < 256 * j + 256 ==> e.ring.wa[i] <= MaxSquareWeight) ==> r2.s20 <= r1.s20) &&
      ((forall i :: 256 * j <= i < 256 * j + 256 ==> e.ring.wa[i] <= MaxCubeWeight) ==> r2.s30 <= r1.s30)
  {
    LagsGrow(p, j, ii1, ii2);
    var l1 := LagAt(p, j, ii1);
    var l2 := LagAt(p, j, ii2);
    var s := ByteDec(e.bins.sp[j]);
    var c := e.ring.ciat;
    BehindMono(c, e.ring.wa, j, s, l1, l2, 1, 256);
    if forall i :: 256 * j <= i < 256 * j + 256 ==> e.ring.wa[i] <= MaxSquareWeight {
      BehindMono(c, e.ring.wa, j, s, l1, l2, 2, 256);
    }
    if forall i :: 256 * j <= i < 256 * j + 256 ==> e.ring.wa[i] <= MaxCubeWeight {
      BehindMono(c, e.ring.wa, j, s, l1, l2, 3, 256);
    }
    if m == Cross {
      BehindMono(c, e.ring.wb, j, s, l1, l2, 1, 256);
    }
  }

  /** Phase C's output holds, at off + ii, the integer part for lag ii of
      cascade j: the blocks of the cascades follow each other as the g
      arrays lay them out. */
  lemma {:induction false} NormsAt(e: State, p: Params, m: Mode, n: nat, j: nat, ii: nat)
    requires ValidParams(p) && Shaped(e, p, m) && j < n <= p.nc && ii < NtLag(p, j)
    ensures Offset(p, j) + ii < |Norms(e, p, m, n)|
    ensures Norms(e, p, m, n)[Offset(p, j) + ii] == Prepass(e, p, m, j, ii)
    decreases n
  {
    Tiling(p, n - 1);
    if j < n - 1 {
      NormsAt(e, p, m, n - 1, j, ii);
      NormsPrefix(e, p, m, n, Offset(p, j) + ii);
    } else {
      NormsLast(e, p, m, n, ii);
    }
  }

  /** The first cascades' part of the output is that of Norms for fewer
      cascades. */
  lemma NormsPrefix(e: State, p: Params, m: Mode, n: nat, k: nat)
    requires ValidParams(p) && Shaped(e, p, m) && 1 <= n <= p.nc && k < Offset(p, n - 1)
    ensures k < |Norms(e, p, m, n)| && Norms(e, p, m, n)[k] == Norms(e, p, m, n - 1)[k]
  {
  }

  /** The last cascade's part of the output is its block. */
  lemma NormsLast(e: State, p: Params, m: Mode, n: nat, ii: nat)
    requires ValidParams(p) && Shaped(e, p, m) && 1 <= n <= p.nc && ii < NtLag(p, n - 1)
    ensures Offset(p, n - 1) + ii < |Norms(e, p, m, n)|
    ensures Norms(e, p, m, n)[Offset(p, n - 1) + ii] == Prepass(e, p, m, n - 1, ii)
  {
    Tiling(p, n - 1);
  }
}

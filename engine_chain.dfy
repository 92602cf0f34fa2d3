/** Why the backward walks of phase B and phase C end, and the ring times
    they leave behind.

    View(c, j, s, k) is the time stored k slots behind pointer s in cascade
    j's ring. An ordered frontier f behind the pointer is kept: the times
    of the first f - 1 slots behind it are nondecreasing and within the lag
    window, and the time at f is past the window. Bins of time 0 are
    admitted in runs of fewer than Spread(hi) bins, so the time at view
    position k grows with k at least as fast as Paced says. A walk
    therefore stops at or before Stop(f): f + 1, or slot 256 (the
    pointer's own slot, which the next push overwrites) when the frontier
    is already there; the 256 view positions 1 .. 256 are distinct slots.
    Pushing a bin moves the frontier to where the walk stopped.

    The pointer moves by ByteDec and ByteInc; their agreement with the
    byte wrap-around is used only where slots must be told apart. */
module EngineChain {
  import opened JavaInt
  import opened Events
  import opened LagTable
  import opened Engine

  predicate IsByte(x: int)
  {
    -128 <= x < 128
  }

  /** The slot k steps behind s. */
  function Back(s: int, k: nat): (r: int)
    ensures IsByte(s) ==> IsByte(r)
  {
    if k == 0 then s else ByteDec(Back(s, k - 1))
  }

  lemma WrapSame(a: int, b: int)
    requires (a - b) % 256 == 0
    ensures WrapByte(a) == WrapByte(b)
  {
    var t := (a - b) / 256;
    assert a == b + 256 * t;
    assert (a + 128) % 256 == (b + 128) % 256;
  }

  lemma {:induction false} BackWrap(s: int, k: nat)
    requires IsByte(s)
    ensures Back(s, k) == WrapByte(s - k)
  {
    if k > 0 {
      BackWrap(s, k - 1);
      ByteDecWraps(Back(s, k - 1));
      WrapSame(WrapByte(s - (k - 1)) - 1, s - k);
    }
  }

  lemma {:induction false} BackShift(s: int, k: nat)
    requires IsByte(s) && k >= 1
    ensures Back(ByteInc(s), k) == Back(s, k - 1)
  {
    if k > 1 {
      BackShift(s, k - 1);
    }
  }

  /** Byte wrap-around is one-to-one on fewer than 256 consecutive values. */
  lemma WrapApart(a: int, b: int)
    requires 0 < b - a < 256
    ensures WrapByte(a) != WrapByte(b)
  {
    var qa := (a + 128) / 256;
    var qb := (b + 128) / 256;
    assert WrapByte(a) == a - 256 * qa;
    assert WrapByte(b) == b - 256 * qb;
    assert qa <= qb <= qa + 1;
  }

  /** The 256 slots behind a pointer are all different. */
  lemma BackDistinct(s: int, k1: nat, k2: nat)
    requires IsByte(s) && k1 < k2 < k1 + 256
    ensures Back(s, k1) != Back(s, k2)
  {
    BackWrap(s, k1);
    BackWrap(s, k2);
    WrapApart(s - k2, s - k1);
  }

  predicate Fits(c: seq<int>, j: nat)
  {
    |c| >= 256 * (j + 1)
  }

  function View(c: seq<int>, j: nat, s: int, k: nat): int
    requires Fits(c, j) && IsByte(s)
  {
    c[Slot(j, Back(s, k))]
  }

  lemma ViewUpdate(c: seq<int>, j: nat, s: int, k0: nat, x: int, k: nat)
    requires Fits(c, j) && IsByte(s) && -256 < k - k0 < 256
    ensures View(c[Slot(j, Back(s, k0)) := x], j, s, k) == (if k == k0 then x else View(c, j, s, k))
  {
    if k < k0 {
      BackDistinct(s, k, k0);
    } else if k0 < k {
      BackDistinct(s, k0, k);
    }
  }

  /** The ring times with d added at view positions 2 .. k behind s: what a
      walk that has reached position k has done. */
  function Bump(c: seq<int>, j: nat, s: int, d: int, k: nat): (r: seq<int>)
    requires Fits(c, j) && IsByte(s)
    ensures |r| == |c|
  {
    if k <= 1 then c
    else
      var b := Bump(c, j, s, d, k - 1);
      var i := Slot(j, Back(s, k));
      b[i := b[i] + d]
  }

  lemma {:induction false} BumpView(c: seq<int>, j: nat, s: int, d: int, k: nat, i: nat)
    requires Fits(c, j) && IsByte(s) && 1 <= k <= 256 && 1 <= i <= 256
    ensures View(Bump(c, j, s, d, k), j, s, i) == (if 2 <= i <= k then View(c, j, s, i) + d else View(c, j, s, i))
  {
    if k > 1 {
      var b := Bump(c, j, s, d, k - 1);
      BumpView(c, j, s, d, k - 1, i);
      BumpView(c, j, s, d, k - 1, k);
      ViewUpdate(b, j, s, k, View(b, j, s, k) + d, i);
    }
  }

  /** A walk changes nothing outside its own cascade's ring. */
  lemma {:induction false} BumpFrame(c: seq<int>, j: nat, s: int, d: int, k: nat, i: int)
    requires Fits(c, j) && IsByte(s) && 0 <= i < |c| && !(256 * j <= i < 256 * j + 256)
    ensures Bump(c, j, s, d, k)[i] == c[i]
  {
    if k > 1 {
      BumpFrame(c, j, s, d, k - 1, i);
    }
  }

  /** One more than the longest run of bins of time 0 that a ring with a
      window ending at hi can take without its walks passing the pointer. */
  function Spread(hi: int): nat
  {
    if hi < 0 then 0 else Quotient(257, hi + 3)
  }

  /** How many times b fits into a, counted by repeated subtraction (so
      that the solver unfolds it only where a proof asks for it). */
  function Quotient(a: int, b: int): nat
    requires b >= 1
    decreases if a < 0 then 0 else a
  {
    if a < b then 0 else 1 + Quotient(a - b, b)
  }

  /** Quotient(a, b) is the whole number of times b fits into a. */
  lemma {:induction false} QuotientBounds(a: int, b: int)
    requires a >= 0 && b >= 1
    ensures Quotient(a, b) * b <= a < (Quotient(a, b) + 1) * b
    decreases a
  {
    if a >= b {
      QuotientBounds(a - b, b);
      var q := Quotient(a - b, b);
      assert (q + 1) * b == q * b + b && (q + 2) * b == (q + 1) * b + b;
    }
  }

  lemma SpreadFits(hi: int)
    requires 0 <= hi <= 254
    ensures 1 <= Spread(hi) && Spread(hi) * (hi + 3) <= 257
  {
    QuotientBounds(257, hi + 3);
  }

  /** The time x at view position k, with the newest z bins of time 0 and
      no r bins of time 0 in a row behind them: every r positions after
      the first z add at least one tick. */
  predicate Paced(x: int, k: int, z: int, r: int)
  {
    k - z <= r * (x + 1)
  }

  /** Pushing a bin of time d >= 1 moves position k - 1 to k and ends the
      run of zeros. */
  lemma PacedStep(x: int, k: int, z: int, r: int, d: int)
    requires Paced(x, k - 1, z, r) && 0 <= z < r && d >= 1
    ensures Paced(x + d, k, 0, r)
  {
    TimesIsProduct(r, x + 1);
    TimesIsProduct(r, x + d + 1);
    assert r * (x + d + 1) == r * (x + 1) + r * d;
    MulMono(r, 1, d);
  }

  /** The position before the last one a walk can reach holds a time that,
      with the pushed bin's time d, is past the window. */
  lemma PacedPast(x: int, z: int, r: int, hi: int, d: int)
    requires Paced(x, 255, z, r) && 1 <= r && r * (hi + 3) <= 257 && 0 <= z < r
    requires d >= 0 && (d >= 1 || z + 1 < r)
    ensures x + d > hi
  {
    TimesIsProduct(r, x + 1);
    if x + d <= hi {
      MulMono(r, x + 1, hi + 1 - d);
      assert r * (hi + 3) == r * (hi + 1 - d) + r * (2 + d);
      MulMono(r, 2, 2 + d);
    }
  }

  /** The ordered frontier f behind pointer s, for a window ending at hi,
      with the newest z bins of time 0. */
  predicate Frontier(c: seq<int>, j: nat, s: int, hi: int, f: nat, z: nat)
    requires Fits(c, j) && IsByte(s)
  {
    1 <= f <= 256 && View(c, j, s, f) > hi &&
    (forall k: nat :: 1 <= k < f ==> 0 <= View(c, j, s, k) <= hi && Paced(View(c, j, s, k), k, z, Spread(hi))) &&
    (forall k1: nat, k2: nat :: 1 <= k1 <= k2 < f ==> View(c, j, s, k1) <= View(c, j, s, k2))
  }

  /** Two rings that agree on cascade j's slots have the same frontiers
      there. */
  lemma FrontierFrame(c: seq<int>, c': seq<int>, j: nat, s: int, hi: int, f: nat, z: nat)
    requires Fits(c, j) && Fits(c', j) && IsByte(s)
    requires forall i :: 256 * j <= i < 256 * j + 256 ==> c[i] == c'[i]
    ensures Frontier(c, j, s, hi, f, z) <==> Frontier(c', j, s, hi, f, z)
  {
    forall k: nat
      ensures View(c, j, s, k) == View(c', j, s, k)
    {
      assert 256 * j <= Slot(j, Back(s, k)) < 256 * j + 256;
    }
  }

  /** Before a push: the ring has frontier f behind s, with the newest z
      bins of time 0, the bin's time d is not negative, and a bin of time 0
      either keeps the run of zeros shorter than Spread(hi) or is pushed
      onto a ring whose newest time is already past the window. */
  predicate Setup(c: seq<int>, j: nat, s: int, hi: int, f: nat, d: int, z: nat)
  {
    Fits(c, j) && IsByte(s) && 1 <= hi <= 254 && z < Spread(hi) &&
    Frontier(c, j, s, hi, f, z) && d >= 0 && (d >= 1 || f == 1 || z + 1 < Spread(hi))
  }

  /** The run of zeros after pushing a bin of time d onto frontier f. */
  function Later(z: nat, d: int, f: nat): nat
  {
    if d >= 1 || f == 1 then 0 else z + 1
  }

  /** A frontier with fewer newest zeros is also one with more. */
  lemma FrontierWeaker(c: seq<int>, j: nat, s: int, hi: int, f: nat, z: nat, z': nat)
    requires Fits(c, j) && IsByte(s) && Frontier(c, j, s, hi, f, z) && z <= z'
    ensures Frontier(c, j, s, hi, f, z')
  {
  }

  /** The up-to-date time of view position k after pushing d. */
  function Due(c: seq<int>, j: nat, s: int, d: int, k: nat): int
    requires Fits(c, j) && IsByte(s)
  {
    if k <= 1 then d else View(c, j, s, k - 1) + d
  }

  lemma PushedView(c: seq<int>, j: nat, s: int, d: int, i: nat)
    requires Fits(c, j) && IsByte(s) && 1 <= i <= 256
    ensures View(Pushed(c, j, s, d), j, ByteInc(s), i) == (if i == 1 then d else View(c, j, s, i - 1))
  {
    BackShift(s, i);
    ViewUpdate(c, j, s, 0, d, i - 1);
  }

  /** Position i after a push and a walk that has reached position k. */
  lemma AtStep(c: seq<int>, j: nat, s: int, d: int, k: nat, i: nat)
    requires Fits(c, j) && IsByte(s) && 1 <= k <= 256 && 1 <= i <= 256
    ensures View(Bump(Pushed(c, j, s, d), j, ByteInc(s), d, k), j, ByteInc(s), i)
         == (if i <= k then Due(c, j, s, d, i) else View(c, j, s, i - 1))
  {
    BumpView(Pushed(c, j, s, d), j, ByteInc(s), d, k, i);
    PushedView(c, j, s, d, i);
  }

  /** The up-to-date times are nondecreasing up to f + 1. */
  lemma DueMono(c: seq<int>, j: nat, s: int, hi: int, f: nat, d: int, z: nat, i1: nat, i2: nat)
    requires Setup(c, j, s, hi, f, d, z) && 1 <= i1 <= i2 <= f + 1
    ensures Due(c, j, s, d, i1) <= Due(c, j, s, d, i2)
  {
    if i1 >= 2 && i2 - 1 < f {
      assert View(c, j, s, i1 - 1) <= View(c, j, s, i2 - 1);
    } else if i1 == 1 && i2 >= 2 && i2 - 1 < f {
      assert View(c, j, s, i2 - 1) >= 0;
    } else if i1 >= 2 && i1 - 1 < f {
      assert View(c, j, s, i1 - 1) <= hi;
    }
  }

  /** Up to f the up-to-date times are paced, with the run of zeros the
      push leaves. */
  lemma DueLower(c: seq<int>, j: nat, s: int, hi: int, f: nat, d: int, z: nat, i: nat)
    requires Setup(c, j, s, hi, f, d, z) && 1 <= i <= f
    ensures Due(c, j, s, d, i) >= 0 && Paced(Due(c, j, s, d, i), i, Later(z, d, f), Spread(hi))
  {
    var r := Spread(hi);
    if i >= 2 {
      assert Paced(View(c, j, s, i - 1), i - 1, z, r);
      if d >= 1 {
        PacedStep(View(c, j, s, i - 1), i, z, r, d);
      }
    } else if d >= 1 {
      SpreadFits(hi);
      TimesIsProduct(r, d + 1);
      MulMono(r, 1, d + 1);
    }
  }

  /** The last position a walk after a push can reach: one past the
      frontier, but never beyond the 256 distinct positions. */
  function Stop(f: nat): nat
  {
    if f >= 256 then 256 else f + 1
  }

  /** The up-to-date time at Stop(f) is past the window. At f = 256 this
      is where the run of zeros is bounded: position 255 is paced, and
      Spread(hi) * (hi + 3) <= 257. */
  lemma StopPast(c: seq<int>, j: nat, s: int, hi: int, f: nat, d: int, z: nat)
    requires Setup(c, j, s, hi, f, d, z)
    ensures 2 <= Stop(f) <= 256 && Stop(f) <= f + 1 && Due(c, j, s, d, Stop(f)) > hi
  {
    if f == 256 {
      SpreadFits(hi);
      PacedPast(View(c, j, s, 255), z, Spread(hi), hi, d);
    }
  }

  /** The slot a walk that has reached position k stands on. */
  lemma BumpAt(c: seq<int>, j: nat, s: int, d: int, k: nat)
    requires Fits(c, j) && IsByte(s) && 1 <= k <= 256
    ensures Bump(Pushed(c, j, s, d), j, ByteInc(s), d, k)[Slot(j, Back(ByteInc(s), k))] == Due(c, j, s, d, k)
  {
    AtStep(c, j, s, d, k, k);
  }

  /** Skip at position k of a walk after a push: it stops there, or takes
      one step to position k + 1. */
  lemma SkipAt(c: seq<int>, j: nat, s: int, d: int, k: nat, add: int, lo: int, fuel: nat)
    requires Fits(c, j) && IsByte(s) && 1 <= k <= 256
    ensures var b := Bump(Pushed(c, j, s, d), j, ByteInc(s), d, k);
      var st := Back(ByteInc(s), k);
      (Due(c, j, s, d, k) >= lo ==> Skip(b, j, st, add, lo, fuel) == Probe(b, st)) &&
      (Due(c, j, s, d, k) < lo && fuel > 0 && k <= 255 && add == d ==>
         Skip(b, j, st, add, lo, fuel) ==
         Skip(Bump(Pushed(c, j, s, d), j, ByteInc(s), d, k + 1), j, Back(ByteInc(s), k + 1), add, lo, fuel - 1))
  {
    BumpAt(c, j, s, d, k);
  }

  /** The same for Sweep. */
  lemma SweepAt(c: seq<int>, j: nat, s: int, d: int, k: nat, lo: int, hi: int, fuel: nat)
    requires Fits(c, j) && IsByte(s) && 1 <= k <= 256
    ensures var b := Bump(Pushed(c, j, s, d), j, ByteInc(s), d, k);
      var st := Back(ByteInc(s), k);
      (!(lo <= Due(c, j, s, d, k) <= hi) ==> Sweep(b, j, st, d, lo, hi, fuel) == Probe(b, st)) &&
      (lo <= Due(c, j, s, d, k) <= hi && fuel > 0 && k <= 255 ==>
         Sweep(b, j, st, d, lo, hi, fuel) ==
         Sweep(Bump(Pushed(c, j, s, d), j, ByteInc(s), d, k + 1), j, Back(ByteInc(s), k + 1), d, lo, hi, fuel - 1))
  {
    BumpAt(c, j, s, d, k);
  }

  /** The walk below the window, from position k on, stops at the first
      position mm whose up-to-date time reaches lo, at most e, a position
      whose time is past the window. */
  lemma {:induction false} SkipRun(c: seq<int>, j: nat, s: int, hi: int, e: nat, d: int, lo: int, add: int,
                                   k: nat, fuel: nat) returns (mm: nat)
    requires Fits(c, j) && IsByte(s) && e <= 256
    requires 1 <= lo <= hi && Due(c, j, s, d, e) > hi
    requires 1 <= k <= e && fuel >= e + 1 - k
    requires k >= 2 ==> Due(c, j, s, d, k - 1) < lo
    requires Due(c, j, s, d, k) < lo ==> add == d
    ensures k <= mm <= e && Due(c, j, s, d, mm) >= lo
    ensures mm >= 2 ==> Due(c, j, s, d, mm - 1) < lo
    ensures Skip(Bump(Pushed(c, j, s, d), j, ByteInc(s), d, k), j, Back(ByteInc(s), k), add, lo, fuel)
         == Probe(Bump(Pushed(c, j, s, d), j, ByteInc(s), d, mm), Back(ByteInc(s), mm))
    decreases e - k
  {
    SkipAt(c, j, s, d, k, add, lo, fuel);
    if Due(c, j, s, d, k) >= lo {
      mm := k;
    } else {
      mm := SkipRun(c, j, s, hi, e, d, lo, add, k + 1, fuel - 1);
    }
  }

  /** The ring part of Gather: where it stops and the ring times it leaves. */
  function Sweep(c: seq<int>, j: nat, st: int, add: int, lo: int, hi: int, fuel: nat): (r: Probe)
    requires Fits(c, j) && IsByte(st)
    ensures |r.ciat| == |c| && IsByte(r.st)
    decreases fuel
  {
    if fuel == 0 || !(lo <= c[Slot(j, st)] <= hi) then Probe(c, st)
    else
      var st' := ByteDec(st);
      Sweep(c[Slot(j, st') := c[Slot(j, st')] + add], j, st', add, lo, hi, fuel - 1)
  }

  /** One step of Gather inside the window; s' is the sums after the
      step's product. */
  lemma GatherStep(c: seq<int>, s: Sums, wa: seq<int>, wb: seq<int>, p: Params, m: Mode,
                   j: nat, w: Window, st: int, add: int, cA: int, cB: int, fuel: nat) returns (s': Sums)
    requires ValidParams(p) && WindowOk(w, p) && SumsShaped(s, p, m) && IsByte(st)
    requires Fits(c, j) && Fits(wa, j) && (m == Cross ==> Fits(wb, j))
    requires fuel > 0 && w.lo <= c[Slot(j, st)] <= w.hi
    ensures SumsShaped(s', p, m)
    ensures s' == Product(s, p, m, w.off + c[Slot(j, st)] - w.sub, cA, cB, wa[Slot(j, st)], if m == Cross then wb[Slot(j, st)] else 0)
    ensures var c' := c[Slot(j, ByteDec(st)) := c[Slot(j, ByteDec(st))] + add];
      Gather(c, s, wa, wb, p, m, j, w, st, add, cA, cB, fuel) == Gather(c', s', wa, wb, p, m, j, w, ByteDec(st), add, cA, cB, fuel - 1)
  {
    var d := c[Slot(j, st)];
    s' := Product(s, p, m, w.off + d - w.sub, cA, cB, wa[Slot(j, st)], if m == Cross then wb[Slot(j, st)] else 0);
  }

  /** Whatever Gather accumulates, the ring times and the pointer it leaves
      do not depend on the sums. */
  lemma {:induction false} GatherSweep(c: seq<int>, s: Sums, wa: seq<int>, wb: seq<int>, p: Params, m: Mode,
                                       j: nat, w: Window, st: int, add: int, cA: int, cB: int, fuel: nat)
    requires ValidParams(p) && WindowOk(w, p) && SumsShaped(s, p, m) && IsByte(st)
    requires Fits(c, j) && Fits(wa, j) && (m == Cross ==> Fits(wb, j))
    ensures var t := Gather(c, s, wa, wb, p, m, j, w, st, add, cA, cB, fuel);
      Probe(t.ciat, t.st) == Sweep(c, j, st, add, w.lo, w.hi, fuel)
    decreases fuel
  {
    if fuel > 0 && w.lo <= c[Slot(j, st)] <= w.hi {
      var s' := GatherStep(c, s, wa, wb, p, m, j, w, st, add, cA, cB, fuel);
      var c' := c[Slot(j, ByteDec(st)) := c[Slot(j, ByteDec(st))] + add];
      GatherSweep(c', s', wa, wb, p, m, j, w, ByteDec(st), add, cA, cB, fuel - 1);
    }
  }

  /** The walk inside the window, from a position k whose time has reached
      lo, stops at the first position kk whose up-to-date time is past hi,
      at most Stop(f). Whatever it accumulates, the ring times and the pointer
      it leaves do not depend on the sums. */
  lemma {:induction false} SweepRun(c: seq<int>, j: nat, s: int, hi: int, f: nat, d: int, z: nat, lo: int,
                                    k: nat, fuel: nat) returns (kk: nat)
    requires Setup(c, j, s, hi, f, d, z) && lo <= hi
    requires 1 <= k <= Stop(f) && fuel >= Stop(f) + 1 - k && Due(c, j, s, d, k) >= lo
    ensures k <= kk <= Stop(f) && Due(c, j, s, d, kk) > hi
    ensures kk > k ==> Due(c, j, s, d, kk - 1) <= hi
    ensures Sweep(Bump(Pushed(c, j, s, d), j, ByteInc(s), d, k), j, Back(ByteInc(s), k), d, lo, hi, fuel)
         == Probe(Bump(Pushed(c, j, s, d), j, ByteInc(s), d, kk), Back(ByteInc(s), kk))
    decreases Stop(f) - k
  {
    SweepAt(c, j, s, d, k, lo, hi, fuel);
    StopPast(c, j, s, hi, f, d, z);
    if Due(c, j, s, d, k) > hi {
      kk := k;
    } else {
      assert k <= f;
      DueMono(c, j, s, hi, f, d, z, k, k + 1);
      kk := SweepRun(c, j, s, hi, f, d, z, lo, k + 1, fuel - 1);
    }
  }

  /** Where the walk stopped is the new frontier. */
  lemma NewFrontier(c: seq<int>, j: nat, s: int, hi: int, f: nat, d: int, z: nat, lo: int, mm: nat, kk: nat)
    requires Setup(c, j, s, hi, f, d, z) && 1 <= lo <= hi && 1 <= mm <= kk <= Stop(f)
    requires Due(c, j, s, d, kk) > hi && (kk > mm ==> Due(c, j, s, d, kk - 1) <= hi)
    requires mm >= 2 ==> Due(c, j, s, d, mm - 1) < lo
    ensures Frontier(Bump(Pushed(c, j, s, d), j, ByteInc(s), d, kk), j, ByteInc(s), hi, kk, Later(z, d, f))
  {
    var b := Bump(Pushed(c, j, s, d), j, ByteInc(s), d, kk);
    if kk >= 2 {
      assert Due(c, j, s, d, kk - 1) <= hi;
      DueLower(c, j, s, hi, f, d, z, kk - 1);
    }
    AtStep(c, j, s, d, kk, kk);
    forall k: nat | 1 <= k < kk
      ensures 0 <= View(b, j, ByteInc(s), k) <= hi && Paced(View(b, j, ByteInc(s), k), k, Later(z, d, f), Spread(hi))
    {
      AtStep(c, j, s, d, kk, k);
      DueLower(c, j, s, hi, f, d, z, k);
      DueMono(c, j, s, hi, f, d, z, k, kk - 1);
    }
    forall k1: nat, k2: nat | 1 <= k1 <= k2 < kk
      ensures View(b, j, ByteInc(s), k1) <= View(b, j, ByteInc(s), k2)
    {
      AtStep(c, j, s, d, kk, k1);
      AtStep(c, j, s, d, kk, k2);
      DueMono(c, j, s, hi, f, d, z, k1, k2);
    }
  }

  /** After a push of time d onto a ring with frontier f, the walk of Walk
      stops before its fuel runs out, in both of its loops, and leaves a
      frontier behind the new pointer; the other cascades' slots are not
      touched. */
  lemma WalkChain(c: seq<int>, j: nat, s: int, f: nat, d: int, sums: Sums, wa: seq<int>, wb: seq<int>,
                  p: Params, m: Mode, w: Window, add1: int, cA: int, cB: int, z: nat) returns (f': nat)
    requires Setup(c, j, s, w.hi, f, d, z)
    requires ValidParams(p) && WindowOk(w, p) && SumsShaped(sums, p, m)
    requires Fits(wa, j) && (m == Cross ==> Fits(wb, j))
    requires add1 == d || d >= w.lo
    ensures var t := Walk(Pushed(c, j, s, d), sums, wa, wb, p, m, j, w, ByteInc(s), add1, d, cA, cB);
      Frontier(t.ciat, j, ByteInc(s), w.hi, f', Later(z, d, f)) &&
      (forall i :: 0 <= i < |c| && !(256 * j <= i < 256 * j + 256) ==> t.ciat[i] == c[i])
    ensures var c1 := Pushed(c, j, s, d);
      var st := ByteDec(ByteInc(s));
      c1[Slot(j, st)] <= w.hi ==>
        var pr := Skip(c1, j, st, add1, w.lo, 256);
        var q := Sweep(pr.ciat, j, pr.st, d, w.lo, w.hi, 256);
        pr.ciat[Slot(j, pr.st)] >= w.lo && !(w.lo <= q.ciat[Slot(j, q.st)] <= w.hi)
  {
    var c1 := Pushed(c, j, s, d);
    var s1 := ByteInc(s);
    PushedView(c, j, s, d, 1);
    assert Back(s1, 1) == ByteDec(s1);
    if d <= w.hi {
      StopPast(c, j, s, w.hi, f, d, z);
      var mm := SkipRun(c, j, s, w.hi, Stop(f), d, w.lo, add1, 1, 256);
      var bm := Bump(c1, j, s1, d, mm);
      GatherSweep(bm, sums, wa, wb, p, m, j, w, Back(s1, mm), d, cA, cB, 256);
      var kk := SweepRun(c, j, s, w.hi, f, d, z, w.lo, mm, 256);
      NewFrontier(c, j, s, w.hi, f, d, z, w.lo, mm, kk);
      BumpAt(c, j, s, d, mm);
      BumpAt(c, j, s, d, kk);
      forall i | 0 <= i < |c| && !(256 * j <= i < 256 * j + 256)
        ensures Bump(c1, j, s1, d, kk)[i] == c[i]
      {
        BumpFrame(c1, j, s1, d, kk, i);
      }
      f' := kk;
    } else {
      f' := 1;
    }
  }

  /** Phase C's walk from st reaches a slot whose time + 1 exceeds the lag
      before its fuel runs out. */
  predicate BehindEnds(c: seq<int>, j: nat, st: int, lag: int, fuel: nat)
    requires Fits(c, j) && IsByte(st)
    decreases fuel
  {
    fuel > 0 && (c[Slot(j, st)] + 1 > lag || BehindEnds(c, j, ByteDec(st), lag, fuel - 1))
  }

  lemma {:induction false} BehindFrom(c: seq<int>, j: nat, s: int, hi: int, f: nat, z: nat, lag: int, k: nat, fuel: nat)
    requires Fits(c, j) && IsByte(s) && Frontier(c, j, s, hi, f, z) && lag <= hi
    requires 1 <= k <= f && fuel >= f + 1 - k
    ensures BehindEnds(c, j, Back(s, k), lag, fuel)
    decreases f - k
  {
    assert ByteDec(Back(s, k)) == Back(s, k + 1);
    if View(c, j, s, k) + 1 <= lag {
      assert k < f;
      BehindFrom(c, j, s, hi, f, z, lag, k + 1, fuel - 1);
    }
  }

  /** A ring with a frontier for a window ending at hi ends every phase C
      walk for a lag up to hi. */
  lemma BehindStops(c: seq<int>, j: nat, s: int, hi: int, f: nat, z: nat, lag: int)
    requires Fits(c, j) && IsByte(s) && Frontier(c, j, s, hi, f, z) && lag <= hi
    ensures BehindEnds(c, j, ByteDec(s), lag, 256)
  {
    assert Back(s, 1) == ByteDec(s);
    BehindFrom(c, j, s, hi, f, z, lag, 1, 256);
  }
}

/** Single steps of the loops of phase B and phase C, as the imperative
    correlator in class Gmn takes them: the tail-correction loop, which runs
    over a cascade's lags from the last one down, and one cascade's step in
    the loop over the cascades. */
module EngineSteps {
  import opened JavaInt
  import opened Events
  import opened LagTable
  import opened Engine
  import opened EngineChain
  import opened EngineInvariant

  /** Taking lag ii into the tail correction: the corrections from ii on
      are those from ii + 1 on, plus w at lag ii if that lag exceeds tl. */
  lemma TailStep(a: seq<int>, p: Params, j: nat, tl: int, w: int, ii: nat)
    requires ValidParams(p) && j < p.nc && ii < NtLag(p, j) && |a| == LagCount(p)
    ensures Offset(p, j) + ii < |a|
    ensures var k := Offset(p, j) + ii;
      var t := Tail(a, p, j, tl, w, ii + 1);
      Tail(a, p, j, tl, w, ii) == (if tl < Lag(p, k) then t[k := t[k] + w] else t)
  {
    Tiling(p, j);
  }

  /** The tail correction lag by lag: an entry of the block of cascade j at
      or after index `from` gains w exactly when its lag exceeds tl; every
      other entry is left as it was. */
  lemma {:induction false} TailAt(a: seq<int>, p: Params, j: nat, tl: int, w: int, from: nat, k: int)
    requires ValidParams(p) && j < p.nc && |a| == LagCount(p) && 0 <= k < |a|
    ensures Tail(a, p, j, tl, w, from)[k] ==
      if Offset(p, j) + from <= k < Offset(p, j) + NtLag(p, j) && tl < Lag(p, k) then a[k] + w else a[k]
    decreases NtLag(p, j) - from
  {
    if from < NtLag(p, j) {
      TailAt(a, p, j, tl, w, from + 1, k);
    }
  }

  /** When the total time has reached the last lag of the cascade, no lag
      of the cascade exceeds it, so the tail correction changes nothing
      (the source skips its loop then). */
  lemma {:induction false} TailNone(a: seq<int>, p: Params, j: nat, tl: int, w: int, from: nat)
    requires ValidParams(p) && j < p.nc && |a| == LagCount(p) && tl >= LagAt(p, j, NtLag(p, j) - 1)
    ensures Tail(a, p, j, tl, w, from) == a
    decreases NtLag(p, j) - from
  {
    if from < NtLag(p, j) {
      TailNone(a, p, j, tl, w, from + 1);
      LagOf(p, j, from);
      LagOf(p, j, NtLag(p, j) - 1);
    }
  }

  /** Once tl has reached the last lag no lag is credited. */
  lemma TailsNone(s: Sums, p: Params, m: Mode, j: nat, tl: int, cA: int, cB: int)
    requires ValidParams(p) && j < p.nc && SumsShaped(s, p, m) && tl >= LagAt(p, j, NtLag(p, j) - 1)
    ensures Tails(s, p, m, j, tl, cA, cB, 0) == s
  {
    TailNone(s.s01a, p, j, tl, cA, 0);
    if m == Cross {
      TailNone(s.s01b, p, j, tl, cB, 0);
    }
    if m == HighOrder {
      TailNone(s.s02a, p, j, tl, ToInt32(cA * cA), 0);
      TailNone(s.s03a, p, j, tl, ToInt32(cA * cA * cA), 0);
    }
  }

  /** The first inner loop of the search, one slot: a slot whose time is
      below the window is passed, and the slot behind it is brought up to
      date. */
  lemma SkipStep(c: seq<int>, j: nat, st: int, add: int, lo: int, fuel: nat) returns (c': seq<int>)
    requires Fits(c, j) && IsByte(st) && fuel > 0 && c[Slot(j, st)] < lo
    ensures c' == c[Slot(j, ByteDec(st)) := c[Slot(j, ByteDec(st))] + add]
    ensures Skip(c, j, st, add, lo, fuel) == Skip(c', j, ByteDec(st), add, lo, fuel - 1)
  {
    c' := c[Slot(j, ByteDec(st)) := c[Slot(j, ByteDec(st))] + add];
  }

  /** The second inner loop of the search, one slot: the lag product k of
      the newest bin with the reached one is taken, and the slot behind it
      is brought up to date. */
  lemma GatherNext(c: seq<int>, s: Sums, wa: seq<int>, wb: seq<int>, p: Params, m: Mode, j: nat, w: Window,
                   st: int, add: int, cA: int, cB: int, fuel: nat, k: int, sA: int, sB: int) returns (c': seq<int>)
    requires ValidParams(p) && WindowOk(w, p) && SumsShaped(s, p, m) && IsByte(st)
    requires Fits(c, j) && Fits(wa, j) && (m == Cross ==> Fits(wb, j))
    requires fuel > 0 && w.lo <= c[Slot(j, st)] <= w.hi
    requires k == w.off + c[Slot(j, st)] - w.sub && sA == wa[Slot(j, st)] && sB == (if m == Cross then wb[Slot(j, st)] else 0)
    ensures 0 <= k < LagCount(p)
    ensures c' == c[Slot(j, ByteDec(st)) := c[Slot(j, ByteDec(st))] + add]
    ensures Gather(c, s, wa, wb, p, m, j, w, st, add, cA, cB, fuel) ==
            Gather(c', Product(s, p, m, k, cA, cB, sA, sB), wa, wb, p, m, j, w, ByteDec(st), add, cA, cB, fuel - 1)
  {
    c' := c[Slot(j, ByteDec(st)) := c[Slot(j, ByteDec(st))] + add];
  }

  /** Phase C's walk, one slot: a slot whose time + 1 is within the lag is
      taken in and the walk goes on behind it. */
  lemma BehindStep(c: seq<int>, w: seq<int>, j: nat, st: int, lag: int, deg: nat, fuel: nat)
    requires |c| >= 256 * (j + 1) && |w| >= 256 * (j + 1) && -128 <= st < 128
    requires fuel > 0 && c[Slot(j, st)] + 1 <= lag
    ensures Behind(c, w, j, st, lag, deg, fuel) ==
            Moment(w[Slot(j, st)], deg) + Behind(c, w, j, ByteDec(st), lag, deg, fuel - 1)
  {
  }
}

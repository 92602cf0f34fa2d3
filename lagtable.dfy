/** Phase A of updateCorrAutoInt / updateCorrCrossInt / updateCorrAutoHOmltInt:
    the cascade layout of the multi-tau correlator. Cascade j has time base
    t0 * 2^j; cascade 0 has 2np lags and every other cascade np; the lags of
    cascade j are stored from offset 0 (j == 0) or (j + 1) * np, in the arrays
    of length np * (nc + 1) that hold g and the s sums. */
module LagTable {
  import opened JavaInt

  /** n * x by repeated addition, so that bounds on products stay out of
      the solver's arithmetic until a lemma brings them in. */
  function Times(n: int, x: int): (r: int)
    ensures x >= 0 ==> r >= 0
    decreases n
  {
    if n <= 0 then 0 else Times(n - 1, x) + x
  }

  /** The correlator's parameters (setParams): base time, cascades, points
      per cascade, and what the model needs of them: all positive, the
      largest lag time np * t0 * 2^nc a Java int, and at most 127 points per
      cascade, so that the longest lag 2 * np stays below 256. With a lag of
      256 the backward walk of phase B can pass the ring's pointer and start
      over on the newest bin. */
  datatype Params = Params(t0: int, nc: int, np: int)

  predicate ValidParams(p: Params)
  {
    p.t0 >= 1 && p.nc >= 1 && 1 <= p.np <= 127 && Times(p.np, Timebase(p, p.nc)) <= MaxInt32
  }

  /** t0 * 2^j: each cascade doubles the time base of the one before. */
  function Timebase(p: Params, j: nat): int
  {
    if j == 0 then p.t0 else 2 * Timebase(p, j - 1)
  }

  function NtLag(p: Params, j: nat): int
  {
    if j == 0 then 2 * p.np else p.np
  }

  /** Where cascade j's lags start: (j + 1) * np, except 0 for cascade 0. */
  function Offset(p: Params, j: nat): int
  {
    if j == 0 then 0 else Times(j + 1, p.np)
  }

  /** The length of every g and s array: np * (nc + 1). */
  function LagCount(p: Params): int
  {
    Times(p.nc + 1, p.np)
  }

  /** cc[k]: the lag, in units of its cascade's time base, stored at k:
      k + 1 in the first 2np places, and from there on repeating with
      period np, each later cascade's lags running from np + 1 to 2np. */
  function Lag(p: Params, k: nat): int
    requires p.np >= 1
    decreases k
  {
    if k < 2 * p.np then k + 1 else Lag(p, k - p.np)
  }

  function LagTable(p: Params): (cc: seq<int>)
    requires ValidParams(p)
    ensures |cc| == LagCount(p)
  {
    seq(LagCount(p), k requires 0 <= k < LagCount(p) => Lag(p, k))
  }

  /** The blocks of the cascades follow each other without gap and fill
      the s arrays exactly. */
  lemma Tiling(p: Params, j: nat)
    requires ValidParams(p)
    ensures Offset(p, j) + NtLag(p, j) == Offset(p, j + 1)
    ensures j < p.nc ==> Offset(p, j) + NtLag(p, j) <= LagCount(p)
    ensures j + 1 == p.nc ==> Offset(p, j) + NtLag(p, j) == LagCount(p)
  {
    assert Times(j + 2, p.np) == Times(j + 1, p.np) + p.np;
    if j == 0 {
      assert Times(2, p.np) == 2 * p.np;
    }
    if j < p.nc {
      TimesUp(j + 2, p.nc + 1, p.np, p.np);
    }
  }

  /** Lag ii of cascade j: ii + 1 in cascade 0, np + ii + 1 in the others,
      so a cascade's lags are consecutive, and its last one (ii = NtLag - 1)
      is 2np. */
  lemma {:induction false} LagOf(p: Params, j: nat, ii: nat)
    requires p.np >= 1 && ii < NtLag(p, j)
    ensures Lag(p, Offset(p, j)) == (if j == 0 then 1 else p.np + 1)
    ensures Lag(p, Offset(p, j) + ii) == Lag(p, Offset(p, j)) + ii
  {
    if j > 1 {
      LagOf(p, j - 1, ii);
      assert Offset(p, j) == Offset(p, j - 1) + p.np;
    } else if j == 1 {
      assert Offset(p, 1) == Times(2, p.np) == 2 * p.np;
    }
  }

  /** Every lag is at least 1 and at most 2np, well below the 10000 that
      marks an empty ring slot. */
  lemma LagRange(p: Params, k: nat)
    requires ValidParams(p) && k < LagCount(p)
    ensures 1 <= Lag(p, k) <= 2 * p.np < 10000
  {
  }

  lemma TimesIsProduct(n: nat, x: int)
    ensures Times(n, x) == n * x
  {
    if n > 0 {
      TimesIsProduct(n - 1, x);
    }
  }

  lemma TimesDiv(n: nat, x: int)
    requires x > 0
    ensures Times(n, x) / x == n
  {
    TimesIsProduct(n, x);
    DivModUnique(Times(n, x), x, n, 0);
  }

  lemma TimesDouble(n: nat, x: int)
    ensures Times(2 * n, x) == Times(n, 2 * x)
  {
    TimesIsProduct(2 * n, x);
    TimesIsProduct(n, 2 * x);
  }

  lemma TimesUp(m: nat, n: nat, x: int, y: int)
    requires m <= n && 0 <= x <= y
    ensures 0 <= Times(m, x) <= Times(n, y)
    decreases n
  {
    if m < n {
      TimesUp(m, n - 1, x, y);
    } else if n > 0 {
      TimesUp(m - 1, n - 1, x, y);
    }
  }

  lemma TimebaseUp(p: Params, i: nat, j: nat)
    requires p.t0 >= 1 && i <= j
    ensures 1 <= Timebase(p, i) <= Timebase(p, j)
  {
    if j > 0 && i < j {
      TimebaseUp(p, i, j - 1);
    } else if i > 0 {
      TimebaseUp(p, i - 1, j - 1);
    }
  }

  /** Euclidean division is unique: x == b * q + r with 0 <= r < b fixes
      x / b and x % b. */
  lemma DivModUnique(x: int, b: int, q: int, r: int)
    requires b > 0 && 0 <= r < b && x == b * q + r
    ensures x / b == q && x % b == r
  {
    var q' := x / b;
    var r' := x % b;
    assert b * (q' - q) == r - r' by {
      assert b * q' + r' == b * q + r;
    }
    if q' > q {
      MulAtLeast(b, q' - q);
    } else if q' < q {
      MulAtLeast(b, q - q');
    }
  }

  lemma MulAtLeast(b: int, d: int)
    requires b > 0 && d >= 1
    ensures b * d >= b && b * -d <= -b
  {
    assert b * d == b + b * (d - 1);
  }

  lemma MulMono(a: int, b: int, c: int)
    requires a >= 0 && b <= c
    ensures a * b <= a * c
  {
    assert a * c == a * b + a * (c - b);
  }

  /** Lag times up to np * t0 * 2^j, j <= nc, are Java ints. */
  lemma TimeFits(p: Params, j: nat)
    requires ValidParams(p) && j <= p.nc
    ensures 1 <= Timebase(p, j) <= Times(p.np, Timebase(p, j)) <= MaxInt32
  {
    TimebaseUp(p, j, p.nc);
    TimesUp(1, p.np, Timebase(p, j), Timebase(p, j));
    TimesUp(p.np, p.np, Timebase(p, j), Timebase(p, p.nc));
  }

  /** Phase A as the source computes it, with the running lag time tt; no
      step of it leaves the range of a Java int. */
  method ComputeLags(p: Params) returns (timebase: array<int>, ntlag: array<int>, cc: array<int>)
    requires ValidParams(p)
    ensures fresh(timebase) && fresh(ntlag) && fresh(cc)
    ensures timebase.Length == p.nc && ntlag.Length == p.nc && cc.Length == LagCount(p)
    ensures forall j :: 0 <= j < p.nc ==> timebase[j] == Timebase(p, j) && ntlag[j] == NtLag(p, j)
    ensures cc[..] == LagTable(p)
  {
    ntlag := LagCounts(p);
    timebase := Timebases(p);
    cc := new int[LagCount(p)];
    var tt := 0;
    var jj := 0;
    while jj < p.nc
      invariant 0 <= jj <= p.nc
      invariant forall j :: 0 <= j < p.nc ==> timebase[j] == Timebase(p, j) && ntlag[j] == NtLag(p, j)
      invariant tt == (if jj == 0 then 0 else Times(p.np, Timebase(p, jj)))
      invariant Offset(p, jj) <= LagCount(p)
      invariant forall k :: 0 <= k < Offset(p, jj) ==> cc[k] == Lag(p, k)
    {
      Tiling(p, jj);
      tt := FillCascade(p, cc, jj, timebase[jj], ntlag[jj], tt);
      jj := jj + 1;
    }
    Tiling(p, p.nc - 1);
    assert cc[..] == LagTable(p);
  }

  method LagCounts(p: Params) returns (ntlag: array<int>)
    requires ValidParams(p)
    ensures fresh(ntlag) && ntlag.Length == p.nc
    ensures forall j :: 0 <= j < p.nc ==> ntlag[j] == NtLag(p, j)
  {
    ntlag := new int[p.nc];
    ntlag[0] := p.np * 2;
    var jj := 1;
    while jj < p.nc
      invariant 1 <= jj <= p.nc
      invariant ntlag[0] == 2 * p.np
      invariant forall j :: 1 <= j < jj ==> ntlag[j] == p.np
    {
      ntlag[jj] := p.np;
      jj := jj + 1;
    }
  }

  method Timebases(p: Params) returns (timebase: array<int>)
    requires ValidParams(p)
    ensures fresh(timebase) && timebase.Length == p.nc
    ensures forall j :: 0 <= j < p.nc ==> timebase[j] == Timebase(p, j) <= MaxInt32
  {
    timebase := new int[p.nc];
    timebase[0] := p.t0;
    TimeFits(p, 0);
    var jj := 1;
    while jj < p.nc
      invariant 1 <= jj <= p.nc
      invariant forall j :: 0 <= j < jj ==> timebase[j] == Timebase(p, j) <= MaxInt32
    {
      TimeFits(p, jj);
      timebase[jj] := timebase[jj - 1] * 2;
      jj := jj + 1;
    }
  }

  /** One lag of phase A: adding the time base to tt stays a Java int and
      gives the next lag in units of the time base. */
  lemma LagStep(p: Params, jj: nat, ii: nat, tb: int, tt: int)
    requires ValidParams(p) && jj < p.nc && ii < NtLag(p, jj) && tb == Timebase(p, jj)
    requires tt == Times((if jj == 0 then 0 else p.np) + ii, tb)
    ensures tb >= 1 && tt + tb <= MaxInt32
    ensures tt + tb == Times((if jj == 0 then 0 else p.np) + ii + 1, tb)
    ensures (tt + tb) / tb == Lag(p, Offset(p, jj) + ii)
  {
    var first := if jj == 0 then 0 else p.np;
    TimeFits(p, jj + 1);
    TimesDouble(p.np, tb);
    TimesUp(first + ii + 1, 2 * p.np, tb, tb);
    TimesDiv(first + ii + 1, tb);
    LagOf(p, jj, ii);
  }

  /** The lags of cascade jj: tt goes up by the time base once per lag and
      each lag is tt in units of that time base. */
  method FillCascade(p: Params, cc: array<int>, jj: nat, tb: int, nt: int, tt0: int) returns (tt: int)
    requires ValidParams(p) && jj < p.nc && cc.Length == LagCount(p)
    requires Offset(p, jj) + NtLag(p, jj) == Offset(p, jj + 1) <= cc.Length
    requires tb == Timebase(p, jj) && nt == NtLag(p, jj)
    requires tt0 == (if jj == 0 then 0 else Times(p.np, tb))
    modifies cc
    ensures tt == Times(p.np, Timebase(p, jj + 1)) <= MaxInt32
    ensures forall k :: 0 <= k < Offset(p, jj) ==> cc[k] == old(cc[k])
    ensures forall k :: Offset(p, jj) <= k < Offset(p, jj + 1) ==> cc[k] == Lag(p, k)
    ensures forall k :: Offset(p, jj + 1) <= k < cc.Length ==> cc[k] == old(cc[k])
  {
    tt := tt0;
    var jjoffset := if jj == 0 then 0 else (jj + 1) * p.np;
    ghost var lo := Offset(p, jj);
    ghost var first: nat := if jj == 0 then 0 else p.np;
    TimesIsProduct(jj + 1, p.np);
    assert jjoffset == lo;
    var ii := 0;
    while ii < nt
      invariant 0 <= ii <= nt
      invariant tt == Times(first + ii, tb)
      invariant forall k :: 0 <= k < lo ==> cc[k] == old(cc[k])
      invariant forall k :: lo <= k < lo + ii ==> cc[k] == Lag(p, k)
      invariant forall k :: lo + nt <= k < cc.Length ==> cc[k] == old(cc[k])
    {
      LagStep(p, jj, ii, tb, tt);
      tt := tt + tb;
      cc[jjoffset + ii] := tt / tb;
      ii := ii + 1;
    }
    TimesDouble(p.np, tb);
    TimeFits(p, jj + 1);
  }
}

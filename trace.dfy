/** The intensity tracer (updateIntensityTraceOneChInt and
    updateIntensityTraceTwoChInt): each batch is cut into bins of binSize
    events, the last bin of a batch taking whatever is left; each bin gives
    one trace point, its mid time and its rates, and the macro time moves
    on by the bin's duration. */
module Trace {
  import opened Events
  import opened LagTable

  /** The trace holds at most this many points. */
  const TraceLength: int := 32768

  /** A bin's intensity, y / (double) x, kept as the two integers. */
  datatype Rate = Rate(weight: int, ticks: int)

  /** One trace point: the bin's mid time macroTime + x / 2 and its rates
      on channel A and channel B. */
  datatype Point = Point(x: real, ya: Rate, yb: Rate)

  /** The points the tracer emits for evs when the open bin already holds
      ii events of ticks x and weights ya, yb, and the macro time at the
      open bin's start is t. A bin closes when it holds size events or
      when the batch ends. */
  function PointsFrom(evs: seq<Event>, size: int, ii: int, x: int, ya: int, yb: int, t: int): seq<Point>
    decreases |evs|
  {
    if evs == [] then []
    else
      var e := evs[0];
      var x', ya', yb' := x + e.iat, ya + e.wA, yb + e.wB;
      if ii + 1 == size || |evs| == 1 then
        [Point(t as real + x' as real / 2.0, Rate(ya', x'), Rate(yb', x'))] + PointsFrom(evs[1..], size, 0, 0, 0, 0, t + x')
      else PointsFrom(evs[1..], size, ii + 1, x', ya', yb', t)
  }

  /** PointsFrom from event k of evs: event k either closes its bin (the
      bin is full or k is the batch's last event) or joins it. */
  lemma PointsFromAt(evs: seq<Event>, k: nat, size: int, ii: int, x: int, ya: int, yb: int, t: int)
    requires k < |evs|
    ensures var e := evs[k];
      var x', ya', yb' := x + e.iat, ya + e.wA, yb + e.wB;
      PointsFrom(evs[k..], size, ii, x, ya, yb, t) ==
        if ii + 1 == size || k + 1 == |evs| then
          [Point(t as real + x' as real / 2.0, Rate(ya', x'), Rate(yb', x'))] + PointsFrom(evs[k + 1..], size, 0, 0, 0, 0, t + x')
        else PointsFrom(evs[k + 1..], size, ii + 1, x', ya', yb', t)
  {
    assert evs[k..][0] == evs[k] && evs[k..][1..] == evs[k + 1..];
  }

  /** The points of one batch: every batch starts a new bin. */
  function Points(evs: seq<Event>, size: int, t: int): seq<Point>
  {
    PointsFrom(evs, size, 0, 0, 0, 0, t)
  }

  /** The time the points span: the sum of their bins' durations. */
  function Spanned(ps: seq<Point>): int
  {
    if ps == [] then 0 else Spanned(ps[..|ps| - 1]) + ps[|ps| - 1].ya.ticks
  }

  /** The channel A weight the points hold. */
  function WeighedA(ps: seq<Point>): int
  {
    if ps == [] then 0 else WeighedA(ps[..|ps| - 1]) + ps[|ps| - 1].ya.weight
  }

  lemma {:induction false} SpannedCons(pt: Point, ps: seq<Point>)
    ensures Spanned([pt] + ps) == pt.ya.ticks + Spanned(ps)
    ensures WeighedA([pt] + ps) == pt.ya.weight + WeighedA(ps)
    decreases |ps|
  {
    if ps != [] {
      var last := |ps| - 1;
      assert ([pt] + ps)[..|ps|] == [pt] + ps[..last];
      SpannedCons(pt, ps[..last]);
    } else {
      assert [pt] + ps == [pt];
      assert [pt][..0] == [];
    }
  }

  /** A bin of the batch that reaches the end of the trace: one more point. */
  lemma SpannedSnoc(ps: seq<Point>, k: nat)
    requires k < |ps|
    ensures Spanned(ps[..k + 1]) == Spanned(ps[..k]) + ps[k].ya.ticks
  {
    assert ps[..k + 1][..k] == ps[..k];
  }

  /** The number of points: one per size events, and one for a last,
      partial bin; in terms of ceilings, |points| = ceil((ii + |evs|) / size). */
  lemma {:induction false} CountFrom(evs: seq<Event>, size: int, ii: int, x: int, ya: int, yb: int, t: int)
    requires 0 <= ii < size && evs != []
    ensures var n := |PointsFrom(evs, size, ii, x, ya, yb, t)|;
      n >= 1 && Times(n - 1, size) < ii + |evs| <= Times(n, size)
    decreases |evs|
  {
    var e := evs[0];
    var x', ya', yb' := x + e.iat, ya + e.wA, yb + e.wB;
    if |evs| == 1 {
      assert PointsFrom(evs, size, ii, x, ya, yb, t) ==
             [Point(t as real + x' as real / 2.0, Rate(ya', x'), Rate(yb', x'))] + PointsFrom([], size, 0, 0, 0, 0, t + x');
      assert Times(1, size) == size;
    } else if ii + 1 == size {
      CountFrom(evs[1..], size, 0, 0, 0, 0, t + x');
    } else {
      CountFrom(evs[1..], size, ii + 1, x', ya', yb', t);
    }
  }

  /** A batch of n events gives ceil(n / size) points. */
  lemma PointsCount(evs: seq<Event>, size: int, t: int)
    requires size >= 1
    ensures evs == [] ==> Points(evs, size, t) == []
    ensures evs != [] ==> var n := |Points(evs, size, t)|;
      n >= 1 && Times(n - 1, size) < |evs| <= Times(n, size)
  {
    if evs != [] {
      CountFrom(evs, size, 0, 0, 0, 0, t);
    }
  }

  /** Nothing is lost: the bins together last exactly as long as the
      events, and hold exactly their channel A weight. */
  lemma {:induction false} ConservedFrom(evs: seq<Event>, size: int, ii: int, x: int, ya: int, yb: int, t: int)
    requires evs != []
    ensures Spanned(PointsFrom(evs, size, ii, x, ya, yb, t)) == x + Ticks(evs)
    ensures WeighedA(PointsFrom(evs, size, ii, x, ya, yb, t)) == ya + Sum(WeightsA(evs))
    decreases |evs|
  {
    var e := evs[0];
    var x', ya', yb' := x + e.iat, ya + e.wA, yb + e.wB;
    FirstAndRest(evs);
    if ii + 1 == size || |evs| == 1 {
      ConservedClose(evs, size, ii, x, ya, yb, t);
    } else {
      ConservedFrom(evs[1..], size, ii + 1, x', ya', yb', t);
    }
  }

  /** The step of ConservedFrom where the first event closes its bin. */
  lemma {:induction false} ConservedClose(evs: seq<Event>, size: int, ii: int, x: int, ya: int, yb: int, t: int)
    requires evs != [] && (ii + 1 == size || |evs| == 1)
    ensures Spanned(PointsFrom(evs, size, ii, x, ya, yb, t)) == x + evs[0].iat + Ticks(evs[1..])
    ensures WeighedA(PointsFrom(evs, size, ii, x, ya, yb, t)) == ya + evs[0].wA + Sum(WeightsA(evs[1..]))
    decreases |evs|, 0
  {
    var e := evs[0];
    var x', ya', yb' := x + e.iat, ya + e.wA, yb + e.wB;
    var pt := Point(t as real + x' as real / 2.0, Rate(ya', x'), Rate(yb', x'));
    var rest := PointsFrom(evs[1..], size, 0, 0, 0, 0, t + x');
    assert PointsFrom(evs, size, ii, x, ya, yb, t) == [pt] + rest;
    SpannedCons(pt, rest);
    if |evs| == 1 {
      assert evs[1..] == [];
    } else {
      ConservedFrom(evs[1..], size, 0, 0, 0, 0, t + x');
    }
  }

  /** A whole batch's points span its ticks and hold its weight. */
  lemma Conserved(evs: seq<Event>, size: int, t: int)
    ensures Spanned(Points(evs, size, t)) == Ticks(evs)
    ensures WeighedA(Points(evs, size, t)) == Sum(WeightsA(evs))
  {
    if evs != [] {
      ConservedFrom(evs, size, 0, 0, 0, 0, t);
    }
  }

  /** Each point sits in the middle of its bin: point k's time is the
      macro time at the start plus the durations of the bins before it plus
      half its own. */
  lemma {:induction false} MidpointsFrom(evs: seq<Event>, size: int, ii: int, x: int, ya: int, yb: int, t: int, k: nat)
    requires k < |PointsFrom(evs, size, ii, x, ya, yb, t)|
    ensures var ps := PointsFrom(evs, size, ii, x, ya, yb, t);
      ps[k].x == (t + Spanned(ps[..k])) as real + ps[k].ya.ticks as real / 2.0
    decreases |evs|
  {
    var e := evs[0];
    var x', ya', yb' := x + e.iat, ya + e.wA, yb + e.wB;
    var pt := Point(t as real + x' as real / 2.0, Rate(ya', x'), Rate(yb', x'));
    var ps := PointsFrom(evs, size, ii, x, ya, yb, t);
    if ii + 1 == size || |evs| == 1 {
      var rest := PointsFrom(evs[1..], size, 0, 0, 0, 0, t + x');
      assert ps == [pt] + rest;
      if k == 0 {
        assert ps[..0] == [];
      } else {
        MidpointsFrom(evs[1..], size, 0, 0, 0, 0, t + x', k - 1);
        assert ps[..k] == [pt] + rest[..k - 1];
        SpannedCons(pt, rest[..k - 1]);
      }
    } else {
      MidpointsFrom(evs[1..], size, ii + 1, x', ya', yb', t, k);
    }
  }

  /** The same for a whole batch. */
  lemma Midpoints(evs: seq<Event>, size: int, t: int, k: nat)
    requires k < |Points(evs, size, t)|
    ensures var ps := Points(evs, size, t);
      ps[k].x == (t + Spanned(ps[..k])) as real + ps[k].ya.ticks as real / 2.0
  {
    MidpointsFrom(evs, size, 0, 0, 0, 0, t, k);
  }
}

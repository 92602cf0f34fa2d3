/** The batch the decoders fill and the correlators consume: event i is the
    triple (photonsIat[i], wAint[i], wBint[i]). */
module Events {

  /** Capacity of photonsIat / wAint / wBint (and of the intensity trace). */
  const Capacity: int := 32768

  /** An event: ticks since the previous event, and its weight on channels A and B. */
  datatype Event = Event(iat: int, wA: int, wB: int)

  function Iats(evs: seq<Event>): (r: seq<int>)
    ensures |r| == |evs| && forall i :: 0 <= i < |evs| ==> r[i] == evs[i].iat
  {
    seq(|evs|, i requires 0 <= i < |evs| => evs[i].iat)
  }

  function WeightsA(evs: seq<Event>): (r: seq<int>)
    ensures |r| == |evs| && forall i :: 0 <= i < |evs| ==> r[i] == evs[i].wA
  {
    seq(|evs|, i requires 0 <= i < |evs| => evs[i].wA)
  }

  function WeightsB(evs: seq<Event>): (r: seq<int>)
    ensures |r| == |evs| && forall i :: 0 <= i < |evs| ==> r[i] == evs[i].wB
  {
    seq(|evs|, i requires 0 <= i < |evs| => evs[i].wB)
  }

  /** The events of parallel arrays, as the correlators read them. */
  function Zip(iats: seq<int>, wa: seq<int>, wb: seq<int>): (evs: seq<Event>)
    requires |iats| == |wa| == |wb|
    ensures Iats(evs) == iats && WeightsA(evs) == wa && WeightsB(evs) == wb
  {
    seq(|iats|, i requires 0 <= i < |iats| => Event(iats[i], wa[i], wb[i]))
  }

  predicate AllTagged(evs: seq<Event>, wA: int, wB: int)
  {
    forall i :: 0 <= i < |evs| ==> evs[i].wA == wA && evs[i].wB == wB
  }

  predicate AllPositive(evs: seq<Event>)
  {
    forall i :: 0 <= i < |evs| ==> evs[i].iat >= 1
  }

  /** An event of a photon on A, on B, or on both. */
  predicate PhotonTag(e: Event)
  {
    (e.wA == 0 || e.wA == 1) && (e.wB == 0 || e.wB == 1) && e.wA + e.wB >= 1
  }

  predicate PhotonTags(evs: seq<Event>)
  {
    forall i :: 0 <= i < |evs| ==> PhotonTag(evs[i])
  }

  /** Every event has one of the weight pairs in tags. */
  predicate WeightsIn(evs: seq<Event>, tags: set<(int, int)>)
  {
    forall i :: 0 <= i < |evs| ==> (evs[i].wA, evs[i].wB) in tags
  }

  predicate NonNegative(evs: seq<Event>)
  {
    forall i :: 0 <= i < |evs| ==> evs[i].iat >= 0
  }

  lemma WeightsAppend(a: seq<Event>, b: seq<Event>, tags: set<(int, int)>)
    ensures WeightsIn(a, tags) && WeightsIn(b, tags) ==> WeightsIn(a + b, tags)
    ensures NonNegative(a) && NonNegative(b) ==> NonNegative(a + b)
  {
    assert forall i :: |a| <= i < |a| + |b| ==> (a + b)[i] == b[i - |a|];
  }

  function Sum(s: seq<int>): int
  {
    if s == [] then 0 else Sum(s[..|s| - 1]) + s[|s| - 1]
  }

  /** The total time an event sequence spans. */
  function Ticks(evs: seq<Event>): int
  {
    Sum(Iats(evs))
  }

  lemma {:induction false} SumAppend(a: seq<int>, b: seq<int>)
    ensures Sum(a + b) == Sum(a) + Sum(b)
    decreases |b|
  {
    if b == [] {
      assert a + b == a;
    } else {
      assert (a + b)[..|a + b| - 1] == a + b[..|b| - 1];
      SumAppend(a, b[..|b| - 1]);
    }
  }

  lemma TicksAppend(a: seq<Event>, b: seq<Event>)
    ensures Ticks(a + b) == Ticks(a) + Ticks(b)
  {
    assert Iats(a + b) == Iats(a) + Iats(b);
    SumAppend(Iats(a), Iats(b));
  }

  lemma TicksCons(e: Event, b: seq<Event>)
    ensures Ticks([e] + b) == e.iat + Ticks(b)
  {
    TicksAppend([e], b);
    assert Iats([e]) == [e.iat];
    assert Sum([e.iat]) == Sum([]) + e.iat;
  }

  lemma SumCons(x: int, s: seq<int>)
    ensures Sum([x] + s) == x + Sum(s)
  {
    SumAppend([x], s);
    assert Sum([x]) == Sum([]) + x;
  }

  /** A batch's time and weights are its first event's and the rest's. */
  lemma FirstAndRest(evs: seq<Event>)
    requires evs != []
    ensures Ticks(evs) == evs[0].iat + Ticks(evs[1..])
    ensures Sum(WeightsA(evs)) == evs[0].wA + Sum(WeightsA(evs[1..]))
    ensures Sum(WeightsB(evs)) == evs[0].wB + Sum(WeightsB(evs[1..]))
  {
    assert evs == [evs[0]] + evs[1..];
    TicksCons(evs[0], evs[1..]);
    assert WeightsA(evs) == [evs[0].wA] + WeightsA(evs[1..]);
    SumCons(evs[0].wA, WeightsA(evs[1..]));
    assert WeightsB(evs) == [evs[0].wB] + WeightsB(evs[1..]);
    SumCons(evs[0].wB, WeightsB(evs[1..]));
  }
}

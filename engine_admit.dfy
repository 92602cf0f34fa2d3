/** Which batches phase B is proved on, stated on the batch alone. With a
    time base t0 other than 1 every batch of non-negative iats is admitted.
    With t0 = 1 an iat of 0 (two photons in the same tick, as the
    cross-correlation decoders produce for coincident photons) is admitted
    when one of the n events before it, n = Spread(2np) - 1, has an iat of
    at least 1: runs of zeros are at most n long and never open the batch.
    n is 6 for np = 16 and 0 for np > 62. */
module EngineAdmit {
  import opened Events
  import opened LagTable
  import opened EngineChain
  import opened EngineInvariant

  /** Every iat is non-negative. */
  predicate NonNegative(evs: seq<Event>)
  {
    forall i :: 0 <= i < |evs| ==> evs[i].iat >= 0
  }

  /** Every iat is non-negative, and every iat of 0 has an iat of at least
      1 among the n events before it. */
  predicate Spaced(evs: seq<Event>, n: nat)
  {
    NonNegative(evs) &&
    forall i :: 0 <= i < |evs| && evs[i].iat == 0 ==> exists k :: 0 <= k < i && i - n <= k && evs[k].iat >= 1
  }

  /** A spaced batch is admitted from position i on, when last is the
      newest event before i with an iat of at least 1 and z counts at most
      the zeros after it. */
  lemma {:induction false} SpacedFrom(p: Params, evs: seq<Event>, i: nat, z: nat, last: int)
    requires ValidParams(p) && Spaced(evs, Spread(2 * p.np) - 1) && i <= |evs| && z < Spread(2 * p.np)
    requires -1 <= last < i && (last == -1 ==> i == 0) && (last >= 0 ==> evs[last].iat >= 1 && z <= i - 1 - last)
    requires forall k :: last < k < i ==> evs[k].iat == 0
    ensures Admits(p, z, evs[i..])
    decreases |evs| - i
  {
    if i < |evs| {
      var ev := evs[i];
      assert evs[i..][0] == ev && evs[i..][1..] == evs[i + 1..];
      if ev.iat >= 1 {
        SpacedFrom(p, evs, i + 1, 0, i);
      } else {
        var k :| 0 <= k < i && i - (Spread(2 * p.np) - 1) <= k && evs[k].iat >= 1;
        assert k <= last;
        SpacedFrom(p, evs, i + 1, After(p, z, ev), last);
      }
    }
  }

  /** An admitted batch after z zeros: its iats are non-negative, and with
      t0 = 1 an iat of 0 either lies in the first run of zeros, which
      continues the z before it, or has an iat of at least 1 among the
      Spread(2np) - 1 events before it. */
  lemma {:induction false} AdmitsSpaced(p: Params, z: nat, evs: seq<Event>)
    requires ValidParams(p) && Admits(p, z, evs)
    ensures NonNegative(evs)
    ensures p.t0 == 1 ==> forall i :: 0 <= i < |evs| && evs[i].iat == 0 ==>
      i + z + 1 < Spread(2 * p.np) || exists k :: 0 <= k < i && i - (Spread(2 * p.np) - 1) <= k && evs[k].iat >= 1
    decreases |evs|
  {
    if evs != [] {
      var ev := evs[0];
      var rest := evs[1..];
      var z' := After(p, z, ev);
      AdmitsSpaced(p, z', rest);
      assert forall i :: 1 <= i < |evs| ==> evs[i] == rest[i - 1];
      if p.t0 == 1 {
        forall i | 0 <= i < |evs| && evs[i].iat == 0
          ensures i + z + 1 < Spread(2 * p.np) || exists k :: 0 <= k < i && i - (Spread(2 * p.np) - 1) <= k && evs[k].iat >= 1
        {
          if i >= 1 {
            if ev.iat >= 1 && i + z + 1 >= Spread(2 * p.np) {
              if (i - 1) + z' + 1 < Spread(2 * p.np) {
                assert evs[0].iat >= 1;
              } else {
                var k' :| 0 <= k' < i - 1 && (i - 1) - (Spread(2 * p.np) - 1) <= k' && rest[k'].iat >= 1;
                assert evs[k' + 1].iat >= 1;
              }
            } else if i + z + 1 >= Spread(2 * p.np) {
              var k' :| 0 <= k' < i - 1 && (i - 1) - (Spread(2 * p.np) - 1) <= k' && rest[k'].iat >= 1;
              assert evs[k' + 1].iat >= 1;
            }
          }
        }
      }
    }
  }

  /** With t0 = 1, phase B is proved on exactly the spaced batches. */
  lemma SpacedIff(p: Params, evs: seq<Event>)
    requires ValidParams(p) && p.t0 == 1
    ensures EventsOk(p, evs) <==> Spaced(evs, Spread(2 * p.np) - 1)
  {
    SpreadFits(2 * p.np);
    if EventsOk(p, evs) {
      AdmitsSpaced(p, Spread(2 * p.np) - 1, evs);
    }
    if Spaced(evs, Spread(2 * p.np) - 1) {
      SpacedFrom(p, evs, 0, Spread(2 * p.np) - 1, -1);
      assert evs[0..] == evs;
    }
  }

  /** A batch with no zeros is admitted after any run. */
  lemma {:induction false} NonNegativeFrom(p: Params, z: nat, evs: seq<Event>)
    requires ValidParams(p) && p.t0 != 1 && NonNegative(evs)
    ensures Admits(p, z, evs)
    decreases |evs|
  {
    if evs != [] {
      assert forall i :: 0 <= i < |evs[1..]| ==> evs[1..][i] == evs[i + 1];
      NonNegativeFrom(p, 0, evs[1..]);
    }
  }

  /** With a time base other than 1, phase B is proved on exactly the
      batches of non-negative iats. */
  lemma NonNegativeIff(p: Params, evs: seq<Event>)
    requires ValidParams(p) && p.t0 != 1
    ensures EventsOk(p, evs) <==> NonNegative(evs)
  {
    SpreadFits(2 * p.np);
    if EventsOk(p, evs) {
      AdmitsSpaced(p, Spread(2 * p.np) - 1, evs);
    }
    if NonNegative(evs) {
      NonNegativeFrom(p, Spread(2 * p.np) - 1, evs);
    }
  }

  /** For 16 points per cascade (the default), runs of up to 6 zeros are
      admitted; from 63 points on, none. */
  lemma SpreadValues()
    ensures Spread(2 * 16) - 1 == 6
    ensures forall np :: 63 <= np <= 127 ==> Spread(2 * np) == 1
  {
    QuotientBounds(257, 35);
    forall np | 63 <= np <= 127
      ensures Spread(2 * np) == 1
    {
      var q := Quotient(257, 2 * np + 3);
      QuotientBounds(257, 2 * np + 3);
      if q >= 2 {
        MulMono(2 * np + 3, 2, q);
      }
    }
  }

  /** With t0 = 1 and 16 points per cascade, as the correlator is set up
      by default: a photon of channel A two ticks after the start and one
      of channel B in the same tick, the pair the cross-correlation
      decoders make of a coincidence, are admitted. So is the A photon
      followed by six photons in its tick, but not by seven, and not a
      batch that opens with an iat of 0. */
  lemma Coincidences(p: Params)
    requires ValidParams(p) && p.t0 == 1 && p.np == 16
    ensures var six := [Event(0, 0, 1), Event(0, 1, 0), Event(0, 0, 1), Event(0, 1, 0), Event(0, 0, 1), Event(0, 1, 0)];
      EventsOk(p, [Event(2, 1, 0), Event(0, 0, 1)]) &&
      EventsOk(p, [Event(2, 1, 0)] + six) &&
      !EventsOk(p, [Event(2, 1, 0)] + six + [Event(0, 0, 1)]) &&
      !EventsOk(p, [Event(0, 1, 0), Event(2, 0, 1)])
  {
    var six := [Event(0, 0, 1), Event(0, 1, 0), Event(0, 0, 1), Event(0, 1, 0), Event(0, 0, 1), Event(0, 1, 0)];
    QuotientBounds(257, 35);
    SpacedIff(p, [Event(2, 1, 0), Event(0, 0, 1)]);
    SpacedIff(p, [Event(2, 1, 0)] + six);
    var seven := [Event(2, 1, 0)] + six + [Event(0, 0, 1)];
    SpacedIff(p, seven);
    assert seven[7].iat == 0 && forall k :: 0 <= k < 7 && 7 - 6 <= k ==> seven[k].iat == 0;
    SpacedIff(p, [Event(0, 1, 0), Event(2, 0, 1)]);
  }
}

/** TCP samples: which of them are stored, and what a verdict reads from the stored ones. */
module Samples {
  import opened Base
  import opened Lists

  const PERSIST_INTERVAL: nat := 1_000_000_000
  const MATERIAL_FLOOR: nat := 2_000

  const WORD_MAX: nat := 0xFFFF_FFFF

  type Word = n: nat | n <= WORD_MAX

  /** The fields of a snapshot that decide whether it is stored or that a verdict uses. */
  datatype Sample = Sample(at: nat, state: nat, rtt: Word, rttVariance: Word, totalRetrans: Word, lost: Word)

  /** Subtraction of 64-bit unsigned values. */
  function Minus64(a: nat, b: nat): nat { (a - b) % (U64_MAX + 1) }

  function Difference(a: nat, b: nat): nat { if a > b then a - b else b - a }

  /** At least the floor, and at least num/den of the old value; the ratios in use are exact in binary
      and the values are below 2^32, so the division in floating point decides the same way. */
  predicate Material(a: nat, b: nat, num: nat, den: nat) {
    Difference(a, b) >= MATERIAL_FLOOR && (a == 0 || den * Difference(a, b) >= num * a)
  }

  predicate MeaningfulChange(previous: Sample, current: Sample, lastPersistAt: nat) {
    || current.totalRetrans != previous.totalRetrans || current.lost != previous.lost || current.state != previous.state
    || Material(previous.rtt, current.rtt, 1, 4)
    || Material(previous.rttVariance, current.rttVariance, 1, 2)
    || Minus64(current.at, lastPersistAt) >= PERSIST_INTERVAL
  }

  /** The second value is less than two milliseconds away from the first, or less than one n-th of it. */
  predicate NearTo(first: nat, second: nat, n: nat) {
    || first - MATERIAL_FLOOR < second < first + MATERIAL_FLOOR
    || (first > 0 && (n - 1) * first < n * second < (n + 1) * first)
  }

  /** Less than a second has passed, on a clock of 64 bits that may go round. */
  predicate SoonAfter(at: nat, later: nat) {
    at <= later < at + PERSIST_INTERVAL || later + U64_MAX + 1 < at + PERSIST_INTERVAL
  }

  /** A sample is left out after a stored one exactly when it comes within a second of it with the same counters
      and state, and with a round-trip time and a variance that are close to it, in either direction. */
  lemma LeftOutIff(kept: Sample, next: Sample)
    requires kept.at <= U64_MAX && next.at <= U64_MAX
    ensures MeaningfulChange(kept, next, kept.at)
            <==> !(&& next.totalRetrans == kept.totalRetrans && next.lost == kept.lost && next.state == kept.state
                   && NearTo(kept.rtt, next.rtt, 4) && NearTo(kept.rttVariance, next.rttVariance, 2)
                   && SoonAfter(kept.at, next.at))
  {
    MaterialIff(kept.rtt, next.rtt);
    MaterialIff(kept.rttVariance, next.rttVariance);
    ElapsedIs(kept.at, next.at);
  }

  lemma MaterialIff(a: nat, b: nat)
    ensures Material(a, b, 1, 4) <==> !NearTo(a, b, 4)
    ensures Material(a, b, 1, 2) <==> !NearTo(a, b, 2)
  {
  }

  lemma ElapsedIs(at: nat, later: nat)
    requires at <= U64_MAX && later <= U64_MAX
    ensures Minus64(later, at) == if later >= at then later - at else later - at + U64_MAX + 1
  {
  }

  /** The stored part of a history of samples, oldest first: the first sample always, and then every
      sample that changed meaningfully against the last stored one. */
  function Thin(observed: seq<Sample>): (stored: seq<Sample>)
    ensures |observed| > 0 ==> |stored| > 0
  {
    if observed == [] then []
    else
      var before := Thin(observed[..|observed| - 1]);
      var sample := observed[|observed| - 1];
      if before == [] || MeaningfulChange(before[|before| - 1], sample, before[|before| - 1].at) then before + [sample]
      else before
  }

  datatype Metrics = Metrics(rtt: nat, rttVariance: nat, retransmissions: nat)

  function MaxRtt(samples: seq<Sample>): nat {
    if samples == [] then 0 else Max(MaxRtt(samples[..|samples| - 1]), samples[|samples| - 1].rtt)
  }

  function MaxVariance(samples: seq<Sample>): nat {
    if samples == [] then 0
    else
      var last := samples[|samples| - 1];
      if last.rtt == 0 then MaxVariance(samples[..|samples| - 1])
      else Max(MaxVariance(samples[..|samples| - 1]), last.rttVariance)
  }

  function RetransmissionDelta(samples: seq<Sample>): nat {
    if samples == [] then 0
    else
      var first, last := samples[0].totalRetrans, samples[|samples| - 1].totalRetrans;
      if last >= first then last - first else 0
  }

  /** The numbers a verdict is computed from. */
  method AggregateMetrics(samples: seq<Sample>) returns (m: Metrics)
    ensures m == Metrics(MaxRtt(samples), MaxVariance(samples), RetransmissionDelta(samples))
  {
    m := Metrics(0, 0, 0);
    if samples == [] {
      return;
    }
    for i := 0 to |samples|
      invariant m.rtt == MaxRtt(samples[..i]) && m.rttVariance == MaxVariance(samples[..i]) && m.retransmissions == 0
    {
      assert samples[..i + 1][..i] == samples[..i];
      if samples[i].rtt != 0 {
        m := m.(rtt := Max(m.rtt, samples[i].rtt), rttVariance := Max(m.rttVariance, samples[i].rttVariance));
      }
    }
    assert samples[..|samples|] == samples;
    var first, last := samples[0].totalRetrans, samples[|samples| - 1].totalRetrans;
    m := m.(retransmissions := if last >= first then last - first else 0);
  }

  // ---------- Thinning loses no evidence ----------

  /** A sample that is not stored says the same as the last stored one about retransmissions, losses and
      state, and its round-trip time is close to it. */
  lemma {:induction false} LastStored(observed: seq<Sample>)
    requires observed != []
    ensures var stored, last := Thin(observed), observed[|observed| - 1];
            var kept := stored[|stored| - 1];
            && stored[0] == observed[0]
            && kept.totalRetrans == last.totalRetrans && kept.lost == last.lost && kept.state == last.state
            && (last.rtt < kept.rtt + MATERIAL_FLOOR || 4 * last.rtt < 5 * kept.rtt)
            && (last.rttVariance < kept.rttVariance + MATERIAL_FLOOR || 2 * last.rttVariance < 3 * kept.rttVariance)
  {
    if |observed| > 1 {
      LastStored(observed[..|observed| - 1]);
    }
  }

  /** Storing only meaningful changes does not change the retransmission count of a verdict. */
  lemma ThinningKeepsRetransmissions(observed: seq<Sample>)
    ensures RetransmissionDelta(Thin(observed)) == RetransmissionDelta(observed)
  {
    if observed != [] {
      LastStored(observed);
    }
  }

  lemma {:induction false} AtMostMax(samples: seq<Sample>, i: nat)
    requires i < |samples|
    ensures samples[i].rtt <= MaxRtt(samples)
    ensures samples[i].rtt != 0 ==> samples[i].rttVariance <= MaxVariance(samples)
    decreases |samples|
  {
    if i < |samples| - 1 {
      AtMostMax(samples[..|samples| - 1], i);
    }
  }

  /** One more sample is stored exactly when it is the first or changed meaningfully. */
  lemma ThinStep(before: seq<Sample>, sample: Sample, observed: seq<Sample>)
    requires |observed| == |before| + 1 && observed[..|before|] == before && observed[|before|] == sample
    ensures var stored := Thin(before);
            Thin(observed)
            == if stored == [] || MeaningfulChange(stored[|stored| - 1], sample, stored[|stored| - 1].at)
               then stored + [sample] else stored
  {
    hide MeaningfulChange;
  }

  lemma MaxStep(samples: seq<Sample>, s: Sample)
    ensures MaxRtt(samples + [s]) == Max(MaxRtt(samples), s.rtt)
    ensures MaxVariance(samples + [s]) == if s.rtt == 0 then MaxVariance(samples) else Max(MaxVariance(samples), s.rttVariance)
  {
    assert (samples + [s])[..|samples|] == samples;
  }

  /** The maximum round-trip time over the stored samples is never above the maximum over all of them,
      and the full maximum stays below 1.25 times it or within two milliseconds of it. */
  lemma {:induction false} ThinningKeepsRtt(observed: seq<Sample>)
    ensures var full, kept := MaxRtt(observed), MaxRtt(Thin(observed));
            kept <= full && (observed != [] ==> full < kept + MATERIAL_FLOOR || 4 * full < 5 * kept)
  {
    hide Thin, MaxRtt, MaxVariance, MeaningfulChange;
    NothingYet();
    if observed != [] {
      var front, last := observed[..|observed| - 1], observed[|observed| - 1];
      var stored := Thin(observed);
      ThinningKeepsRtt(front);
      ThinStep(front, last, observed);
      LastStored(observed);
      AtMostMax(stored, |stored| - 1);
      MaxStep(front, last);
      MaxStep(Thin(front), last);
      assert observed == front + [last];
    }
  }

  lemma NothingYet()
    ensures MaxRtt([]) == 0 && MaxVariance([]) == 0 && Thin([]) == []
  {
  }

  predicate NearVariance(full: nat, kept: nat) { full < kept + MATERIAL_FLOOR || 2 * full < 3 * kept }

  /** The most variance a sample may have and still be left out after one with this variance. */
  function Unnoticed(variance: Word): Word {
    Min(variance + Max(MATERIAL_FLOOR - 1, if variance == 0 then 0 else (variance - 1) / 2), WORD_MAX)
  }

  /** What may be left out after a stored sample that does not count itself, for want of a round-trip time, is
      near to the stored samples that count. */
  predicate VarianceCovered(stored: seq<Sample>) {
    forall i | 0 <= i < |stored| :: stored[i].rtt != 0 || NearVariance(Unnoticed(stored[i].rttVariance), MaxVariance(stored))
  }

  lemma {:induction false} StoredVarianceIsPart(observed: seq<Sample>)
    ensures MaxVariance(Thin(observed)) <= MaxVariance(observed)
  {
    hide Thin, MaxRtt, MaxVariance, MeaningfulChange;
    NothingYet();
    if observed != [] {
      var front, last := observed[..|observed| - 1], observed[|observed| - 1];
      StoredVarianceIsPart(front);
      ThinStep(front, last, observed);
      MaxStep(front, last);
      MaxStep(Thin(front), last);
      assert observed == front + [last];
    }
  }

  /** What is near to everything that may be left out is near to the whole history. */
  lemma {:induction false} VarianceWithin(observed: seq<Sample>, bound: nat)
    requires forall i | 0 <= i < |Thin(observed)| :: NearVariance(Unnoticed(Thin(observed)[i].rttVariance), bound)
    ensures NearVariance(MaxVariance(observed), bound)
  {
    hide Thin, MaxRtt, MaxVariance, MeaningfulChange, Unnoticed;
    NothingYet();
    if observed != [] {
      var front, last := observed[..|observed| - 1], observed[|observed| - 1];
      var stored, before := Thin(observed), Thin(front);
      ThinStep(front, last, observed);
      assert forall i | 0 <= i < |before| :: before[i] == stored[i];
      VarianceWithin(front, bound);
      LastStored(observed);
      LeftOutIsUnnoticed(stored[|stored| - 1], last);
      MaxStep(front, last);
      assert observed == front + [last];
    }
  }

  lemma LeftOutIsUnnoticed(kept: Sample, last: Sample)
    requires last.rttVariance < kept.rttVariance + MATERIAL_FLOOR || 2 * last.rttVariance < 3 * kept.rttVariance
    ensures last.rttVariance <= Unnoticed(kept.rttVariance)
  {
  }

  lemma UnnoticedIsNear(variance: Word, most: nat)
    requires variance <= most
    ensures NearVariance(Unnoticed(variance), most)
  {
  }

  /** The same for the variance, when the variances of the stored samples are covered. */
  lemma ThinningKeepsVariance(observed: seq<Sample>)
    requires VarianceCovered(Thin(observed))
    ensures var full, kept := MaxVariance(observed), MaxVariance(Thin(observed));
            kept <= full && NearVariance(full, kept)
  {
    hide Thin, MaxVariance, NearVariance, Unnoticed;
    var stored := Thin(observed);
    StoredVarianceIsPart(observed);
    forall i | 0 <= i < |stored| ensures NearVariance(Unnoticed(stored[i].rttVariance), MaxVariance(stored)) {
      AtMostMax(stored, i);
      if stored[i].rtt != 0 {
        UnnoticedIsNear(stored[i].rttVariance, MaxVariance(stored));
      }
    }
    VarianceWithin(observed, MaxVariance(stored));
  }

  // ---------- Exactly when the variance survives ----------

  lemma {:induction false} ThinIsShorter(observed: seq<Sample>)
    ensures |Thin(observed)| <= |observed|
  {
    hide MeaningfulChange;
    if observed != [] {
      ThinIsShorter(observed[..|observed| - 1]);
    }
  }

  /** The beginning of a list that thinning leaves alone is left alone too. */
  lemma {:induction false} ThinPrefix(stored: seq<Sample>, n: nat)
    requires Thin(stored) == stored && n <= |stored|
    ensures Thin(stored[..n]) == stored[..n]
    decreases |stored|
  {
    hide MeaningfulChange;
    if n < |stored| {
      var front := stored[..|stored| - 1];
      ThinIsShorter(front);
      assert Thin(front) == front;
      ThinPrefix(front, n);
      assert front[..n] == stored[..n];
    } else {
      assert stored[..n] == stored;
    }
  }

  /** What thinning makes of a history depends only on what it made of its beginning. */
  lemma {:induction false} ThinContinues(a: seq<Sample>, b: seq<Sample>, more: seq<Sample>)
    requires Thin(a) == Thin(b)
    ensures Thin(a + more) == Thin(b + more)
  {
    hide MeaningfulChange;
    if more == [] {
      assert a + more == a && b + more == b;
    } else {
      var front := more[..|more| - 1];
      ThinContinues(a, b, front);
      assert (a + more)[..|a + more| - 1] == a + front && (b + more)[..|b + more| - 1] == b + front;
    }
  }

  lemma UnnoticedIsLeftOut(p: Sample)
    requires p.rtt == 0
    ensures !MeaningfulChange(p, p.(rtt := 1, rttVariance := Unnoticed(p.rttVariance)), p.at)
  {
  }

  /** A history with the same stored samples, in which one more sample is left out after stored sample i. */
  lemma LeftOutAfter(stored: seq<Sample>, i: nat, s: Sample) returns (observed: seq<Sample>)
    requires Thin(stored) == stored && i < |stored| && !MeaningfulChange(stored[i], s, stored[i].at)
    ensures Thin(observed) == stored && s in observed
  {
    hide MeaningfulChange;
    var head, tail := stored[..i + 1], stored[i + 1..];
    observed := head + [s] + tail;
    ThinPrefix(stored, i + 1);
    assert (head + [s])[..|head|] == head;
    assert Thin(head + [s]) == Thin(head);
    ThinContinues(head + [s], head, tail);
    assert head + tail == stored;
    assert observed[i + 1] == s;
  }

  /** What is stored keeps the variance of every history it may come from, up to what is not material, if and
      only if the variances of the stored samples are covered. */
  lemma VarianceSurvivesIff(stored: seq<Sample>)
    requires Thin(stored) == stored
    ensures (forall observed | Thin(observed) == stored :: NearVariance(MaxVariance(observed), MaxVariance(stored)))
            <==> VarianceCovered(stored)
  {
    hide Thin, MaxVariance, MeaningfulChange, Unnoticed;
    if VarianceCovered(stored) {
      forall observed | Thin(observed) == stored ensures NearVariance(MaxVariance(observed), MaxVariance(stored)) {
        ThinningKeepsVariance(observed);
      }
    } else {
      var i: nat :| i < |stored| && stored[i].rtt == 0
                    && !NearVariance(Unnoticed(stored[i].rttVariance), MaxVariance(stored));
      var s := stored[i].(rtt := 1, rttVariance := Unnoticed(stored[i].rttVariance));
      UnnoticedIsLeftOut(stored[i]);
      var observed := LeftOutAfter(stored, i, s);
      var k: nat :| k < |observed| && observed[k] == s;
      AtMostMax(observed, k);
      assert !NearVariance(MaxVariance(observed), MaxVariance(stored));
    }
  }

  /** Without it the variance a verdict reads can be lost altogether: the first sample has no round-trip
      time, so its variance is not counted, and the second is too close to it to be stored. */
  lemma ThinningCanLoseVariance()
    ensures exists observed: seq<Sample> ::
              MaxVariance(Thin(observed)) == 0 && MaxVariance(observed) == 50_000
  {
    var a, b := Sample(1, 1, 0, 50_000, 0, 0), Sample(2, 1, 1_000, 50_000, 0, 0);
    var observed := [a, b];
    assert observed[..1] == [a] && observed[..1][..0] == [];
    assert Thin([a]) == [a] by { assert [a][..0] == []; }
    assert Thin(observed) == [a];
    assert MaxVariance([a]) == 0 by { assert [a][..0] == []; }
    assert MaxVariance(observed) == 50_000;
  }

  // ---------- Reading back ----------

  ghost predicate TimesIncrease(samples: seq<Sample>) {
    forall i, j | 0 <= i < j < |samples| :: samples[i].at < samples[j].at
  }

  ghost predicate SortedByTime(samples: seq<Sample>) {
    forall i, j | 0 <= i < j < |samples| :: samples[i].at <= samples[j].at
  }

  lemma {:induction false} ThinIsPart(observed: seq<Sample>)
    ensures forall s | s in Thin(observed) :: s in observed
    ensures TimesIncrease(observed) ==> TimesIncrease(Thin(observed))
  {
    if observed != [] {
      var front := observed[..|observed| - 1];
      ThinIsPart(front);
      assert observed == front + [observed[|observed| - 1]];
      if TimesIncrease(observed) {
        var stored := Thin(observed);
        forall i, j | 0 <= i < j < |stored| ensures stored[i].at < stored[j].at {
          if stored != Thin(front) && j == |stored| - 1 {
            assert stored[i] in Thin(front);
          }
        }
      }
    }
  }

  /** Rows read in time order come back exactly as they were stored, when times strictly increase. */
  lemma {:induction false} ReadBackInOrder(stored: seq<Sample>, read: seq<Sample>)
    requires TimesIncrease(stored) && SortedByTime(read) && SameElements(stored, read)
    ensures read == stored
    decreases |stored|
  {
    hide TimesIncrease, SortedByTime, SameElements;
    SameLength(stored, read);
    if stored != [] {
      LatestIsLast(stored, read);
      var last := |stored| - 1;
      RemovedSame(stored, read, last, last);
      assert Removed(stored, last) == stored[..last] && Removed(read, last) == read[..last];
      FrontKeepsOrder(stored, read);
      ReadBackInOrder(stored[..last], read[..last]);
      assert read == read[..last] + [read[last]] && stored == stored[..last] + [stored[last]];
    }
  }

  lemma FrontKeepsOrder(stored: seq<Sample>, read: seq<Sample>)
    requires TimesIncrease(stored) && SortedByTime(read) && stored != [] && read != []
    ensures TimesIncrease(stored[..|stored| - 1]) && SortedByTime(read[..|read| - 1])
  {
  }

  lemma LatestIsLast(stored: seq<Sample>, read: seq<Sample>)
    requires TimesIncrease(stored) && SortedByTime(read) && SameElements(stored, read)
    requires |read| == |stored| > 0
    ensures read[|read| - 1] == stored[|stored| - 1]
  {
    var last, top := stored[|stored| - 1], read[|read| - 1];
    assert last in multiset(stored) && top in multiset(read);
    assert last in read && top in stored;
    var i :| 0 <= i < |read| && read[i] == last;
    var j :| 0 <= j < |stored| && stored[j] == top;
  }

  lemma {:induction false} MaxOfPart(part: seq<Sample>, whole: seq<Sample>)
    requires forall s | s in part :: s in whole
    ensures MaxRtt(part) <= MaxRtt(whole) && MaxVariance(part) <= MaxVariance(whole)
  {
    if part != [] {
      var last := part[|part| - 1];
      MaxOfPart(part[..|part| - 1], whole);
      assert last in whole;
      var k: nat :| k < |whole| && whole[k] == last;
      AtMostMax(whole, k);
    }
  }

  lemma SameMembers(a: seq<Sample>, b: seq<Sample>)
    requires SameElements(a, b)
    ensures forall s :: s in a <==> s in b
  {
    assert forall s :: s in a <==> s in multiset(a);
    assert forall s :: s in b <==> s in multiset(b);
  }

  /** The maxima do not depend on the order of the samples. */
  lemma MaximaIgnoreOrder(a: seq<Sample>, b: seq<Sample>)
    requires SameElements(a, b)
    ensures MaxRtt(a) == MaxRtt(b) && MaxVariance(a) == MaxVariance(b) && (VarianceCovered(a) <==> VarianceCovered(b))
  {
    hide SameElements, MaxRtt, MaxVariance, NearVariance, Unnoticed;
    SameMembers(a, b);
    MaxOfPart(a, b);
    MaxOfPart(b, a);
    forall i | 0 <= i < |a| ensures a[i] in b { assert a[i] in a; }
    forall i | 0 <= i < |b| ensures b[i] in a { assert b[i] in b; }
  }

  /** The verdict evidence read back from the store agrees with the evidence of the whole history: a maximum
      round-trip time within the bound above, a variance within its bound when the stored variances are covered,
      and, when times increase and the rows come back in their order, equal retransmissions. */
  lemma StoredEvidenceIsEnough(observed: seq<Sample>, read: seq<Sample>)
    requires SameElements(Thin(observed), read)
    ensures TimesIncrease(observed) && SortedByTime(read) ==> RetransmissionDelta(read) == RetransmissionDelta(observed)
    ensures MaxRtt(read) <= MaxRtt(observed)
    ensures observed != [] ==> MaxRtt(observed) < MaxRtt(read) + MATERIAL_FLOOR || 4 * MaxRtt(observed) < 5 * MaxRtt(read)
    ensures MaxVariance(read) <= MaxVariance(observed)
    ensures VarianceCovered(read) ==> NearVariance(MaxVariance(observed), MaxVariance(read))
  {
    hide Thin, MaxRtt, MaxVariance, SameElements, VarianceCovered, TimesIncrease, SortedByTime;
    if TimesIncrease(observed) && SortedByTime(read) {
      ThinIsPart(observed);
      ReadBackInOrder(Thin(observed), read);
      ThinningKeepsRetransmissions(observed);
    }
    MaximaIgnoreOrder(Thin(observed), read);
    ThinningKeepsRtt(observed);
    StoredVarianceIsPart(observed);
    if VarianceCovered(read) {
      ThinningKeepsVariance(observed);
    }
  }
}

/** What the counters and the report of the bitmap receiver mean: exactly when it passes,
    and what it is insensitive to. */
module BitmapTheorems {
  import opened Words
  import opened Sequences
  import opened BitmapReceiver

  // ---------------------------------------------------------------- Reachable states

  /** The quotes of a stream lie in 1..planned, and START demanded planned >= 1. */
  predicate InRange(s: Stream) {
    s.Active? ==>
      && 1 <= s.planned <= MAX_PLANNED_PACKETS
      && forall x :: x in s.quotes ==> 1 <= x <= s.planned
  }

  lemma {:induction false} RunInRange(p: Progress, ds: seq<Datagram>)
    requires InRange(p.stream)
    ensures InRange(RunAll(p, ds).stream)
  {
    if ds != [] {
      RunInRange(p, ds[..|ds| - 1]);
    }
  }

  // ---------------------------------------------------------------- PASS

  /** The integrity verdict.  It is positive exactly when the announced count is the
      planned one and the datagrams counted since START are the quotes 1, 2, ...,
      planned in that order and nothing else. */
  lemma PassMeansPerfect(s: Stream, sequence: uint32, quantity: uint32)
    requires s.Active? && InRange(s)
    ensures ReportFor(s, sequence, quantity).integrityOk
       <==> && ActualSent(s.planned, sequence, quantity) == s.planned
            && s.invalid == 0
            && s.quotes == Counting(1, s.planned)
  {
    var q := s.quotes;
    Accounting(q);
    CleanIsIncreasing(q);
    if q == Counting(1, s.planned) {
      assert Increasing(q);
    } else if Increasing(q) && |SetOf(q)| >= s.planned {
      DistinctWithin(q, 1, s.planned);
      FillsRange(q, 1, s.planned);
    }
  }

  /** When the announced count is the planned one: quantity or sequence says so, or
      neither is in range and the planned count is assumed. */
  lemma ActualSentIsPlanned(planned: uint32, sequence: uint32, quantity: uint32)
    requires planned >= 1
    ensures ActualSent(planned, sequence, quantity) == planned
       <==> || quantity == planned
            || (!(1 <= quantity <= planned) && (sequence == planned || !(1 <= sequence <= planned)))
  {
  }

  lemma DistinctWithin(q: seq<nat>, lo: nat, hi: int)
    requires forall x :: x in q ==> lo <= x <= hi
    ensures |SetOf(q)| <= Max(0, hi - lo + 1)
  {
    assert SetOf(q) <= Range(lo, hi);
    SubsetDifference(Range(lo, hi), SetOf(q));
  }

  // ---------------------------------------------------------------- Counters

  /** While a stream is active the unique packets number at most the highest
      sequence, which is at most the planned count, and all but the late ones are
      left-to-right maxima. */
  lemma CounterBounds(s: Stream)
    requires s.Active? && InRange(s)
    ensures |SetOf(s.quotes)| <= Highest(s.quotes) <= s.planned
    ensures |SetOf(s.quotes)| - OutOfOrder(s.quotes) == |Records(s.quotes)|
    ensures |s.quotes| == |SetOf(s.quotes)| + Duplicates(s.quotes)
  {
    HighestBounds(s.quotes);
    DistinctWithin(s.quotes, 1, Highest(s.quotes));
    Accounting(s.quotes);
  }

  /** Order independence: rearranging the arrivals changes nothing in the report but
      the out-of-order count and with it the verdict. */
  lemma OrderIndependent(s: Stream, t: Stream, sequence: uint32, quantity: uint32)
    requires s.Active? && t.Active? && s.(quotes := t.quotes) == t
    requires multiset(s.quotes) == multiset(t.quotes)
    ensures var a, b := ReportFor(s, sequence, quantity), ReportFor(t, sequence, quantity);
            a.(outOfOrder := b.outOfOrder, integrityOk := b.integrityOk) == b
  {
    SameMultisetSameSet(s.quotes, t.quotes);
    HighestOfSet(s.quotes, t.quotes);
    Accounting(s.quotes);
    Accounting(t.quotes);
    assert |multiset(s.quotes)| == |s.quotes| && |multiset(t.quotes)| == |t.quotes|;
  }

  lemma SameMultisetSameSet(q: seq<nat>, r: seq<nat>)
    requires multiset(q) == multiset(r)
    ensures SetOf(q) == SetOf(r)
  {
    forall x ensures x in q <==> x in r {
      assert x in q <==> x in multiset(q);
      assert x in r <==> x in multiset(r);
    }
  }
}

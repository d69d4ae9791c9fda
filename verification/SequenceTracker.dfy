/** The constant-memory hardware sequence tracker, and how it relates to the tracker
    of the live receiver, which remembers every number it has seen. */
module SequenceTracker {
  import opened Words
  import opened Quotes
  import opened Sequences

  const MAX_SEQUENCE: uint32 := 0xFFFF_FFFF

  // ---------------------------------------------------------------- Specification

  datatype Outcome = First | InOrder | Duplicate | Gap | Old {
    /** The quote is forwarded and becomes the new baseline. */
    predicate Forwarded() { First? || InOrder? || Gap? }
  }

  datatype Baseline = Baseline(
    initialized: bool, last: uint32, expected: uint32,
    missing: uint32, duplicates: uint32, outOfOrder: uint32)

  const CLEARED: Baseline := Baseline(false, 0, 0, 0, 0, 0)

  /** The decision tree, in the order of the tests of the implementation. */
  function Judge(b: Baseline, x: uint32): Outcome {
    if !b.initialized then First
    else if x == b.expected then InOrder
    else if x == b.last then Duplicate
    else if x > b.expected then Gap
    else Old
  }

  /** The same tree in the order in which the design document lists it. */
  function JudgeAsDocumented(b: Baseline, x: uint32): Outcome {
    if !b.initialized then First
    else if x == b.expected then InOrder
    else if x > b.expected then Gap
    else if x == b.last then Duplicate
    else Old
  }

  function Track(b: Baseline, x: uint32): Baseline {
    match Judge(b, x)
    case First => b.(initialized := true, last := x, expected := U32(x + 1))
    case InOrder => b.(last := x, expected := U32(x + 1))
    case Duplicate => b.(duplicates := U32(b.duplicates + 1))
    case Gap => b.(missing := U32(b.missing + U32(x - b.expected)), last := x, expected := U32(x + 1))
    case Old => b.(outOfOrder := U32(b.outOfOrder + 1))
  }

  /** The state after the quotes of a stream, and the numbers it forwarded. */
  function TrackAll(q: seq<uint32>): Baseline {
    if q == [] then CLEARED else Track(TrackAll(q[..|q| - 1]), q[|q| - 1])
  }

  function Forwarded(q: seq<uint32>): seq<nat> {
    if q == [] then [] else
      var b := TrackAll(q[..|q| - 1]);
      if Judge(b, q[|q| - 1]).Forwarded() then Forwarded(q[..|q| - 1]) + [q[|q| - 1]]
      else Forwarded(q[..|q| - 1])
  }

  // ---------------------------------------------------------------- Against the set-based tracker

  /** Nothing but repeats of it follows the largest 32-bit number. */
  predicate NeverWraps(q: seq<uint32>) {
    forall i, j :: 0 <= i < j < |q| && q[i] == MAX_SEQUENCE ==> q[j] == MAX_SEQUENCE
  }

  lemma NeverWrapsPush(q: seq<uint32>)
    requires q != []
    ensures var n := |q| - 1;
            NeverWraps(q) <==> NeverWraps(q[..n]) && (Highest(q[..n]) == MAX_SEQUENCE ==> q[n] == MAX_SEQUENCE)
  {
    var n := |q| - 1;
    HighestBounds(q[..n]);
    assert forall i :: 0 <= i < n ==> q[..n][i] == q[i] && q[i] in q[..n];
    if Highest(q[..n]) == MAX_SEQUENCE {
      var i :| 0 <= i < n && q[..n][i] == MAX_SEQUENCE;
      assert q[i] == MAX_SEQUENCE;
    }
  }

  /** Without a wrap the tracker forwards exactly the left-to-right maxima, and counts
      exactly what the set-based tracker counts as missing. */
  lemma {:induction false} TracksWithoutWrap(q: seq<uint32>)
    requires NeverWraps(q)
    ensures var b := TrackAll(q);
            && Forwarded(q) == Records(q)
            && (b.initialized <==> q != [])
            && (q != [] ==> b.last == Highest(q) && b.expected == U32(Highest(q) + 1))
            && b.missing == Skipped(q)
  {
    if q != [] {
      NeverWrapsPush(q);
      TracksWithoutWrap(q[..|q| - 1]);
      HighestBounds(q[..|q| - 1]);
      SkippedFits(q);
    }
  }

  /** The missing count of 32-bit numbers never leaves 32 bits. */
  lemma SkippedFits(q: seq<uint32>)
    ensures Skipped(q) <= MAX_SEQUENCE
  {
    if q != [] {
      SpanAccounting(q);
      HighestBounds(q);
      Accounting(q);
    }
  }

  /** Every quote that is not forwarded is counted, in 32-bit counters. */
  lemma {:induction false} RejectedCount(q: seq<uint32>)
    ensures |Forwarded(q)| <= |q|
    ensures U32(TrackAll(q).duplicates + TrackAll(q).outOfOrder) == U32(|q| - |Forwarded(q)|)
  {
    if q != [] {
      var b, x := q[..|q| - 1], q[|q| - 1];
      RejectedCount(b);
      RejectStep(TrackAll(b), x, |b| - |Forwarded(b)|);
      assert TrackAll(q) == Track(TrackAll(b), x);
      assert |Forwarded(q)| == |Forwarded(b)| + if Judge(TrackAll(b), x).Forwarded() then 1 else 0;
    }
  }

  /** One rejected quote moves the two rejection counters by one in total. */
  lemma RejectStep(b: Baseline, x: uint32, rejected: nat)
    requires U32(b.duplicates + b.outOfOrder) == U32(rejected)
    ensures var c := Track(b, x);
            U32(c.duplicates + c.outOfOrder) == U32(rejected + if Judge(b, x).Forwarded() then 0 else 1)
  {
    match Judge(b, x)
    case Duplicate => OneMore(b.duplicates, b.outOfOrder, rejected);
    case Old => OneMore(b.outOfOrder, b.duplicates, rejected);
    case _ =>
  }

  lemma OneMore(a: uint32, b: uint32, n: nat)
    requires U32(a + b) == U32(n)
    ensures U32(U32(a + 1) + b) == U32(n + 1)
  {
    LapModulo(a + b, TWO32);
    LapModulo(n, TWO32);
  }

  /** Once the number space has wrapped, the tracker has forwarded more than the
      set-based one ever will. */
  lemma {:induction false} TracksAfterWrap(q: seq<uint32>)
    requires !NeverWraps(q)
    ensures |Forwarded(q)| > |Records(q)| && Highest(q) == MAX_SEQUENCE
  {
    var n := |q| - 1;
    NeverWrapsPush(q);
    HighestBounds(q[..n]);
    if NeverWraps(q[..n]) {
      TracksWithoutWrap(q[..n]);
    } else {
      TracksAfterWrap(q[..n]);
    }
  }

  /** Refinement.  The two trackers accept the same quotes exactly when the stream
      never wraps its 32-bit numbers. */
  lemma TrackersAgree(q: seq<uint32>)
    ensures Forwarded(q) == Records(q) <==> NeverWraps(q)
  {
    if NeverWraps(q) {
      TracksWithoutWrap(q);
    } else {
      TracksAfterWrap(q);
    }
  }

  /** They then also agree on the missing total and, in 32-bit counters, on the total
      of rejected quotes. */
  lemma CountersAgree(q: seq<uint32>)
    requires NeverWraps(q)
    ensures TrackAll(q).missing == Skipped(q)
    ensures U32(TrackAll(q).duplicates + TrackAll(q).outOfOrder) == U32(Duplicates(q) + OutOfOrder(q))
  {
    TracksWithoutWrap(q);
    Accounting(q);
    assert |q| - |Forwarded(q)| == Duplicates(q) + OutOfOrder(q);
    RejectedCount(q);
  }

  /** A quote that repeats the highest number so far, or falls below it. */
  predicate RepeatsHighest(q: seq<uint32>, i: nat) { 0 < i < |q| && q[i] == Highest(q[..i]) }

  predicate FallsBelow(q: seq<uint32>, i: nat) { 0 < i < |q| && q[i] < Highest(q[..i]) }

  function RepeatsOfHighest(q: seq<uint32>): set<nat> { set i: nat | i < |q| && RepeatsHighest(q, i) }

  function BelowHighest(q: seq<uint32>): set<nat> { set i: nat | i < |q| && FallsBelow(q, i) }

  lemma SamePosition(q: seq<uint32>, i: nat)
    requires i + 1 < |q|
    ensures RepeatsHighest(q, i) <==> RepeatsHighest(q[..|q| - 1], i)
    ensures FallsBelow(q, i) <==> FallsBelow(q[..|q| - 1], i)
  {
    assert q[..|q| - 1][..i] == q[..i];
  }

  lemma PositionsPush(q: seq<uint32>)
    requires q != []
    ensures var n := |q| - 1;
            && |RepeatsOfHighest(q)| == |RepeatsOfHighest(q[..n])| + (if RepeatsHighest(q, n) then 1 else 0)
            && |BelowHighest(q)| == |BelowHighest(q[..n])| + (if FallsBelow(q, n) then 1 else 0)
  {
    var n := |q| - 1;
    forall i: nat | i < n
      ensures RepeatsHighest(q, i) <==> RepeatsHighest(q[..n], i)
      ensures FallsBelow(q, i) <==> FallsBelow(q[..n], i)
    {
      SamePosition(q, i);
    }
    Grows(RepeatsOfHighest(q[..n]), RepeatsOfHighest(q), n, RepeatsHighest(q, n));
    Grows(BelowHighest(q[..n]), BelowHighest(q), n, FallsBelow(q, n));
  }

  /** How a quote is judged when the numbers never wrap, by the list alone. */
  lemma JudgedByHighest(q: seq<uint32>, x: uint32)
    requires NeverWraps(q + [x])
    ensures var outcome := Judge(TrackAll(q), x);
            && (outcome == First <==> q == [])
            && (outcome == InOrder <==> q != [] && x == Highest(q) + 1)
            && (outcome == Gap <==> q != [] && x > Highest(q) + 1)
            && (outcome == Duplicate <==> q != [] && x == Highest(q))
            && (outcome == Old <==> q != [] && x < Highest(q))
  {
    assert (q + [x])[..|q|] == q;
    NeverWrapsPush(q + [x]);
    TracksWithoutWrap(q);
    HighestBounds(q);
    if q != [] {
      assert Highest(q) in q;
    }
  }

  /** Each rejection counter by itself, without a wrap: duplicates are the repeats of the
      highest number so far, out-of-order quotes are those below it. */
  lemma {:induction false} RejectionsByPosition(q: seq<uint32>)
    requires NeverWraps(q)
    ensures TrackAll(q).duplicates == U32(|RepeatsOfHighest(q)|)
    ensures TrackAll(q).outOfOrder == U32(|BelowHighest(q)|)
  {
    if q != [] {
      var n := |q| - 1;
      NeverWrapsPush(q);
      RejectionsByPosition(q[..n]);
      PositionsPush(q);
      assert q == q[..n] + [q[n]];
      JudgedByHighest(q[..n], q[n]);
      OneMore(TrackAll(q[..n]).duplicates, 0, |RepeatsOfHighest(q[..n])|);
      OneMore(TrackAll(q[..n]).outOfOrder, 0, |BelowHighest(q[..n])|);
    }
  }

  /** What is forwarded strictly increases as long as the numbers do not wrap. */
  lemma ForwardedIncreases(q: seq<uint32>)
    requires NeverWraps(q)
    ensures Increasing(Forwarded(q))
  {
    TracksWithoutWrap(q);
    RecordsIncrease(q);
  }

  lemma {:induction false} RecordsIncrease(q: seq<nat>)
    ensures Increasing(Records(q))
    ensures forall i :: 0 <= i < |Records(q)| ==> Records(q)[i] <= Highest(q)
  {
    if q != [] {
      RecordsIncrease(q[..|q| - 1]);
      if |q| == 1 {
        assert Records(q[..0]) == [];
      }
    }
  }

  /** The documented test order and the implemented one differ in exactly one
      situation: a repeat of the largest number, which the document would count as a
      gap of nearly 2^32 and the implementation counts as a duplicate. */
  lemma DocumentedOrder(b: Baseline, x: uint32)
    requires b.initialized ==> b.expected == U32(b.last + 1)
    ensures Judge(b, x) == JudgeAsDocumented(b, x)
       <==> !(b.initialized && b.last == MAX_SEQUENCE && x == MAX_SEQUENCE)
  {
  }

  // ---------------------------------------------------------------- Registers

  datatype TrackerInput = TrackerInput(
    resetn: bool, streamStart: bool, streamEnd: bool, valid: bool, quote: Quote)

  /** The registered outputs of one edge. */
  datatype TrackerOutput = TrackerOutput(
    valid: bool, quote: Quote,
    sequenceError: bool, missingPacket: bool, duplicatePacket: bool, outOfOrderPacket: bool)

  const NO_OUTPUT: TrackerOutput := TrackerOutput(false, NO_QUOTE, false, false, false, false)

  datatype TrackerState = TrackerState(baseline: Baseline, output: TrackerOutput)

  /** The outputs that a judged quote leaves behind. */
  function Announce(previous: Quote, outcome: Outcome, quote: Quote): TrackerOutput {
    TrackerOutput(outcome.Forwarded(), if outcome.Forwarded() then quote else previous,
                  outcome in {Gap, Duplicate, Old}, outcome == Gap, outcome == Duplicate, outcome == Old)
  }

  function Step(s: TrackerState, i: TrackerInput): TrackerState {
    var idle := TrackerOutput(false, s.output.quote, false, false, false, false);
    if !i.resetn then TrackerState(CLEARED, NO_OUTPUT)
    else if i.streamStart then TrackerState(CLEARED, idle)
    else if i.streamEnd then TrackerState(s.baseline.(initialized := false), idle)
    else if i.valid then
      TrackerState(Track(s.baseline, i.quote.sequence),
                   Announce(s.output.quote, Judge(s.baseline, i.quote.sequence), i.quote))
    else TrackerState(s.baseline, idle)
  }

  /** An edge inside a stream: neither reset, start nor end. */
  predicate InStream(i: TrackerInput) { i.resetn && !i.streamStart && !i.streamEnd }

  /** The state after a stream start and further edges, whatever came before. */
  function AfterStart(before: TrackerState, t: seq<TrackerInput>): TrackerState {
    if t == [] then Step(before, TrackerInput(true, true, false, false, NO_QUOTE))
    else Step(AfterStart(before, t[..|t| - 1]), t[|t| - 1])
  }

  /** The numbers presented on the edges of a stream. */
  function Presented(t: seq<TrackerInput>): seq<uint32> {
    if t == [] then []
    else if t[|t| - 1].valid then Presented(t[..|t| - 1]) + [t[|t| - 1].quote.sequence]
    else Presented(t[..|t| - 1])
  }

  /** The numbers forwarded, edge by edge. */
  function Emitted(before: TrackerState, t: seq<TrackerInput>): seq<nat> {
    if t == [] then [] else
      var o := AfterStart(before, t).output;
      Emitted(before, t[..|t| - 1]) + if o.valid then [o.quote.sequence] else []
  }

  /** Over the edges of a stream the registers hold what the presented numbers
      determine, and exactly the forwarded numbers leave the module, whatever idle
      edges lie between the quotes. */
  lemma {:induction false} StreamTracked(before: TrackerState, t: seq<TrackerInput>)
    requires forall k :: 0 <= k < |t| ==> InStream(t[k])
    ensures AfterStart(before, t).baseline == TrackAll(Presented(t))
    ensures Emitted(before, t) == Forwarded(Presented(t))
  {
    if t != [] {
      var b, i := t[..|t| - 1], t[|t| - 1];
      StreamTracked(before, b);
      assert InStream(i);
      if i.valid {
        assert Presented(t)[..|Presented(t)| - 1] == Presented(b);
      }
    }
  }

  /** The flags of every edge of a stream whose numbers never wrap: a quote goes out
      exactly when its number exceeds all earlier ones, and each error flag is high on
      exactly the edges that present a number of its kind. */
  lemma FlagsByEdge(before: TrackerState, t: seq<TrackerInput>, i: TrackerInput)
    requires InStream(i) && forall k :: 0 <= k < |t| ==> InStream(t[k])
    requires NeverWraps(Presented(t + [i]))
    ensures var q, x, o := Presented(t), i.quote.sequence, AfterStart(before, t + [i]).output;
            && (o.valid <==> i.valid && (q == [] || x > Highest(q)))
            && (o.missingPacket <==> i.valid && q != [] && x > Highest(q) + 1)
            && (o.duplicatePacket <==> i.valid && q != [] && x == Highest(q))
            && (o.outOfOrderPacket <==> i.valid && q != [] && x < Highest(q))
            && (o.sequenceError <==> i.valid && q != [] && x != Highest(q) + 1)
            && (o.valid ==> o.quote == i.quote)
  {
    assert (t + [i])[..|t|] == t;
    StreamTracked(before, t);
    if i.valid {
      JudgedByHighest(Presented(t), i.quote.sequence);
    }
  }

  class Tracker {
    var sequenceInitialized: bool
    var lastSeq: uint32
    var expectedSeq: uint32
    var missingCount: uint32
    var duplicateCount: uint32
    var outOfOrderCount: uint32
    var output: TrackerOutput

    function State(): TrackerState
      reads this
    {
      TrackerState(Baseline(sequenceInitialized, lastSeq, expectedSeq,
                            missingCount, duplicateCount, outOfOrderCount), output)
    }

    constructor ()
    {
    }

    /** One rising edge. */
    method Clock(i: TrackerInput)
      modifies this
      ensures State() == Step(old(State()), i)
    {
      if !i.resetn {
        lastSeq, expectedSeq, sequenceInitialized := 0, 0, false;
        missingCount, duplicateCount, outOfOrderCount := 0, 0, 0;
        output := NO_OUTPUT;
      } else {
        output := TrackerOutput(false, output.quote, false, false, false, false);
        if i.streamStart {
          lastSeq, expectedSeq, sequenceInitialized := 0, 0, false;
          missingCount, duplicateCount, outOfOrderCount := 0, 0, 0;
        } else if i.streamEnd {
          sequenceInitialized := false;
        } else if i.valid {
          JudgeQuote(i.quote);
        }
      }
    }

    method JudgeQuote(quote: Quote)
      requires output == TrackerOutput(false, output.quote, false, false, false, false)
      modifies this
      ensures State().baseline == Track(old(State()).baseline, quote.sequence)
      ensures output == Announce(old(output.quote), Judge(old(State()).baseline, quote.sequence), quote)
    {
      var x := quote.sequence;
      if !sequenceInitialized || x == expectedSeq {
        lastSeq, expectedSeq, sequenceInitialized := x, U32(x + 1), true;
        output := output.(valid := true, quote := quote);
      } else if x == lastSeq {
        output := output.(duplicatePacket := true, sequenceError := true);
        duplicateCount := U32(duplicateCount + 1);
      } else if x > expectedSeq {
        missingCount := U32(missingCount + U32(x - expectedSeq));
        lastSeq, expectedSeq := x, U32(x + 1);
        output := output.(valid := true, quote := quote, missingPacket := true, sequenceError := true);
      } else {
        output := output.(outOfOrderPacket := true, sequenceError := true);
        outOfOrderCount := U32(outOfOrderCount + 1);
      }
    }
  }
}

/** What the feature engine emits over a whole run, stated without any pipeline
    register, buffer or state machine: as functions of the input trace. */
module FeatureTraces {
  import opened Words
  import opened Windows
  import opened FeatureEngine

  type Trace = t: seq<BookInput> | t != [] && t[0].Restart()
    witness [BookInput(false, false, false, false, 0, 0, 0, 0, 0, 0, false, false)]

  function Front(t: seq<BookInput>): seq<BookInput>
    requires t != []
  {
    t[..|t| - 1]
  }

  /** The first `n` edges of a trace. */
  function Prefix(t: Trace, n: nat): Trace
    requires 0 < n <= |t|
  {
    t[..n]
  }

  function Last(t: seq<BookInput>): BookInput
    requires t != []
  {
    t[|t| - 1]
  }

  // ---------------------------------------------------------------- Closed forms

  /** The updates accepted for slot `k` since the last reset or stream start. */
  function Updates(t: seq<BookInput>, k: nat): (us: seq<BookInput>)
    ensures forall u :: u in us ==> u.Accepts(k) && u in t
  {
    if t == [] || Last(t).Restart() then []
    else Updates(Front(t), k) + (if Last(t).Accepts(k) then [Last(t)] else [])
  }

  function Midpoints(us: seq<BookInput>): (h: seq<uint33>)
    ensures |h| == |us|
  {
    seq(|us|, j requires 0 <= j < |us| => us[j].Midpoint2())
  }

  /** The feature of the newest of one slot's accepted updates. */
  function FeatureOf(us: seq<BookInput>): Feature
    requires us != []
  {
    var u := Last(us);
    Feature(true, u.slot, u.timestamp, Trend(Midpoints(us)),
            u.bidQuantity - u.askQuantity, U32(u.askPrice - u.bidPrice))
  }

  /** The last edge of `t` accepted a sample that fills both windows. */
  predicate Pending(t: seq<BookInput>) {
    t != [] && Last(t).Live() && Last(t).Eligible() && |Updates(t, Last(t).slot)| >= SLOW
  }

  /** A feature leaves on the last edge of `t`. */
  predicate Emits(t: seq<BookInput>) {
    t != [] && Last(t).Live() && Pending(Front(t))
  }

  lemma MidpointsPush(us: seq<BookInput>, u: BookInput)
    ensures Midpoints(us + [u]) == Midpoints(us) + [u.Midpoint2()]
  {
  }

  /** The engine's histories, and its stage-1 registers whenever they are valid,
      are the closed forms of the trace. */
  lemma {:induction false} RunState(t: Trace)
    ensures forall k :: 0 <= k < SLOTS ==> Run(t).hist[k] == Midpoints(Updates(t, k))
    ensures Run(t).stage1.valid <==> Pending(t)
    ensures Pending(t) ==>
              var u := Last(t);
              Run(t).stage1 == Stage1(true, u.slot, u.timestamp, u.bidQuantity - u.askQuantity,
                                      U32(u.askPrice - u.bidPrice))
  {
    if |t| > 1 {
      RunState(Front(t));
      var u := Last(t);
      if u.Live() && u.Eligible() {
        MidpointsPush(Updates(Front(t), u.slot), u);
      }
    }
  }

  /** Pipeline exactness.  After any trace, `feature_valid` is high exactly when the
      edge before accepted an update that completes 32 samples and the last edge
      neither reset, started nor ended the stream; the feature is then the one of
      that update and the history up to and including it, whatever the last edge
      accepted itself. */
  lemma PipelineExact(t: Trace)
    ensures Run(t).feature.valid <==> Emits(t)
    ensures Emits(t) ==> Run(t).feature == FeatureOf(Updates(Front(t), Last(Front(t)).slot))
  {
    if |t| > 1 {
      RunState(Front(t));
      assert Run(t) == Step(Run(Front(t)), Last(t));
    }
  }

  // ---------------------------------------------------------------- Slot isolation

  /** The same clock edges with the updates of every slot but `k` suppressed. */
  function Isolate(t: seq<BookInput>, k: nat): (r: seq<BookInput>)
    ensures |r| == |t|
  {
    seq(|t|, j requires 0 <= j < |t| =>
      if t[j].slot == k then t[j] else t[j].(updateValid := false))
  }

  lemma {:induction false} IsolatedUpdates(t: seq<BookInput>, k: nat)
    ensures Updates(Isolate(t, k), k) == Updates(t, k)
  {
    if t != [] {
      assert Isolate(t, k)[..|t| - 1] == Isolate(Front(t), k);
      IsolatedUpdates(Front(t), k);
    }
  }

  /** Slot isolation, edge by edge: what the engine emits for slot `k` is what an
      engine that never sees the other slots emits on the same edge. */
  lemma SlotIsolation(t: Trace, k: nat)
    requires k < SLOTS
    ensures Isolate(t, k) != [] && Isolate(t, k)[0].Restart()
    ensures var full, alone := Run(t).feature, Run(Isolate(t, k)).feature;
            && (alone.valid <==> full.valid && full.slot == k)
            && (alone.valid ==> alone == full)
  {
    var a := Isolate(t, k);
    PipelineExact(t);
    PipelineExact(a);
    if |t| > 1 {
      var b := Front(t);
      assert Front(a) == Isolate(b, k) && Last(a).Live() == Last(t).Live();
      assert Last(Front(a)) == if Last(b).slot == k then Last(b) else Last(b).(updateValid := false);
      IsolatedUpdates(b, k);
    }
  }

  /** The same clock edges with every ineligible update suppressed. */
  function Eligibles(t: seq<BookInput>): (r: seq<BookInput>)
    ensures |r| == |t|
  {
    seq(|t|, j requires 0 <= j < |t| =>
      if t[j].Eligible() then t[j] else t[j].(updateValid := false))
  }

  lemma {:induction false} EligibleUpdates(t: seq<BookInput>, k: nat)
    ensures Updates(Eligibles(t), k) == Updates(t, k)
  {
    if t != [] {
      assert Eligibles(t)[..|t| - 1] == Eligibles(Front(t));
      EligibleUpdates(Front(t), k);
    }
  }

  /** Incomplete, crossed and out-of-range updates leave no trace: on every edge of every
      run the engine outputs what it would output if they had never come. */
  lemma IneligibleChangesNothing(t: Trace)
    ensures Eligibles(t) != [] && Eligibles(t)[0].Restart()
    ensures var full, only := Run(t).feature, Run(Eligibles(t)).feature;
            (full.valid <==> only.valid) && (full.valid ==> full == only)
  {
    var a := Eligibles(t);
    PipelineExact(t);
    PipelineExact(a);
    if |t| > 1 {
      var b := Front(t);
      assert Front(a) == Eligibles(b);
      EligibleUpdates(b, Last(b).slot);
    }
  }

  // ---------------------------------------------------------------- Counting

  /** Features of slot `k` that left the engine since the last restart, in order. */
  function Emitted(t: Trace, k: nat): seq<Feature> {
    if |t| == 1 || Last(t).Restart() then []
    else if Run(t).feature.valid && Run(t).feature.slot == k then
      Emitted(Front(t), k) + [Run(t).feature]
    else
      Emitted(Front(t), k)
  }

  /** How often a stream end since the last restart cancelled a feature of slot `k`. */
  function Cancelled(t: Trace, k: nat): nat {
    if |t| == 1 || Last(t).Restart() then 0
    else if Last(t).streamEnd && PendingFor(Front(t), k) then Cancelled(Front(t), k) + 1
    else Cancelled(Front(t), k)
  }

  predicate PendingFor(t: seq<BookInput>, k: nat) { Pending(t) && Last(t).slot == k }

  /** Of `n` accepted updates of a slot, exactly the last n - 31 become features:
      each has left, is in stage 1, or was cancelled there by a stream end. */
  lemma {:induction false} FeatureCount(t: Trace, k: nat)
    requires k < SLOTS
    ensures |Emitted(t, k)| + Cancelled(t, k) + (if PendingFor(t, k) then 1 else 0)
         == Max(0, |Updates(t, k)| - 31)
  {
    if |t| > 1 && !Last(t).Restart() {
      FeatureCount(Front(t), k);
      PipelineExact(t);
    }
  }

  /** The features of a slot that receives the updates `us` one after another. */
  function SlotFeatures(us: seq<BookInput>): seq<Feature> {
    if |us| < SLOW then [] else SlotFeatures(us[..|us| - 1]) + [FeatureOf(us)]
  }

  /** The feature of slot `k` that is still in stage 1, if there is one. */
  function InStage1(t: Trace, k: nat): seq<Feature> {
    if PendingFor(t, k) then [FeatureOf(Updates(t, k))] else []
  }

  lemma StageOneOutput(t: Trace, k: nat)
    requires k < SLOTS && |t| > 1 && !Last(t).Restart()
    ensures SlotFeatures(Updates(t, k)) == SlotFeatures(Updates(Front(t), k)) + InStage1(t, k)
  {
    var us, vs := Updates(t, k), Updates(Front(t), k);
    if Last(t).Accepts(k) {
      assert us == vs + [Last(t)];
      assert us[..|us| - 1] == vs;
    } else {
      assert us == vs;
    }
  }

  lemma StageTwoOutput(t: Trace, k: nat)
    requires k < SLOTS && |t| > 1 && Last(t).Live()
    ensures Emitted(t, k) == Emitted(Front(t), k) + InStage1(Front(t), k)
  {
    PipelineExact(t);
  }

  /** For every feature of slot `k` since the last restart: was it cancelled, by a stream
      end on the edge after its update? */
  function Fates(t: Trace, k: nat): (fates: seq<bool>)
    ensures PendingFor(t, k) ==> fates != [] && !fates[|fates| - 1]
  {
    if |t| == 1 || Last(t).Restart() then []
    else
      var before := Fates(Front(t), k);
      (if Last(t).streamEnd && PendingFor(Front(t), k) then before[|before| - 1 := true] else before)
      + (if PendingFor(t, k) then [false] else [])
  }

  /** The features that were not cancelled. */
  function Kept(features: seq<Feature>, fates: seq<bool>): seq<Feature>
    requires |features| == |fates|
  {
    if features == [] then [] else
      var n := |features| - 1;
      Kept(features[..n], fates[..n]) + if fates[n] then [] else [features[n]]
  }

  lemma KeptPush(features: seq<Feature>, fates: seq<bool>, f: Feature, cancelled: bool)
    requires |features| == |fates|
    ensures Kept(features + [f], fates + [cancelled]) == Kept(features, fates) + if cancelled then [] else [f]
  {
    assert (features + [f])[..|features|] == features && (fates + [cancelled])[..|fates|] == fates;
  }

  lemma KeptCancel(features: seq<Feature>, fates: seq<bool>)
    requires |features| == |fates| > 0 && !fates[|fates| - 1]
    ensures var n := |fates| - 1;
            Kept(features, fates) == Kept(features, fates[n := true]) + [features[n]]
  {
    var n := |fates| - 1;
    assert fates[n := true][..n] == fates[..n];
  }

  /** A stream end takes the feature out of stage 1. */
  lemma AtStreamEnd(t: Trace, k: nat)
    requires k < SLOTS && |t| > 1 && !Last(t).Restart() && Last(t).streamEnd
    ensures Emitted(t, k) == Emitted(Front(t), k) && InStage1(t, k) == []
    ensures var before := Fates(Front(t), k);
            Fates(t, k) == if PendingFor(Front(t), k) then before[|before| - 1 := true] else before
  {
    PipelineExact(t);
  }

  /** Any other edge moves it on, and may put a new one there. */
  lemma AtLiveEdge(t: Trace, k: nat)
    requires k < SLOTS && |t| > 1 && Last(t).Live()
    ensures Emitted(t, k) == Emitted(Front(t), k) + InStage1(Front(t), k)
    ensures |InStage1(t, k)| <= 1
    ensures Fates(t, k) == Fates(Front(t), k) + if InStage1(t, k) == [] then [] else [false]
  {
    StageTwoOutput(t, k);
  }

  /** What left the engine, and what is in stage 1, are the features kept so far. */
  ghost predicate Accounted(t: Trace, k: nat, features: seq<Feature>) {
    && |Fates(t, k)| == |features|
    && Emitted(t, k) + InStage1(t, k) == Kept(features, Fates(t, k))
  }

  lemma LiveAccounted(t: Trace, k: nat, features: seq<Feature>)
    requires k < SLOTS && |t| > 1 && Last(t).Live() && Accounted(Front(t), k, features)
    ensures Accounted(t, k, features + InStage1(t, k))
  {
    AtLiveEdge(t, k);
    var s := InStage1(t, k);
    if s != [] {
      assert s == [s[0]];
      KeptPush(features, Fates(Front(t), k), s[0], false);
    } else {
      assert features + s == features && Fates(t, k) == Fates(Front(t), k);
    }
  }

  lemma EndAccounted(t: Trace, k: nat, features: seq<Feature>)
    requires k < SLOTS && |t| > 1 && !Last(t).Restart() && Last(t).streamEnd && Accounted(Front(t), k, features)
    ensures Accounted(t, k, features)
  {
    AtStreamEnd(t, k);
    var before := Fates(Front(t), k);
    if PendingFor(Front(t), k) {
      KeptCancel(features, before);
      var n := |before| - 1;
      SameFront(Emitted(Front(t), k), InStage1(Front(t), k)[0], Kept(features, before[n := true]), features[n]);
    }
  }

  lemma SameFront(a: seq<Feature>, x: Feature, b: seq<Feature>, y: Feature)
    requires a + [x] == b + [y]
    ensures a == b
  {
    assert |a + [x]| == |b + [y]|;
    assert a == (a + [x])[..|a|] && b == (b + [y])[..|b|];
  }

  /** Whatever the other slots do and however the updates are spread over the clock
      edges, the features of slot `k` are, in order, those of its own updates, less the
      ones cancelled by a stream end on the very next edge; the newest may still be in
      stage 1. */
  lemma {:induction false} SlotOutput(t: Trace, k: nat)
    requires k < SLOTS
    ensures Accounted(t, k, SlotFeatures(Updates(t, k)))
  {
    if |t| > 1 && !Last(t).Restart() {
      SlotOutput(Front(t), k);
      StageOneOutput(t, k);
      if Last(t).streamEnd {
        AtStreamEnd(t, k);
        EndAccounted(t, k, SlotFeatures(Updates(Front(t), k)));
        assert SlotFeatures(Updates(t, k)) == SlotFeatures(Updates(Front(t), k));
      } else {
        LiveAccounted(t, k, SlotFeatures(Updates(Front(t), k)));
      }
    }
  }

  // ---------------------------------------------------------------- Arithmetic of the trend

  ghost predicate Within(h: seq<uint33>, lo: int, hi: int) {
    forall j :: 0 <= j < |h| ==> lo <= h[j] <= hi
  }

  /** Rounding: 32 times the trend is off the exact difference of averages by at
      least -28 and at most 31. */
  lemma TrendRounding(h: seq<uint33>)
    ensures -28 <= 32 * Trend(h) - (4 * Sum(LastN(h, FAST)) - Sum(LastN(h, SLOW))) <= 31
  {
  }

  /** With both windows full the trend never exceeds the spread of the samples in
      the slow window; on constant prices it is zero. */
  lemma TrendBounded(h: seq<uint33>, lo: int, hi: int)
    requires |h| >= SLOW && Within(LastN(h, SLOW), lo, hi)
    ensures -(hi - lo) <= Trend(h) <= hi - lo
  {
    var slow := LastN(h, SLOW);
    assert LastN(h, FAST) == slow[SLOW - FAST..];
    SumBounds(slow, lo, hi);
    SumBounds(slow[SLOW - FAST..], lo, hi);
  }

  /** Once warm, moving every price by the same amount leaves the trend unchanged. */
  lemma TrendShiftInvariant(h: seq<uint33>, g: seq<uint33>, c: int)
    requires |h| >= SLOW && g == Shift(h, c)
    ensures Trend(g) == Trend(h)
  {
    assert LastN(g, FAST) == Shift(LastN(h, FAST), c);
    assert LastN(g, SLOW) == Shift(LastN(h, SLOW), c);
    SumShift(LastN(h, FAST), c);
    SumShift(LastN(h, SLOW), c);
  }

  // ---------------------------------------------------------------- The registers

  lemma RunPush(t: Trace, n: nat)
    requires 0 < n < |t|
    ensures Run(Prefix(t, n + 1)) == Step(Run(Prefix(t, n)), t[n])
  {
    assert Prefix(t, n + 1)[..n] == Prefix(t, n);
  }

  /** Drives the register-level engine through a trace and records its output
      registers after every edge.  Nothing is assumed about what the registers and
      sample buffers held before: the first edge is a reset or a stream start. */
  method Drive(e: Engine, t: Trace) returns (out: seq<Feature>)
    requires e.Shape()
    modifies e, e.fastBuffer, e.slowBuffer, e.slots
    ensures e.Synced() && e.model == Run(t)
    ensures |out| == |t|
    ensures forall n :: 0 < n <= |t| ==> out[n - 1] == Run(Prefix(t, n)).feature
  {
    e.Clock(t[0]);
    assert Prefix(t, 1) == [t[0]];
    out := [e.feature];
    var n := 1;
    while n < |t|
      invariant 1 <= n == |out| <= |t|
      invariant e.Synced() && e.model == Run(Prefix(t, n))
      invariant forall q :: 0 < q <= n ==> out[q - 1] == Run(Prefix(t, q)).feature
      modifies e, e.fastBuffer, e.slowBuffer, e.slots
    {
      RunPush(t, n);
      e.Clock(t[n]);
      out := out + [e.feature];
      n := n + 1;
    }
    assert Prefix(t, n) == t;
  }

  /** Stale-buffer independence: two engines with arbitrary, different contents
      produce identical outputs on every edge of the same trace. */
  method StaleBuffersDoNotMatter(a: Engine, b: Engine, t: Trace) returns (outA: seq<Feature>, outB: seq<Feature>)
    requires a.Shape() && b.Shape()
    requires a != b && {a.fastBuffer, a.slowBuffer} !! {b.fastBuffer, b.slowBuffer} && a.slots != b.slots
    modifies a, a.fastBuffer, a.slowBuffer, a.slots, b, b.fastBuffer, b.slowBuffer, b.slots
    ensures outA == outB && |outA| == |t|
    ensures forall n :: 0 < n <= |t| ==>
              && (outA[n - 1].valid <==> Emits(Prefix(t, n)))
              && (Emits(Prefix(t, n)) ==>
                    outA[n - 1] == FeatureOf(Updates(t[..n - 1], t[n - 2].slot)))
  {
    outA := Drive(a, t);
    outB := Drive(b, t);
    assert forall n :: 0 <= n < |t| ==> outA[n] == Run(Prefix(t, n + 1)).feature == outB[n];
    forall n | 0 < n <= |t|
      ensures outA[n - 1].valid <==> Emits(Prefix(t, n))
      ensures Emits(Prefix(t, n)) ==> outA[n - 1] == FeatureOf(Updates(t[..n - 1], t[n - 2].slot))
    {
      PipelineExact(Prefix(t, n));
      assert Front(Prefix(t, n)) == t[..n - 1];
    }
  }
}

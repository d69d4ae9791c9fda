/** The moving-average feature engine: per-instrument circular buffers, running
    sums and a warm-up state machine, feeding a two-stage output pipeline.

    `Model` is the specification: it keeps the complete sample history of every
    slot and takes sums of its last 8 and last 32 samples.  `Engine` is the
    register-transfer form, with buffers that are never cleared, wrapping
    pointers and truncating sums; its `Clock` is proved to follow the model. */
module FeatureEngine {
  import opened Words
  import opened Windows

  const SLOTS: int := 5
  const FAST: int := 8
  const SLOW: int := 32

  /** Everything the engine samples on one rising edge. */
  datatype BookInput = BookInput(
    resetn: bool,
    streamStart: bool,
    streamEnd: bool,
    updateValid: bool,
    slot: uint3,
    timestamp: uint64,
    bidPrice: uint32,
    bidQuantity: uint32,
    askPrice: uint32,
    askQuantity: uint32,
    bookValid: bool,
    crossed: bool)
  {
    predicate Restart() { !resetn || streamStart }

    /** Neither reset, start nor end: the branch in which the pipeline moves. */
    predicate Live() { !Restart() && !streamEnd }

    /** The combinational gate `process_book_update`. */
    predicate Eligible() { updateValid && bookValid && !crossed && slot < 5 }

    predicate Accepts(k: nat) { Live() && Eligible() && slot == k }

    function Midpoint2(): uint33 { bidPrice + askPrice }
  }

  datatype Stage1 = Stage1(
    valid: bool, slot: uint3, timestamp: uint64, imbalance: int33, spread: uint32)

  datatype Feature = Feature(
    valid: bool, slot: uint3, timestamp: uint64, trend: int34, imbalance: int33, spread: uint32)

  // ---------------------------------------------------------------- Specification

  /** Fast average minus slow average, each rounded down to a whole number. */
  function Trend(h: seq<uint33>): (r: int34) {
    SumBounds(LastN(h, FAST), 0, TWO33 - 1);
    SumBounds(LastN(h, SLOW), 0, TWO33 - 1);
    Sum(LastN(h, FAST)) / FAST - Sum(LastN(h, SLOW)) / SLOW
  }

  datatype Model = Model(hist: seq<seq<uint33>>, stage1: Stage1, feature: Feature) {
    predicate WellFormed() { |hist| == SLOTS && stage1.slot < 5 }
  }

  const INITIAL: Model := Model(
    [[], [], [], [], []],
    Stage1(false, 0, 0, 0, 0),
    Feature(false, 0, 0, 0, 0, 0))

  /** One rising edge of the specification. */
  function Step(m: Model, i: BookInput): (r: Model)
    requires m.WellFormed() || i.Restart()
    ensures r.WellFormed()
  {
    if i.Restart() then INITIAL
    else if i.streamEnd then
      m.(stage1 := m.stage1.(valid := false), feature := m.feature.(valid := false))
    else
      var feature :=
        if m.stage1.valid
        then Feature(true, m.stage1.slot, m.stage1.timestamp, Trend(m.hist[m.stage1.slot]),
                     m.stage1.imbalance, m.stage1.spread)
        else m.feature.(valid := false);
      if i.Eligible() then
        var hist := PushAt(m.hist, i.slot, i.Midpoint2());
        Model(hist,
              Stage1(|hist[i.slot]| >= SLOW, i.slot, i.timestamp,
                     i.bidQuantity - i.askQuantity, U32(i.askPrice - i.bidPrice)),
              feature)
      else
        Model(m.hist, m.stage1.(valid := false), feature)
  }

  /** The state after a whole trace that begins with a reset or a stream start. */
  function Run(t: seq<BookInput>): (m: Model)
    requires t != [] && t[0].Restart()
    ensures m.WellFormed()
  {
    if |t| == 1 then Step(INITIAL, t[0]) else Step(Run(t[..|t| - 1]), t[|t| - 1])
  }

  // ---------------------------------------------------------------- Registers

  // The two-bit state encoding; the fourth code is reached only by a fault.
  const WARMUP_FAST: uint2 := 0
  const WARMUP_SLOW: uint2 := 1
  const FEATURE_READY: uint2 := 2

  datatype SlotRegisters = SlotRegisters(
    fastSum: uint36,
    slowSum: uint38,
    fastPointer: uint3,
    slowPointer: uint5,
    sampleCount: uint6,
    currentState: uint2)

  const CLEARED: SlotRegisters := SlotRegisters(0, 0, 0, 0, 0, WARMUP_FAST)

  function NextState(state: uint2, count: uint6): uint2 {
    if state == WARMUP_FAST then (if count == 7 then WARMUP_SLOW else WARMUP_FAST)
    else if state == WARMUP_SLOW then (if count == 31 then FEATURE_READY else WARMUP_SLOW)
    else if state == FEATURE_READY then FEATURE_READY
    else WARMUP_FAST
  }

  /** The state that a history of `n` samples dictates. */
  function StateFor(n: nat): uint2 {
    if n < FAST then WARMUP_FAST else if n < SLOW then WARMUP_SLOW else FEATURE_READY
  }

  ghost predicate RegistersHold(r: SlotRegisters, h: seq<uint33>) {
    && r.fastSum == Sum(LastN(h, FAST))
    && r.slowSum == Sum(LastN(h, SLOW))
    && r.fastPointer == |h| % FAST
    && r.slowPointer == |h| % SLOW
    && r.sampleCount == Min(|h|, SLOW)
    && r.currentState == StateFor(|h|)
  }

  /** The registers of a slot after one accepted sample.  `oldestFast` and
      `oldestSlow` are the buffer entries that the two pointers select. */
  function Datapath(r: SlotRegisters, m: uint33, oldestFast: uint33, oldestSlow: uint33): SlotRegisters {
    var nextState := NextState(r.currentState, r.sampleCount);
    if r.currentState == WARMUP_FAST then
      SlotRegisters(U36(r.fastSum + m), U38(r.slowSum + m),
                    U3(r.fastPointer + 1), U5(r.slowPointer + 1),
                    U6(r.sampleCount + 1), nextState)
    else if r.currentState == WARMUP_SLOW then
      SlotRegisters(U36(r.fastSum - oldestFast + m), U38(r.slowSum + m),
                    U3(r.fastPointer + 1), U5(r.slowPointer + 1),
                    U6(r.sampleCount + 1), nextState)
    else if r.currentState == FEATURE_READY then
      SlotRegisters(U36(r.fastSum - oldestFast + m), U38(r.slowSum - oldestSlow + m),
                    U3(r.fastPointer + 1), U5(r.slowPointer + 1),
                    32, nextState)
    else
      SlotRegisters(0, 0, 0, 0, 0, nextState)
  }

  /** Stage 2: division by eight and by 32, then a 34-bit signed subtraction. */
  function Difference(r: SlotRegisters): int34 {
    S34(r.fastSum / 8 - r.slowSum / 32)
  }

  /** Row `k` of a buffer holds the last `n` samples of `h`, sample `j` at `j mod n`. */
  ghost predicate RowHolds(buffer: array2<uint33>, k: nat, h: seq<uint33>, n: nat)
    requires n > 0 && k < buffer.Length0 && buffer.Length1 == n
    reads buffer
  {
    forall j :: 0 <= j < |h| && |h| - n <= j ==> buffer[k, j % n] == h[j]
  }

  function PushAt(hist: seq<seq<uint33>>, k: nat, m: uint33): seq<seq<uint33>>
    requires k < |hist|
  {
    hist[k := hist[k] + [m]]
  }

  /** Writes one buffer entry; `hist` is the history that every row held before. */
  method Store(buffer: array2<uint33>, k: nat, pointer: nat, m: uint33, n: nat, ghost hist: seq<seq<uint33>>)
    requires |hist| == buffer.Length0 && k < |hist| && 0 < n == buffer.Length1
    requires pointer == |hist[k]| % n
    requires forall q :: 0 <= q < |hist| ==> RowHolds(buffer, q, hist[q], n)
    modifies buffer
    ensures forall q :: 0 <= q < |hist| ==> RowHolds(buffer, q, PushAt(hist, k, m)[q], n)
  {
    buffer[k, pointer] := m;
    forall j | 0 <= j < |hist[k]| && |hist[k]| + 1 - n <= j
      ensures j % n != pointer
    {
      WithinOneLap(j, |hist[k]|, n);
    }
  }

  class Engine {
    const fastBuffer: array2<uint33>
    const slowBuffer: array2<uint33>
    const slots: array<SlotRegisters>
    var stage1: Stage1
    var feature: Feature
    ghost var model: Model

    ghost predicate Shape() {
      && fastBuffer.Length0 == slowBuffer.Length0 == slots.Length == SLOTS
      && fastBuffer.Length1 == FAST
      && slowBuffer.Length1 == SLOW
      && fastBuffer != slowBuffer
    }

    /** Every register agrees with the model. */
    ghost predicate Synced()
      reads this, fastBuffer, slowBuffer, slots
    {
      && Shape()
      && model.WellFormed()
      && stage1 == model.stage1
      && feature == model.feature
      && forall k :: 0 <= k < SLOTS ==>
           && RegistersHold(slots[k], model.hist[k])
           && RowHolds(fastBuffer, k, model.hist[k], FAST)
           && RowHolds(slowBuffer, k, model.hist[k], SLOW)
    }

    /** Power-up: the contents of every register and buffer are arbitrary. */
    constructor ()
      ensures Shape()
      ensures fresh(fastBuffer) && fresh(slowBuffer) && fresh(slots)
    {
      fastBuffer := new uint33[SLOTS, FAST];
      slowBuffer := new uint33[SLOTS, SLOW];
      slots := new SlotRegisters[SLOTS];
    }

    /** Clears every control register; the sample buffers keep what they held. */
    method ClearAll()
      requires Shape()
      modifies this, slots
      ensures model == INITIAL && Synced()
    {
      var k := 0;
      while k < SLOTS
        invariant 0 <= k <= SLOTS
        invariant forall j :: 0 <= j < k ==> slots[j] == CLEARED
        modifies slots
      {
        slots[k] := CLEARED;
        k := k + 1;
      }
      stage1 := Stage1(false, 0, 0, 0, 0);
      feature := Feature(false, 0, 0, 0, 0, 0);
      model := INITIAL;
    }

    /** The stage-1 update of the selected slot: reads the registers as they were
        before the edge, then writes each of them once. */
    method AcceptSample(i: BookInput) returns (calculationValid: bool)
      requires Synced() && i.Live() && i.Eligible()
      modifies this`model, fastBuffer, slowBuffer, slots
      ensures Synced()
      ensures model == old(model).(hist := PushAt(old(model).hist, i.slot, i.Midpoint2()))
      ensures calculationValid <==> |model.hist[i.slot]| >= SLOW
    {
      var k, midpoint2 := i.slot, i.Midpoint2();
      var r := slots[k];
      ghost var h := model.hist[k];
      ghost var others := model.hist;
      PointerOfLength(|h|);
      DatapathAdvances(r, h, midpoint2,
                       fastBuffer[k, r.fastPointer], slowBuffer[k, r.slowPointer]);

      slots[k] := Datapath(r, midpoint2, fastBuffer[k, r.fastPointer], slowBuffer[k, r.slowPointer]);
      if r.currentState <= FEATURE_READY {
        Store(fastBuffer, k, r.fastPointer, midpoint2, FAST, others);
        Store(slowBuffer, k, r.slowPointer, midpoint2, SLOW, others);
      }
      calculationValid :=
        r.currentState == FEATURE_READY || (r.currentState == WARMUP_SLOW && r.sampleCount == 31);
      model := model.(hist := PushAt(model.hist, k, midpoint2));
    }

    /** One rising edge. */
    method Clock(i: BookInput)
      requires Shape()
      requires i.Restart() || Synced()
      modifies this, fastBuffer, slowBuffer, slots
      ensures Synced()
      ensures model == Step(old(model), i)
    {
      if i.Restart() {
        ClearAll();
      } else if i.streamEnd {
        stage1 := stage1.(valid := false);
        feature := feature.(valid := false);
        model := Step(model, i);
      } else {
        // Stage 2 reads the sums that the previous edge left behind.
        var nextFeature := feature.(valid := stage1.valid);
        if stage1.valid {
          DifferenceIsTrend(slots[stage1.slot], model.hist[stage1.slot]);
          nextFeature := Feature(true, stage1.slot, stage1.timestamp,
                                 Difference(slots[stage1.slot]),
                                 stage1.imbalance, stage1.spread);
        }
        var nextStage1 := stage1.(valid := false);
        ghost var before := model;
        if i.Eligible() {
          var calculationValid := AcceptSample(i);
          nextStage1 := Stage1(calculationValid, i.slot, i.timestamp,
                               S33(i.bidQuantity - i.askQuantity), U32(i.askPrice - i.bidPrice));
        }
        feature := nextFeature;
        stage1 := nextStage1;
        model := Step(before, i);
      }
    }
  }

  lemma WithinOneLap(j: nat, len: nat, n: nat)
    requires 0 < n && j < len < j + n
    ensures j % n != len % n
  {
    var laps := len / n - j / n;
    assert len - j == n * laps + len % n - j % n;
    assert laps >= 1 ==> n * laps >= n;
    assert laps <= 0 ==> n * laps <= 0;
  }

  /** The pointers wrap with the length and, once a window is full, select its
      oldest sample. */
  lemma PointerOfLength(len: nat)
    ensures len >= FAST ==> (len - FAST) % FAST == len % FAST
    ensures len >= SLOW ==> (len - SLOW) % SLOW == len % SLOW
    ensures U3(len % FAST + 1) == (len + 1) % FAST
    ensures U5(len % SLOW + 1) == (len + 1) % SLOW
  {
    LapModulo(len, FAST);
    LapModulo(len, SLOW);
  }

  lemma DifferenceIsTrend(r: SlotRegisters, h: seq<uint33>)
    requires RegistersHold(r, h)
    ensures Difference(r) == Trend(h)
  {
  }

  /** The two sums of one datapath step. */
  lemma SumsAdvance(r: SlotRegisters, h: seq<uint33>, m: uint33, oldestFast: uint33, oldestSlow: uint33)
    requires RegistersHold(r, h)
    requires |h| >= FAST ==> oldestFast == h[|h| - FAST]
    requires |h| >= SLOW ==> oldestSlow == h[|h| - SLOW]
    ensures var next := Datapath(r, m, oldestFast, oldestSlow);
            next.fastSum == Sum(LastN(h + [m], FAST)) && next.slowSum == Sum(LastN(h + [m], SLOW))
  {
    SampleSums(h, m);
  }

  /** The pointers, the count and the state of one datapath step. */
  lemma ControlAdvances(r: SlotRegisters, n: nat, m: uint33, oldestFast: uint33, oldestSlow: uint33)
    requires r.fastPointer == n % FAST && r.slowPointer == n % SLOW
    requires r.sampleCount == Min(n, SLOW) && r.currentState == StateFor(n)
    ensures var next := Datapath(r, m, oldestFast, oldestSlow);
            && next.fastPointer == (n + 1) % FAST && next.slowPointer == (n + 1) % SLOW
            && next.sampleCount == Min(n + 1, SLOW) && next.currentState == StateFor(n + 1)
  {
    PointerOfLength(n);
  }

  /** One datapath step takes registers that describe `h` to registers that
      describe `h + [m]`, provided the entries it subtracts are the oldest samples
      of whichever windows are already full. */
  lemma DatapathAdvances(r: SlotRegisters, h: seq<uint33>, m: uint33, oldestFast: uint33, oldestSlow: uint33)
    requires RegistersHold(r, h)
    requires |h| >= FAST ==> oldestFast == h[|h| - FAST]
    requires |h| >= SLOW ==> oldestSlow == h[|h| - SLOW]
    ensures RegistersHold(Datapath(r, m, oldestFast, oldestSlow), h + [m])
    ensures r.currentState <= FEATURE_READY
  {
    SumsAdvance(r, h, m, oldestFast, oldestSlow);
    ControlAdvances(r, |h|, m, oldestFast, oldestSlow);
  }

  /** Both running sums after one more sample, and the room they need. */
  lemma SampleSums(h: seq<uint33>, m: uint33)
    ensures Sum(LastN(h + [m], FAST))
         == Sum(LastN(h, FAST)) + m - (if |h| >= FAST then h[|h| - FAST] else 0)
    ensures Sum(LastN(h + [m], SLOW))
         == Sum(LastN(h, SLOW)) + m - (if |h| >= SLOW then h[|h| - SLOW] else 0)
    ensures 0 <= Sum(LastN(h + [m], FAST)) < 0x10_0000_0000
    ensures 0 <= Sum(LastN(h + [m], SLOW)) < 0x40_0000_0000
  {
    SlideSum(h, m, FAST);
    SlideSum(h, m, SLOW);
    WindowRoom(LastN(h + [m], FAST), FAST);
    WindowRoom(LastN(h + [m], SLOW), SLOW);
  }

  /** The sum of at most `n` samples of 33 bits. */
  lemma WindowRoom(w: seq<uint33>, n: nat)
    requires |w| <= n
    ensures 0 <= Sum(w) <= n * (TWO33 - 1)
  {
    SumBounds(w, 0, TWO33 - 1);
  }
}

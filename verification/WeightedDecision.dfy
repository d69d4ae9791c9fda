/** The three-stage weighted decision pipeline: products, scores, comparison.
    Score registers are 64-bit two's complement; the trading rule itself is stated
    on unbounded integers. */
module WeightedDecision {
  import opened Words
  import opened FeatureEngine

  datatype TradeSignal = HOLD | BUY | SELL

  datatype Weights = Weights(trend: int16, imbalance: int16, spread: uint16, base: int64)

  const DEFAULT_WEIGHTS: Weights := Weights(4, 1, 2, 100)

  datatype Decision = Decision(
    valid: bool, slot: uint3, timestamp: uint64,
    signal: TradeSignal, direction: int64, required: int64)

  // ---------------------------------------------------------------- The trading rule

  function Direction(w: Weights, f: Feature): int {
    w.trend * f.trend + w.imbalance * f.imbalance
  }

  function Required(w: Weights, f: Feature): int {
    w.base + w.spread * f.spread
  }

  function Decide(direction: int, required: int): TradeSignal {
    if direction > required then BUY
    else if direction < -required then SELL
    else HOLD
  }

  function Opposite(s: TradeSignal): TradeSignal {
    match s
    case HOLD => HOLD
    case BUY => SELL
    case SELL => BUY
  }

  /** The comparison as the 64-bit stage-3 registers make it. */
  function Compare(direction: int64, required: int64): TradeSignal {
    if direction > required then BUY
    else if direction < S64(0 - required) then SELL
    else HOLD
  }

  /** What the pipeline registers for one feature set. */
  function Scored(w: Weights, f: Feature): Decision {
    DirectionFits(w, f);
    var required := S64(Required(w, f));
    Decision(f.valid, f.slot, f.timestamp,
             if f.valid then Compare(Direction(w, f), required) else HOLD,
             Direction(w, f), required)
  }

  /** The output registers, given the feature sets sampled since the last reset. */
  function OutputOf(w: Weights, fed: seq<Feature>): Decision {
    if |fed| < 2 then Decision(false, 0, 0, HOLD, 0, 0)
    else if |fed| == 2 then Decision(false, 0, 0, HOLD, 0, w.base)
    else Scored(w, fed[|fed| - 3])
  }

  lemma NaturalProduct(a: nat, b: nat, m: nat, n: nat)
    requires a <= m && b <= n
    ensures a * b <= m * n
  {
    assert m * b - a * b == (m - a) * b >= 0;
    assert m * n - m * b == m * (n - b) >= 0;
  }

  lemma ProductBound(a: int, b: int, m: int, n: int)
    requires -m <= a <= m && -n <= b <= n
    ensures -(m * n) <= a * b <= m * n
  {
    var x: nat := if a < 0 then -a else a;
    var y: nat := if b < 0 then -b else b;
    NaturalProduct(x, y, m, n);
    assert a * b == x * y || a * b == -(x * y);
  }

  /** Neither product nor their sum can leave 64 bits, whatever the weights. */
  lemma DirectionFits(w: Weights, f: Feature)
    ensures -0x1_0000_0000_0000 <= w.trend * f.trend <= 0x1_0000_0000_0000
    ensures -0x8000_0000_0000 <= w.imbalance * f.imbalance <= 0x8000_0000_0000
    ensures 0 <= w.spread * f.spread < 0x1_0000_0000_0000
    ensures -0x2_0000_0000_0000 <= Direction(w, f) <= 0x2_0000_0000_0000
  {
    ProductBound(w.trend, f.trend, 0x8000, 0x2_0000_0000);
    ProductBound(w.imbalance, f.imbalance, 0x8000, 0x1_0000_0000);
    ProductBound(w.spread, f.spread, 0xFFFF, 0xFFFF_FFFF);
    assert w.spread * f.spread >= 0;
  }

  /** The registered signal is the trading rule on unbounded integers exactly when
      the spread-adjusted threshold fits 64 bits. */
  lemma DecisionExact(w: Weights, f: Feature)
    requires f.valid
    ensures Scored(w, f).signal == Decide(Direction(w, f), Required(w, f))
       <==> Required(w, f) < 0x8000_0000_0000_0000
  {
    DirectionFits(w, f);
  }

  /** Which evidence buys, sells or holds, for all weights whose threshold fits. */
  lemma SignalMeans(w: Weights, f: Feature)
    requires f.valid
    ensures var direction := w.trend * f.trend + w.imbalance * f.imbalance;
            var required := w.base + w.spread * f.spread;
            var out := Scored(w, f);
            required < 0x8000_0000_0000_0000 ==>
              && out.valid && out.slot == f.slot && out.timestamp == f.timestamp
              && out.direction == direction && out.required == required
              && (out.signal == BUY <==> direction > required)
              && (out.signal == SELL <==> direction <= required && direction < -required)
              && (out.signal == HOLD <==> -required <= direction <= required)
  {
    DecisionExact(w, f);
    DirectionFits(w, f);
  }

  /** With the weights of the design nothing is ever lost, and the threshold is
      positive, so that buying and selling exclude each other. */
  lemma DefaultDecision(f: Feature)
    requires f.valid
    ensures var d, r := Direction(DEFAULT_WEIGHTS, f), Required(DEFAULT_WEIGHTS, f);
            && d == 4 * f.trend + f.imbalance
            && r == 100 + 2 * f.spread
            && Scored(DEFAULT_WEIGHTS, f) == Decision(true, f.slot, f.timestamp, Decide(d, r), d, r)
            && !(d > r && d < -r)
  {
    DecisionExact(DEFAULT_WEIGHTS, f);
  }

  /** No directional bias: negating the evidence negates the signal, except exactly
      where both thresholds are met at once, which a non-negative threshold excludes. */
  lemma NoDirectionalBias(direction: int, required: int)
    ensures Decide(-direction, required) == Opposite(Decide(direction, required))
       <==> !(required < direction && direction < -required)
    ensures required >= 0 ==> !(required < direction && direction < -required)
  {
  }

  lemma Monotone(k: nat, a: nat, b: nat)
    requires a <= b
    ensures k * a <= k * b
  {
  }

  /** The direction lies above the lower threshold, not above the higher one, and below
      the mirror image of that. */
  predicate Flips(direction: int, required: int, higher: int) {
    required < direction <= higher && direction < -higher
  }

  lemma HigherThreshold(direction: int, required: int, higher: int)
    requires required <= higher
    ensures Decide(direction, higher) in {Decide(direction, required), HOLD} <==> !Flips(direction, required, higher)
    ensures required >= 0 ==> !Flips(direction, required, higher)
  {
  }

  /** For all weights: a wider spread keeps the signal or turns it into a hold, except
      exactly where it flips a buy into a sell; only from a negative threshold can it do that. */
  lemma WiderSpreadTradesLess(w: Weights, f: Feature, wider: uint32)
    requires f.spread <= wider
    ensures var narrow, wide := Required(w, f), Required(w, f.(spread := wider));
            var before, after := Decide(Direction(w, f), narrow), Decide(Direction(w, f), wide);
            && (after in {before, HOLD} <==> !Flips(Direction(w, f), narrow, wide))
            && (narrow >= 0 ==> after in {before, HOLD})
  {
    Monotone(w.spread, f.spread, wider);
    HigherThreshold(Direction(w, f), Required(w, f), Required(w, f.(spread := wider)));
  }

  /** With a base threshold of -10 a spread of 0 buys where a spread of 5 sells. */
  lemma NegativeThresholdFlips()
    ensures var w, f := Weights(1, 0, 1, -10), Feature(true, 0, 0, -5, 0, 0);
            Decide(Direction(w, f), Required(w, f)) == BUY
            && Decide(Direction(w, f), Required(w, f.(spread := 5))) == SELL
  {
  }

  // ---------------------------------------------------------------- Registers

  datatype Products = Products(
    valid: bool, slot: uint3, timestamp: uint64, trend: int64, imbalance: int64, spread: int64)

  datatype Scores = Scores(
    valid: bool, slot: uint3, timestamp: uint64, direction: int64, required: int64)

  function ProductsOf(w: Weights, f: Feature): Products {
    DirectionFits(w, f);
    Products(f.valid, f.slot, f.timestamp,
             w.trend * f.trend, w.imbalance * f.imbalance, w.spread * f.spread)
  }

  function ScoresOf(w: Weights, f: Feature): Scores {
    DirectionFits(w, f);
    Scores(f.valid, f.slot, f.timestamp, Direction(w, f), S64(Required(w, f)))
  }

  class Pipeline {
    const weights: Weights
    var products: Products
    var scores: Scores
    var output: Decision
    // The feature sets sampled since the last reset.
    ghost var fed: seq<Feature>

    ghost predicate ProductsHold()
      reads this
    {
      products == if fed == [] then Products(false, 0, 0, 0, 0, 0)
                  else ProductsOf(weights, fed[|fed| - 1])
    }

    ghost predicate ScoresHold()
      reads this
    {
      scores == if fed == [] then Scores(false, 0, 0, 0, 0)
                else if |fed| == 1 then Scores(false, 0, 0, 0, weights.base)
                else ScoresOf(weights, fed[|fed| - 2])
    }

    ghost predicate OutputHolds()
      reads this
    {
      output == OutputOf(weights, fed)
    }

    ghost predicate Valid()
      reads this
    {
      ProductsHold() && ScoresHold() && OutputHolds()
    }

    constructor (w: Weights)
      ensures weights == w
    {
      weights := w;
    }

    /** One rising edge.  `Valid()` says in full what all three stages hold. */
    method Clock(resetn: bool, f: Feature)
      requires resetn ==> Valid()
      modifies this
      ensures Valid()
      ensures fed == if resetn then old(fed) + [f] else []
    {
      if !resetn {
        products := Products(false, 0, 0, 0, 0, 0);
        scores := Scores(false, 0, 0, 0, 0);
        output := Decision(false, 0, 0, HOLD, 0, 0);
        fed := [];
      } else {
        var p, s := products, scores;
        products := Multiply(weights, f);
        scores := Accumulate(weights, p);
        output := Decision(s.valid, s.slot, s.timestamp,
                           if s.valid then Compare(s.direction, s.required) else HOLD,
                           s.direction, s.required);
        if fed != [] {
          StagesExact(weights, fed[|fed| - 1]);
        }
        StagesExact(weights, f);
        fed := fed + [f];
      }
    }
  }

  /** Stage 1 with its 64-bit registers. */
  function Multiply(w: Weights, f: Feature): Products {
    Products(f.valid, f.slot, f.timestamp,
             S64(f.trend * w.trend), S64(f.imbalance * w.imbalance), S64(f.spread * w.spread))
  }

  /** Stage 2 with its 64-bit registers. */
  function Accumulate(w: Weights, p: Products): Scores {
    Scores(p.valid, p.slot, p.timestamp, S64(p.trend + p.imbalance), S64(w.base + p.spread))
  }

  lemma StagesExact(w: Weights, f: Feature)
    ensures Multiply(w, f) == ProductsOf(w, f)
    ensures Accumulate(w, ProductsOf(w, f)) == ScoresOf(w, f)
  {
    DirectionFits(w, f);
    assert f.trend * w.trend == w.trend * f.trend;
    assert f.imbalance * w.imbalance == w.imbalance * f.imbalance;
    assert f.spread * w.spread == w.spread * f.spread;
  }

  /** The feature sets sampled by edge n, counted from 0. */
  function FedBy(features: seq<Feature>, n: nat): seq<Feature>
    requires n < |features|
  {
    features[..n + 1]
  }

  /** One edge of a run. */
  method DriveEdge(p: Pipeline, features: seq<Feature>, n: nat) returns (out: Decision)
    requires p.Valid() && n < |features| && p.fed == features[..n]
    modifies p
    ensures p.Valid() && p.fed == features[..n + 1]
    ensures out == OutputOf(p.weights, FedBy(features, n))
  {
    p.Clock(true, features[n]);
    out := p.output;
  }

  /** Clocks a feature set in on every edge after a reset and records the output
      registers: each feature set comes out scored on the third edge, with its own
      slot and timestamp, one per edge, and nothing valid comes out before. */
  method Drive(p: Pipeline, features: seq<Feature>) returns (out: seq<Decision>)
    modifies p
    ensures p.Valid() && |out| == |features|
    ensures forall n :: 0 <= n < |features| - 2 ==> out[n + 2] == Scored(p.weights, features[n])
    ensures forall n :: 0 <= n < Min(2, |features|) ==> !out[n].valid
  {
    p.Clock(false, Feature(false, 0, 0, 0, 0, 0));
    out := [];
    while |out| < |features|
      invariant |out| <= |features| && p.Valid() && p.fed == features[..|out|]
      invariant forall n :: 0 <= n < |out| ==> out[n] == OutputOf(p.weights, FedBy(features, n))
    {
      var next := DriveEdge(p, features, |out|);
      out := out + [next];
    }
    forall n | 0 <= n < |features| - 2 ensures out[n + 2] == Scored(p.weights, features[n]) {
      assert out[n + 2] == OutputOf(p.weights, FedBy(features, n + 2));
    }
  }
}

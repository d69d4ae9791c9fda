/** The complete trading engine: filter, sequence tracker, instrument book, feature
    engine and decision pipeline, clocked together, against a specification that
    handles one packet at a time and knows nothing of clock edges. */
module TradingEngine {
  import opened Words
  import opened Hft1
  import opened Quotes
  import opened WeightedDecision
  import F = FeatureEngine
  import P = PacketFilter
  import T = SequenceTracker
  import B = InstrumentBook

  datatype Config = Config(ids: P.InstrumentIds, weights: Weights)

  // ---------------------------------------------------------------- One packet at a time

  /** Everything the engine remembers between packets. */
  datatype Market = Market(
    active: bool, baseline: T.Baseline, books: seq<B.Book>, hist: seq<seq<uint33>>)
  {
    predicate WellFormed() { |books| == 5 && |hist| == 5 }
  }

  const CLOSED: Market := Market(false, T.CLEARED, B.ALL_EMPTY, F.INITIAL.hist)
  const OPENED: Market := CLOSED.(active := true)

  /** The features of a complete, uncrossed book and the history that it ends. */
  function FeatureFor(slot: uint3, timestamp: uint64, b: B.Book, h: seq<uint33>): F.Feature
    requires b.Complete() && !b.Crossed()
  {
    F.Feature(true, slot, timestamp, F.Trend(h),
              b.bid.value.quantity - b.ask.value.quantity, b.ask.value.price - b.bid.value.price)
  }

  /** A book update: sampled if complete and not crossed; a decision from sample 32 on. */
  function OnBook(w: Weights, m: Market, slot: uint3, timestamp: uint64): (r: (Market, seq<Decision>))
    requires m.WellFormed() && slot < 5
    ensures r.0.WellFormed()
  {
    var b := m.books[slot];
    if !b.Complete() || b.Crossed() then (m, []) else
      var n := m.(hist := F.PushAt(m.hist, slot, b.bid.value.price + b.ask.value.price));
      var h := n.hist[slot];
      (n, if |h| >= F.SLOW then [Scored(w, FeatureFor(slot, timestamp, b, h))] else [])
  }

  /** A quote with an acceptable sequence number. */
  function OnTracked(w: Weights, m: Market, q: Quote): (r: (Market, seq<Decision>))
    requires m.WellFormed() && q.slot < 5
    ensures r.0.WellFormed()
  {
    if q.side !in {B.SIDE_BID, B.SIDE_ASK} then (m, [])
    else OnBook(w, m.(books := m.books[q.slot := B.Quoted(m.books[q.slot], q)]), q.slot, q.timestamp)
  }

  /** A quote of a known instrument in an active stream. */
  function OnQuote(w: Weights, m: Market, q: Quote): (r: (Market, seq<Decision>))
    requires m.WellFormed() && q.slot < 5
    ensures r.0.WellFormed()
  {
    var n := m.(baseline := T.Track(m.baseline, q.sequence));
    if T.Judge(m.baseline, q.sequence).Forwarded() then OnTracked(w, n, q) else (n, [])
  }

  function OnPacket(c: Config, m: Market, f: Fields): (r: (Market, seq<Decision>))
    requires m.WellFormed()
    ensures r.0.WellFormed()
  {
    if f.messageType == STREAM_START then (OPENED, [])
    else if f.messageType == STREAM_END then
      (m.(active := false, baseline := m.baseline.(initialized := false)), [])
    else if f.messageType == QUOTE_UPDATE && m.active then
      match P.Lookup(c.ids, f.instrumentId)
      case Some(slot) => OnQuote(c.weights, m, P.QuoteOf(slot, f))
      case None => (m, [])
    else (m, [])
  }

  /** The market after a list of packets, and the decisions taken on the way. */
  function MarketAfter(c: Config, packets: seq<Fields>): (m: Market)
    ensures m.WellFormed()
  {
    if packets == [] then CLOSED else
      var n := |packets| - 1;
      OnPacket(c, MarketAfter(c, packets[..n]), packets[n]).0
  }

  function Decisions(c: Config, packets: seq<Fields>): seq<Decision> {
    if packets == [] then [] else
      var n := |packets| - 1;
      Decisions(c, packets[..n]) + OnPacket(c, MarketAfter(c, packets[..n]), packets[n]).1
  }

  // ---------------------------------------------------------------- The clocked engine

  /** The registers of all five modules; `fed` are the feature sets sampled by the
      decision pipeline since reset. */
  datatype State = State(
    filter: P.FilterState, tracker: T.TrackerState, book: B.BookState,
    features: F.Model, fed: seq<F.Feature>)
  {
    predicate WellFormed() { book.WellFormed() && features.WellFormed() }
  }

  // The wires between the modules, as they are before an edge.

  function ToTracker(s: State, resetn: bool): T.TrackerInput {
    T.TrackerInput(resetn, s.filter.startPulse, s.filter.endPulse, s.filter.quoteValid, s.filter.quote)
  }

  function ToBook(s: State, resetn: bool): B.QuoteInput {
    B.QuoteInput(resetn, s.filter.startPulse, s.filter.endPulse, s.tracker.output.valid, s.tracker.output.quote)
  }

  function ToFeatures(s: State, resetn: bool): F.BookInput {
    var o := s.book.output;
    F.BookInput(resetn, s.filter.startPulse, s.filter.endPulse, o.updateValid, o.slot, o.timestamp,
                o.bid.price, o.bid.quantity, o.ask.price, o.ask.quantity, o.valid, o.crossed)
  }

  /** One rising edge: every module reads what the others held before it. */
  function Clock(c: Config, s: State, i: P.FilterInput): (r: State)
    requires s.WellFormed() || !i.resetn
    ensures r.WellFormed()
  {
    State(P.Step(c.ids, s.filter, i),
          T.Step(s.tracker, ToTracker(s, i.resetn)),
          B.Step(s.book, ToBook(s, i.resetn)),
          F.Step(s.features, ToFeatures(s, i.resetn)),
          if i.resetn then s.fed + [s.features.feature] else [])
  }

  function Output(c: Config, s: State): Decision { OutputOf(c.weights, s.fed) }

  function Signals(c: Config, s: State): seq<Decision> {
    if Output(c, s).valid then [Output(c, s)] else []
  }

  // ---------------------------------------------------------------- Flushing the pipeline

  /** What the packets accepted so far amount to: the market they leave behind, and the
      decisions that have not come out yet, by the age of their packet in edges. */
  datatype Line = Line(
    market: Market,
    age0: seq<Decision>, age1: seq<Decision>, age2: seq<Decision>, age3: seq<Decision>,
    age4: seq<Decision>, age5: seq<Decision>, age6: seq<Decision>)

  // Each stage, from the book outwards to the filter, is emptied by completing the
  // packet that its registers hold.

  function FlushBook(w: Weights, m: Market, o: B.Snapshot): (r: (Market, seq<Decision>))
    requires m.WellFormed() && (o.updateValid ==> o.slot < 5)
    ensures r.0.WellFormed()
  {
    if o.updateValid then OnBook(w, m, o.slot, o.timestamp) else (m, [])
  }

  function FlushTracker(w: Weights, m: Market, o: T.TrackerOutput): (r: (Market, seq<Decision>))
    requires m.WellFormed() && (o.valid ==> o.quote.slot < 5)
    ensures r.0.WellFormed()
  {
    if o.valid then OnTracked(w, m, o.quote) else (m, [])
  }

  function FlushFilter(w: Weights, m: Market, f: P.FilterState): (r: (Market, seq<Decision>))
    requires m.WellFormed() && (f.quoteValid ==> f.quote.slot < 5)
    ensures r.0.WellFormed()
  {
    if f.startPulse then (OPENED, [])
    else if f.endPulse then (m.(baseline := m.baseline.(initialized := false)), [])
    else if f.quoteValid then OnQuote(w, m, f.quote)
    else (m, [])
  }

  /** The decision on the sample that the newest edge of the feature engine took. */
  function AtStage1(w: Weights, m: F.Model): seq<Decision>
    requires m.WellFormed()
  {
    var x := m.stage1;
    if x.valid then [Scored(w, F.Feature(true, x.slot, x.timestamp, F.Trend(m.hist[x.slot]), x.imbalance, x.spread))]
    else []
  }

  function AtFeature(w: Weights, f: F.Feature): seq<Decision> {
    if f.valid then [Scored(w, f)] else []
  }

  /** The decision on the feature set that the decision pipeline sampled `back` edges ago. */
  function AtDecision(w: Weights, fed: seq<F.Feature>, back: nat): seq<Decision>
    requires back > 0
  {
    if |fed| < back then [] else AtFeature(w, fed[|fed| - back])
  }

  /** The snapshot is that of the book as it is now. */
  predicate Current(s: B.BookState)
    requires s.WellFormed()
  {
    var o := s.output;
    o.updateValid ==>
      && o.slot < 5
      && var b := s.books[o.slot];
         o.bid == B.Shown(b.bid) && o.ask == B.Shown(b.ask) && o.valid == b.Complete() && o.crossed == b.Crossed()
  }

  /** The control pulses agree with the stream state and meet an empty pipeline as far
      as they would cancel what it holds. */
  predicate Controlled(s: State) {
    && (s.filter.startPulse ==> s.filter.active && !s.filter.quoteValid)
    && (s.filter.endPulse ==> !s.filter.startPulse && !s.filter.quoteValid)
    && (s.filter.startPulse || s.filter.endPulse ==>
          !s.tracker.output.valid && !s.book.output.updateValid && !s.features.stage1.valid)
  }

  predicate Sane(s: State) {
    && s.WellFormed()
    && (s.filter.quoteValid ==> s.filter.quote.slot < 5)
    && (s.tracker.output.valid ==> s.tracker.output.quote.slot < 5)
    && Current(s.book)
    && Controlled(s)
  }

  /** The market in the registers, before anything is flushed. */
  function Registers(s: State): (m: Market)
    requires s.WellFormed()
    ensures m.WellFormed()
  {
    Market(s.filter.active, s.tracker.baseline, s.book.books, s.features.hist)
  }

  function BookFlushed(w: Weights, s: State): (r: (Market, seq<Decision>))
    requires Sane(s)
    ensures r.0.WellFormed()
  {
    FlushBook(w, Registers(s), s.book.output)
  }

  function TrackerFlushed(w: Weights, s: State): (r: (Market, seq<Decision>))
    requires Sane(s)
    ensures r.0.WellFormed()
  {
    FlushTracker(w, BookFlushed(w, s).0, s.tracker.output)
  }

  function FilterFlushed(w: Weights, s: State): (r: (Market, seq<Decision>))
    requires Sane(s)
    ensures r.0.WellFormed()
  {
    FlushFilter(w, TrackerFlushed(w, s).0, s.filter)
  }

  function Flush(w: Weights, s: State): (x: Line)
    requires Sane(s)
    ensures x.market.WellFormed()
  {
    Line(FilterFlushed(w, s).0, FilterFlushed(w, s).1, TrackerFlushed(w, s).1, BookFlushed(w, s).1,
         AtStage1(w, s.features), AtFeature(w, s.features.feature),
         AtDecision(w, s.fed, 1), AtDecision(w, s.fed, 2))
  }

  /** One edge on the flushed view: a good packet is handled at once, and everything
      that waits grows older. */
  function OnEdge(c: Config, x: Line, i: P.FilterInput): (y: Line)
    requires x.market.WellFormed()
    ensures y.market.WellFormed()
  {
    var (m, d) := if i.Good() then OnPacket(c, x.market, i.fields) else (x.market, []);
    Line(m, d, x.age0, x.age1, x.age2, x.age3, x.age4, x.age5)
  }

  /** The input is a good STREAM_START or STREAM_END. */
  predicate IsControl(i: P.FilterInput) {
    i.Good() && (i.fields.messageType == STREAM_START || i.fields.messageType == STREAM_END)
  }

  predicate IsQuote(i: P.FilterInput) { i.Good() && i.fields.messageType == QUOTE_UPDATE }

  /** No stage holds a quote younger than `n` edges. */
  predicate Young(s: State, n: nat) {
    && (s.filter.quoteValid ==> n == 0)
    && (s.tracker.output.valid ==> n <= 1)
    && (s.book.output.updateValid ==> n <= 2)
    && (s.features.stage1.valid ==> n <= 3)
  }
}

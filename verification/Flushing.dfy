/** The pipeline of the trading engine, flushed: an edge of the five clocked modules is
    an edge of the one-packet-at-a-time specification, with up to seven packets in
    flight at once. */
module Flushing {
  import opened WeightedDecision
  import opened TradingEngine
  import F = FeatureEngine
  import P = PacketFilter
  import T = SequenceTracker
  import B = InstrumentBook

  // ---------------------------------------------------------------- One stage at a time

  /** What the feature engine takes in is what flushing the book would sample. */
  lemma FeatureStage(w: Weights, m: Market, s: State)
    requires Sane(s) && m.WellFormed() && m.hist == s.features.hist && m.books == s.book.books
    requires !s.filter.startPulse && !s.filter.endPulse
    ensures var f := F.Step(s.features, ToFeatures(s, true));
            FlushBook(w, m, s.book.output) == (m.(hist := f.hist), AtStage1(w, f))
            && AtFeature(w, f.feature) == AtStage1(w, s.features)
  {
    var o := s.book.output;
    if o.updateValid {
      var b := m.books[o.slot];
    }
  }

  /** What the book takes in is what flushing the tracker would quote. */
  lemma BookStage(w: Weights, m: Market, s: State)
    requires Sane(s) && m.WellFormed() && m.books == s.book.books
    requires !s.filter.startPulse && !s.filter.endPulse
    ensures var b := B.Step(s.book, ToBook(s, true));
            && Current(b)
            && (b.output.updateValid ==> s.tracker.output.valid)
            && FlushTracker(w, m, s.tracker.output) == FlushBook(w, m.(books := b.books), b.output)
  {
  }

  /** What the tracker takes in is what flushing the filter would track. */
  lemma TrackerStage(w: Weights, m: Market, s: State)
    requires Sane(s) && m.WellFormed() && m.baseline == s.tracker.baseline
    requires !s.filter.startPulse && !s.filter.endPulse
    ensures var t := T.Step(s.tracker, ToTracker(s, true));
            && (t.output.valid ==> s.filter.quoteValid && t.output.quote.slot < 5)
            && FlushFilter(w, m, s.filter) == FlushTracker(w, m.(baseline := t.baseline), t.output)
  {
  }

  /** What the filter takes in is the next packet. */
  lemma FilterStage(c: Config, m: Market, f: P.FilterState, i: P.FilterInput)
    requires m.WellFormed() && m.active == f.active && i.resetn
    ensures var g := P.Step(c.ids, f, i);
            && (g.quoteValid ==> g.quote.slot < 5 && IsQuote(i))
            && (g.startPulse || g.endPulse ==> IsControl(i))
            && FlushFilter(c.weights, m.(active := g.active), g)
            == if i.Good() then OnPacket(c, m, i.fields) else (m, [])
  {
  }

  /** The decision pipeline shifts by one, and its oldest entry comes out. */
  lemma DecisionStage(w: Weights, fed: seq<F.Feature>, f: F.Feature)
    ensures var next := fed + [f];
            && AtDecision(w, next, 1) == AtFeature(w, f)
            && AtDecision(w, next, 2) == AtDecision(w, fed, 1)
            && (if OutputOf(w, next).valid then [OutputOf(w, next)] else []) == AtDecision(w, fed, 2)
  {
  }

  // Later stages neither read nor write what earlier stages keep.

  lemma BookKeeps(w: Weights, m: Market, active: bool, baseline: T.Baseline, o: B.Snapshot)
    requires m.WellFormed() && (o.updateValid ==> o.slot < 5)
    ensures var (n, d) := FlushBook(w, m, o);
            && n.active == m.active && n.baseline == m.baseline && n.books == m.books
            && FlushBook(w, m.(active := active, baseline := baseline), o)
            == (n.(active := active, baseline := baseline), d)
  {
  }

  lemma TrackerKeeps(w: Weights, m: Market, active: bool, o: T.TrackerOutput)
    requires m.WellFormed() && (o.valid ==> o.quote.slot < 5)
    ensures var (n, d) := FlushTracker(w, m, o);
            && n.active == m.active && n.baseline == m.baseline
            && FlushTracker(w, m.(active := active), o) == (n.(active := active), d)
  {
  }

  lemma FilterKeeps(w: Weights, m: Market, f: P.FilterState)
    requires m.WellFormed() && (f.quoteValid ==> f.quote.slot < 5) && (f.startPulse ==> m.active)
    ensures var (n, d) := FlushFilter(w, m, f);
            n.active == m.active
  {
  }

  // ---------------------------------------------------------------- One edge

  /** The registers stay sane, and quotes grow older. */
  lemma StaysSane(c: Config, s: State, i: P.FilterInput, n: nat)
    requires Sane(s) && Young(s, n) && i.resetn && (IsControl(i) ==> n >= 3)
    ensures Sane(Clock(c, s, i)) && Young(Clock(c, s, i), if IsQuote(i) then 0 else n + 1)
  {
    var m := Market(s.filter.active, s.tracker.baseline, s.book.books, s.features.hist);
    FilterStage(c, m, s.filter, i);
    if !s.filter.startPulse && !s.filter.endPulse {
      FeatureStage(c.weights, m, s);
      BookStage(c.weights, m, s);
      TrackerStage(c.weights, m, s);
    }
  }

  // An edge without a control pulse: every stage hands on what it holds.

  lemma BookMoves(c: Config, s: State, i: P.FilterInput)
    requires Sane(s) && i.resetn && !s.filter.startPulse && !s.filter.endPulse
    ensures var w, r := c.weights, Clock(c, s, i);
            && BookFlushed(w, s) == (Registers(s).(hist := r.features.hist), AtStage1(w, r.features))
            && AtFeature(w, r.features.feature) == AtStage1(w, s.features)
  {
    FeatureStage(c.weights, Registers(s), s);
  }

  lemma TrackerMoves(c: Config, s: State, i: P.FilterInput)
    requires Sane(s) && i.resetn && !s.filter.startPulse && !s.filter.endPulse
    requires Sane(Clock(c, s, i))
    ensures var w, r := c.weights, Clock(c, s, i);
            var (m, d) := TrackerFlushed(w, s);
            && BookFlushed(w, r) == (m.(active := r.filter.active, baseline := r.tracker.baseline), d)
            && m.active == s.filter.active && m.baseline == s.tracker.baseline
  {
    var w, r := c.weights, Clock(c, s, i);
    var m := BookFlushed(w, s).0;
    BookMoves(c, s, i);
    BookStage(w, m, s);
    TrackerKeeps(w, m, m.active, s.tracker.output);
    BookKeeps(w, m.(books := r.book.books), r.filter.active, r.tracker.baseline, r.book.output);
    assert Registers(r) == m.(books := r.book.books).(active := r.filter.active, baseline := r.tracker.baseline);
  }

  lemma FilterMoves(c: Config, s: State, i: P.FilterInput)
    requires Sane(s) && i.resetn && !s.filter.startPulse && !s.filter.endPulse
    requires Sane(Clock(c, s, i))
    ensures var w, r := c.weights, Clock(c, s, i);
            var (m, d) := FilterFlushed(w, s);
            && TrackerFlushed(w, r) == (m.(active := r.filter.active), d)
            && m.active == s.filter.active
  {
    var w, r := c.weights, Clock(c, s, i);
    var m := TrackerFlushed(w, s).0;
    TrackerMoves(c, s, i);
    TrackerStage(w, m, s);
    FilterKeeps(w, m, s.filter);
    TrackerKeeps(w, m.(baseline := r.tracker.baseline), r.filter.active, r.tracker.output);
  }

  lemma QuietEdge(c: Config, s: State, i: P.FilterInput)
    requires Sane(s) && i.resetn && !s.filter.startPulse && !s.filter.endPulse
    requires Sane(Clock(c, s, i))
    ensures var r, x := Flush(c.weights, Clock(c, s, i)), OnEdge(c, Flush(c.weights, s), i);
            && r.market == x.market && r.age0 == x.age0
            && r.age1 == x.age1 && r.age2 == x.age2 && r.age3 == x.age3 && r.age4 == x.age4
  {
    BookMoves(c, s, i);
    TrackerMoves(c, s, i);
    FilterMoves(c, s, i);
    FilterStage(c, FilterFlushed(c.weights, s).0, s.filter, i);
  }

  /** An edge on which a control pulse is high: it clears what the flushed view cleared
      one edge before. */
  lemma PulseEdge(c: Config, s: State, i: P.FilterInput)
    requires Sane(s) && i.resetn && (s.filter.startPulse || s.filter.endPulse)
    requires Sane(Clock(c, s, i))
    ensures var r, x := Flush(c.weights, Clock(c, s, i)), OnEdge(c, Flush(c.weights, s), i);
            && r.market == x.market && r.age0 == x.age0
            && r.age1 == x.age1 && r.age2 == x.age2 && r.age3 == x.age3 && r.age4 == x.age4
  {
    var m := Flush(c.weights, s).market;
    FilterStage(c, m, s.filter, i);
  }

  /** The pipeline theorem.  On every edge with room around control packets, the
      flushed view of the registers makes the edge of the specification, and what is
      signalled is the decision that has grown seven edges old. */
  lemma FlushedEdge(c: Config, s: State, i: P.FilterInput, n: nat)
    requires Sane(s) && Young(s, n) && i.resetn && (IsControl(i) ==> n >= 3)
    ensures Sane(Clock(c, s, i)) && Young(Clock(c, s, i), if IsQuote(i) then 0 else n + 1)
    ensures Flush(c.weights, Clock(c, s, i)) == OnEdge(c, Flush(c.weights, s), i)
    ensures Signals(c, Clock(c, s, i)) == Flush(c.weights, s).age6
  {
    StaysSane(c, s, i, n);
    DecisionStage(c.weights, s.fed, s.features.feature);
    if s.filter.startPulse || s.filter.endPulse {
      PulseEdge(c, s, i);
    } else {
      QuietEdge(c, s, i);
    }
  }

  /** Room is needed.  A control packet that follows a quote by three edges cancels the
      decision on it: two edges on, that decision is due in the output registers of the
      feature engine, and they are empty. */
  lemma LateControlCancels(c: Config, s: State, control: P.FilterInput, next: P.FilterInput)
    requires Sane(s) && !s.filter.startPulse && !s.filter.endPulse
    requires Flush(c.weights, s).age2 != []
    requires control.resetn && IsControl(control) && next.resetn
    ensures AtFeature(c.weights, Clock(c, Clock(c, s, control), next).features.feature) == []
    ensures OnEdge(c, OnEdge(c, Flush(c.weights, s), control), next).age4 != []
  {
  }
}

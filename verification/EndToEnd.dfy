/** From packets to trading decisions: the clocked engine takes exactly the decisions of
    the one-packet-at-a-time specification, each of them eight edges after its packet,
    whatever the distance between quotes. */
module EndToEnd {
  import opened Words
  import opened Windows
  import opened Hft1
  import opened Quotes
  import opened WeightedDecision
  import opened TradingEngine
  import opened Flushing
  import F = FeatureEngine
  import P = PacketFilter
  import T = SequenceTracker
  import B = InstrumentBook

  // ---------------------------------------------------------------- Traces

  /** Edges since reset; reset itself is not part of the trace. */
  type Edges = seq<P.FilterInput>

  const RESET_EDGE: P.FilterInput := P.FilterInput(false, false, false, P.NO_FIELDS)

  predicate OutOfReset(t: Edges) { forall k :: 0 <= k < |t| ==> t[k].resetn }

  /** Edges since the last good quote, counting from seven when there was none. */
  function Since(t: Edges): nat {
    if t == [] then 7 else if IsQuote(t[|t| - 1]) then 0 else Since(t[..|t| - 1]) + 1
  }

  /** Good START and END packets follow a quote by at least four edges.  Quotes may
      follow each other, and control packets, on consecutive edges. */
  predicate Roomy(t: Edges) {
    t == [] || (Roomy(t[..|t| - 1]) && (IsControl(t[|t| - 1]) ==> Since(t[..|t| - 1]) >= 3))
  }

  /** The good packets of a trace, in order. */
  function Packets(t: Edges): seq<Fields> {
    if t == [] then []
    else if t[|t| - 1].Good() then Packets(t[..|t| - 1]) + [t[|t| - 1].fields]
    else Packets(t[..|t| - 1])
  }

  /** The trace up to `k` edges ago. */
  function Before(t: Edges, k: nat): Edges { if k <= |t| then t[..|t| - k] else [] }

  /** The registers after a trace that follows a reset of any state. */
  function After(c: Config, power: State, t: Edges): (s: State)
    requires OutOfReset(t)
    ensures s.WellFormed()
  {
    if t == [] then Clock(c, power, RESET_EDGE)
    else Clock(c, After(c, power, t[..|t| - 1]), t[|t| - 1])
  }

  /** Every decision that `signal_valid` announced during the trace, in order. */
  function Signalled(c: Config, power: State, t: Edges): seq<Decision>
    requires OutOfReset(t)
  {
    if t == [] then [] else Signalled(c, power, t[..|t| - 1]) + Signals(c, After(c, power, t))
  }

  // ---------------------------------------------------------------- The flushed trace

  const EMPTY_LINE: Line := Line(CLOSED, [], [], [], [], [], [], [])

  /** The flushed view of a trace, by the specification alone. */
  function Flushed(c: Config, t: Edges): (x: Line)
    ensures x.market.WellFormed()
  {
    if t == [] then EMPTY_LINE else OnEdge(c, Flushed(c, t[..|t| - 1]), t[|t| - 1])
  }

  /** What has come out of the flushed view. */
  function Out(c: Config, t: Edges): seq<Decision> {
    if t == [] then [] else Out(c, t[..|t| - 1]) + Flushed(c, t[..|t| - 1]).age6
  }

  lemma ResetIsEmpty(c: Config, power: State)
    ensures var s := Clock(c, power, RESET_EDGE);
            Sane(s) && Young(s, 7) && Flush(c.weights, s) == EMPTY_LINE
  {
  }

  /** The clocked engine follows the specification, edge by edge. */
  lemma {:induction false} EngineFollows(c: Config, power: State, t: Edges)
    requires OutOfReset(t) && Roomy(t)
    ensures var s := After(c, power, t);
            Sane(s) && Young(s, Since(t)) && Flush(c.weights, s) == Flushed(c, t)
    ensures Signalled(c, power, t) == Out(c, t)
  {
    if t == [] {
      ResetIsEmpty(c, power);
    } else {
      var b := t[..|t| - 1];
      EngineFollows(c, power, b);
      FlushedEdge(c, After(c, power, b), t[|t| - 1], Since(b));
    }
  }

  lemma {:induction false} FlushedMarket(c: Config, t: Edges)
    ensures Flushed(c, t).market == MarketAfter(c, Packets(t))
  {
    if t != [] {
      var b := t[..|t| - 1];
      FlushedMarket(c, b);
      if t[|t| - 1].Good() {
        assert Packets(t)[..|Packets(t)| - 1] == Packets(b);
      }
    }
  }

  /** The decisions on the packets of a trace that are at least `k` edges old. */
  function Settled(c: Config, t: Edges, k: nat): seq<Decision> { Decisions(c, Packets(Before(t, k))) }

  /** What the flushed view still holds of the packet of `k` edges ago. */
  function Waiting(c: Config, t: Edges, k: nat): seq<Decision>
    requires k < 7
  {
    var x := Flushed(c, t);
    match k
    case 0 => x.age0
    case 1 => x.age1
    case 2 => x.age2
    case 3 => x.age3
    case 4 => x.age4
    case 5 => x.age5
    case 6 => x.age6
  }

  lemma Later(c: Config, t: Edges, k: nat)
    requires t != []
    ensures Settled(c, t, k + 1) == Settled(c, t[..|t| - 1], k)
  {
    assert Before(t, k + 1) == Before(t[..|t| - 1], k);
  }

  lemma Newest(c: Config, t: Edges)
    requires t != []
    ensures Settled(c, t, 0) == Settled(c, t, 1) + Waiting(c, t, 0)
  {
    var b, i := t[..|t| - 1], t[|t| - 1];
    assert Before(t, 0) == t && Before(t, 1) == b;
    FlushedMarket(c, b);
    if i.Good() {
      DecisionsPush(c, Packets(b), i.fields);
    }
  }

  lemma WaitingShifts(c: Config, t: Edges, k: nat)
    requires t != [] && 0 < k < 7
    ensures Waiting(c, t, k) == Waiting(c, t[..|t| - 1], k - 1)
  {
  }

  /** Each age holds the decision on the packet of that age. */
  lemma {:induction false} WaitingIsDue(c: Config, t: Edges, k: nat)
    requires k < 7
    ensures Settled(c, t, k) == Settled(c, t, k + 1) + Waiting(c, t, k)
    decreases |t|
  {
    if t == [] {
      assert Before(t, k) == Before(t, k + 1) == [];
    } else if k == 0 {
      Newest(c, t);
    } else {
      WaitingIsDue(c, t[..|t| - 1], k - 1);
      WaitingShifts(c, t, k);
      Later(c, t, k - 1);
      Later(c, t, k);
    }
  }

  /** What has come out is what is seven edges old. */
  lemma {:induction false} OutIsSettled(c: Config, t: Edges)
    ensures Out(c, t) == Settled(c, t, 7)
  {
    if t != [] {
      OutIsSettled(c, t[..|t| - 1]);
      WaitingIsDue(c, t[..|t| - 1], 6);
      Later(c, t, 6);
    }
  }

  /** End to end.  Reset in any state, then any trace of edges on which control packets
      have room: at every moment the decisions signalled so far are exactly those of the
      packets that are at least seven edges old, in order.  So every decision appears
      on the eighth edge counted from its packet, none is lost, and none is made up. */
  lemma DecisionsExact(c: Config, power: State, t: Edges)
    requires OutOfReset(t) && Roomy(t)
    ensures Signalled(c, power, t) == Decisions(c, Packets(Before(t, 7)))
  {
    EngineFollows(c, power, t);
    OutIsSettled(c, t);
  }

  /** Nothing but idle edges and failed packets for the last `n` edges. */
  predicate Quiet(t: Edges, n: nat) {
    n == 0 || t == [] || (!t[|t| - 1].Good() && Quiet(t[..|t| - 1], n - 1))
  }

  lemma QuietStages(c: Config, power: State, t: Edges)
    requires OutOfReset(t)
    ensures var s := After(c, power, t);
            && (Quiet(t, 1) ==> !s.filter.startPulse && !s.filter.endPulse && !s.filter.quoteValid)
            && (Quiet(t, 2) ==> !s.tracker.output.valid)
            && (Quiet(t, 3) ==> !s.book.output.updateValid)
    decreases |t|
  {
    if t != [] {
      QuietStages(c, power, t[..|t| - 1]);
    }
  }

  /** After three quiet edges the registers hold exactly the market that all packets
      leave behind, however closely they followed each other. */
  lemma MarketHeld(c: Config, power: State, t: Edges)
    requires OutOfReset(t) && Roomy(t) && Quiet(t, 3)
    ensures Registers(After(c, power, t)) == MarketAfter(c, Packets(t))
  {
    EngineFollows(c, power, t);
    FlushedMarket(c, t);
    QuietStages(c, power, t);
    assert Quiet(t, 2) && Quiet(t, 1);
  }

  // ---------------------------------------------------------------- Streams

  /** `x` leaves the same market as `y` and takes the decisions of `y` after `past`. */
  predicate Continues(c: Config, past: seq<Decision>, x: seq<Fields>, y: seq<Fields>) {
    MarketAfter(c, x) == MarketAfter(c, y) && Decisions(c, x) == past + Decisions(c, y)
  }

  lemma ContinuesPush(c: Config, past: seq<Decision>, x: seq<Fields>, y: seq<Fields>, f: Fields)
    requires Continues(c, past, x, y)
    ensures Continues(c, past, x + [f], y + [f])
  {
    DecisionsPush(c, x, f);
    DecisionsPush(c, y, f);
  }

  /** A STREAM_START cuts the past off: what follows it is decided, and leaves the same
      market, as in an engine that has seen nothing before. */
  lemma {:induction false} StreamsIndependent(c: Config, a: seq<Fields>, start: Fields, b: seq<Fields>)
    requires start.messageType == STREAM_START
    ensures Continues(c, Decisions(c, a), a + [start] + b, [start] + b)
  {
    if b == [] {
      StreamBegins(c, a, start);
      assert a + [start] + b == a + [start] && [start] + b == [start];
    } else {
      var d, f := b[..|b| - 1], b[|b| - 1];
      StreamsIndependent(c, a, start, d);
      StreamGrows(c, Decisions(c, a), a, start, d, f);
      assert b == d + [f];
    }
  }

  lemma StreamGrows(c: Config, past: seq<Decision>, a: seq<Fields>, start: Fields, d: seq<Fields>, f: Fields)
    requires Continues(c, past, a + [start] + d, [start] + d)
    ensures Continues(c, past, a + [start] + (d + [f]), [start] + (d + [f]))
  {
    ContinuesPush(c, past, a + [start] + d, [start] + d, f);
    assert a + [start] + (d + [f]) == a + [start] + d + [f];
    assert [start] + (d + [f]) == [start] + d + [f];
  }

  lemma StreamBegins(c: Config, a: seq<Fields>, start: Fields)
    requires start.messageType == STREAM_START
    ensures Continues(c, Decisions(c, a), a + [start], [start])
  {
    DecisionsPush(c, a, start);
    DecisionsPush(c, [], start);
    assert [start] == [] + [start];
  }

  lemma DecisionsPush(c: Config, packets: seq<Fields>, f: Fields)
    ensures MarketAfter(c, packets + [f]) == OnPacket(c, MarketAfter(c, packets), f).0
    ensures Decisions(c, packets + [f]) == Decisions(c, packets) + OnPacket(c, MarketAfter(c, packets), f).1
  {
    assert (packets + [f])[..|packets|] == packets;
  }

  /** The markets differ at most in how often the tracker has rejected a quote. */
  predicate Alike(m: Market, n: Market) {
    m.(baseline := m.baseline.(duplicates := 0, outOfOrder := 0))
    == n.(baseline := n.baseline.(duplicates := 0, outOfOrder := 0))
  }

  /** The packet is a quote that the tracker rejects. */
  predicate Rejected(c: Config, m: Market, f: Fields) {
    && f.messageType == QUOTE_UPDATE && m.active && P.Lookup(c.ids, f.instrumentId).Some?
    && !T.Judge(m.baseline, f.sequence).Forwarded()
  }

  /** The packets without the quotes that the tracker rejects on the way. */
  function Cleaned(c: Config, packets: seq<Fields>): seq<Fields> {
    if packets == [] then [] else
      var n := |packets| - 1;
      Cleaned(c, packets[..n])
      + if Rejected(c, MarketAfter(c, packets[..n]), packets[n]) then [] else [packets[n]]
  }

  lemma AlikeTracked(w: Weights, m: Market, n: Market, q: Quote)
    requires m.WellFormed() && n.WellFormed() && q.slot < 5 && Alike(m, n)
    ensures Alike(OnTracked(w, m, q).0, OnTracked(w, n, q).0) && OnTracked(w, m, q).1 == OnTracked(w, n, q).1
  {
  }

  lemma AlikeQuote(w: Weights, m: Market, n: Market, q: Quote)
    requires m.WellFormed() && n.WellFormed() && q.slot < 5 && Alike(m, n)
    ensures Alike(OnQuote(w, m, q).0, OnQuote(w, n, q).0) && OnQuote(w, m, q).1 == OnQuote(w, n, q).1
    ensures !T.Judge(m.baseline, q.sequence).Forwarded() ==> Alike(OnQuote(w, m, q).0, n) && OnQuote(w, m, q).1 == []
  {
    assert T.Judge(m.baseline, q.sequence) == T.Judge(n.baseline, q.sequence);
    AlikeTracked(w, m.(baseline := T.Track(m.baseline, q.sequence)), n.(baseline := T.Track(n.baseline, q.sequence)), q);
  }

  lemma AlikePacket(c: Config, m: Market, n: Market, f: Fields)
    requires m.WellFormed() && n.WellFormed() && Alike(m, n)
    ensures Alike(OnPacket(c, m, f).0, OnPacket(c, n, f).0) && OnPacket(c, m, f).1 == OnPacket(c, n, f).1
    ensures Rejected(c, m, f) ==> Alike(OnPacket(c, m, f).0, n) && OnPacket(c, m, f).1 == []
  {
    var slot := P.Lookup(c.ids, f.instrumentId);
    if slot.Some? {
      AlikeQuote(c.weights, m, n, P.QuoteOf(slot.value, f));
    }
  }

  /** `y` trades like `x`. */
  predicate TradesLike(c: Config, x: seq<Fields>, y: seq<Fields>) {
    Alike(MarketAfter(c, x), MarketAfter(c, y)) && Decisions(c, x) == Decisions(c, y)
  }

  lemma TradesLikePush(c: Config, x: seq<Fields>, y: seq<Fields>, f: Fields)
    requires TradesLike(c, x, y)
    ensures TradesLike(c, x + [f], y + [f])
    ensures Rejected(c, MarketAfter(c, x), f) ==> TradesLike(c, x + [f], y)
  {
    DecisionsPush(c, x, f);
    DecisionsPush(c, y, f);
    AlikePacket(c, MarketAfter(c, x), MarketAfter(c, y), f);
  }

  /** Duplicates and late quotes do not trade: for every list of packets the decisions
      are those of the list without the quotes that the tracker rejects. */
  lemma {:induction false} RejectedQuotesAreInert(c: Config, packets: seq<Fields>)
    ensures TradesLike(c, packets, Cleaned(c, packets))
  {
    if packets != [] {
      var n := |packets| - 1;
      var b, f := packets[..n], packets[n];
      RejectedQuotesAreInert(c, b);
      TradesLikePush(c, b, Cleaned(c, b), f);
      assert packets == b + [f];
      assert Cleaned(c, b) + [] == Cleaned(c, b);
    }
  }

  /** A quote (type 1) that the tracker forwards, with side 0 or 1, which leaves a complete
      book whose ask is not below its bid, and at least 32 samples. */
  predicate Tradable(c: Config, m: Market, f: Fields, slot: uint3)
    requires m.WellFormed() && slot < 5
  {
    var n := OnPacket(c, m, f).0;
    var bid, ask := n.books[slot].bid, n.books[slot].ask;
    && f.messageType == 1 && m.active && f.side <= 1
    && T.Judge(m.baseline, f.sequence).Forwarded()
    && bid.Some? && ask.Some? && ask.value.price >= bid.value.price
    && |n.hist[slot]| >= 32
  }

  /** The average of the last 8 midpoints less that of the last 32, each rounded down. */
  function AverageDifference(h: seq<uint33>): int { Sum(LastN(h, 8)) / 8 - Sum(LastN(h, 32)) / 32 }

  /** The decision that the trading rule takes on two scores. */
  predicate Takes(d: Decision, slot: uint3, timestamp: uint64, direction: int, required: int) {
    && d.valid && d.slot == slot && d.timestamp == timestamp
    && d.direction == direction && d.required == required
    && (d.signal == BUY <==> direction > required)
    && (d.signal == SELL <==> direction < -required)
    && (d.signal == HOLD <==> -required <= direction <= required)
  }

  /** The trading rule of the whole engine, in unbounded integers and with the weights
      of the design.  A packet causes a decision exactly when it is a tradable quote of
      a known instrument; no register width changes its scores or its signal. */
  lemma DecisionRule(ids: P.InstrumentIds, m: Market, f: Fields)
    requires m.WellFormed()
    ensures var c := Config(ids, DEFAULT_WEIGHTS);
            var (n, out) := OnPacket(c, m, f);
            match P.Lookup(ids, f.instrumentId)
            case None => out == []
            case Some(slot) =>
              && (out != [] <==> Tradable(c, m, f, slot))
              && (out != [] ==>
                    var bid, ask := n.books[slot].bid.value, n.books[slot].ask.value;
                    var direction := 4 * AverageDifference(n.hist[slot]) + (bid.quantity - ask.quantity);
                    var required := 100 + 2 * (ask.price - bid.price);
                    && n.hist[slot] == m.hist[slot] + [bid.price + ask.price]
                    && |out| == 1 && Takes(out[0], slot, f.timestamp, direction, required))
  {
    var c := Config(ids, DEFAULT_WEIGHTS);
    var (n, out) := OnPacket(c, m, f);
    var slot := P.Lookup(ids, f.instrumentId);
    if slot.Some? && out != [] {
      var x := FeatureFor(slot.value, f.timestamp, n.books[slot.value], n.hist[slot.value]);
      DefaultDecision(x);
      SignalMeans(DEFAULT_WEIGHTS, x);
    }
  }
}

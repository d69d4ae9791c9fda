/** What the engine remembers, as a function of the list of packets alone: whether a
    stream is active, the latest bid and ask of every instrument, and the midpoints that
    have been sampled. */
module MarketOfPackets {
  import opened Words
  import opened Hft1
  import opened Quotes
  import opened WeightedDecision
  import opened TradingEngine
  import opened EndToEnd
  import F = FeatureEngine
  import P = PacketFilter
  import T = SequenceTracker
  import B = InstrumentBook

  type FieldList = seq<Fields>

  /** The last control packet was a START (type 4), not an END (type 5). */
  predicate StreamOpen(ps: FieldList) {
    exists s :: 0 <= s < |ps| && OpensAt(ps, s)
  }

  predicate OpensAt(ps: FieldList, s: nat) {
    s < |ps| && ps[s].messageType == 4 && forall k :: s < k < |ps| ==> ps[k].messageType != 4 && ps[k].messageType != 5
  }

  /** Slot k is the first that is configured for the instrument. */
  predicate SlotFor(ids: P.InstrumentIds, id: uint32, k: nat) {
    k < 5 && ids[k] == id && forall j :: 0 <= j < k ==> ids[j] != id
  }

  /** The quotes (type 1) of configured instruments that came in the current stream, or
      in the last one if none is open. */
  function StreamQuotes(ids: P.InstrumentIds, ps: FieldList): FieldList {
    if ps == [] then [] else
      var b, f := ps[..|ps| - 1], ps[|ps| - 1];
      if f.messageType == 4 then []
      else if f.messageType == 1 && StreamOpen(b) && f.instrumentId in ids then StreamQuotes(ids, b) + [f]
      else StreamQuotes(ids, b)
  }

  function SequencesOf(q: FieldList): (r: seq<uint32>)
    ensures |r| == |q|
  {
    seq(|q|, i requires 0 <= i < |q| => q[i].sequence)
  }

  /** The sequence tracker forwards the last of these quotes. */
  predicate LastForwarded(q: FieldList)
    requires q != []
  {
    T.Forwarded(SequencesOf(q)) != T.Forwarded(SequencesOf(q[..|q| - 1]))
  }

  /** The latest forwarded quote of slot `k` on one side: its price and quantity. */
  function LatestLevel(ids: P.InstrumentIds, q: FieldList, k: nat, side: byte): Option<B.Level> {
    if q == [] then None else
      var b, f := q[..|q| - 1], q[|q| - 1];
      if LastForwarded(q) && SlotFor(ids, f.instrumentId, k) && f.side == side
      then Some(B.Level(f.priceTicks, f.quantity))
      else LatestLevel(ids, b, k, side)
  }

  /** The midpoints of slot `k`: one for each of its forwarded quotes with side 0 or 1
      after which both sides are known and the ask is not below the bid. */
  function Samples(ids: P.InstrumentIds, q: FieldList, k: nat): seq<uint33> {
    if q == [] then [] else
      var b, f := q[..|q| - 1], q[|q| - 1];
      var bid, ask := LatestLevel(ids, q, k, 0), LatestLevel(ids, q, k, 1);
      if && LastForwarded(q) && SlotFor(ids, f.instrumentId, k) && f.side <= 1
         && bid.Some? && ask.Some? && ask.value.price >= bid.value.price
      then Samples(ids, b, k) + [bid.value.price + ask.value.price]
      else Samples(ids, b, k)
  }

  // ---------------------------------------------------------------- One more packet

  lemma OpenPush(ps: FieldList)
    requires ps != []
    ensures var n := |ps| - 1;
            StreamOpen(ps) <==> ps[n].messageType == 4 || (ps[n].messageType != 5 && StreamOpen(ps[..n]))
  {
    var n := |ps| - 1;
    forall s: nat | s < n
      ensures OpensAt(ps, s) <==> OpensAt(ps[..n], s) && ps[n].messageType != 4 && ps[n].messageType != 5
    {
      assert forall k :: 0 <= k < n ==> ps[..n][k] == ps[k];
    }
    if ps[n].messageType == 4 {
      assert OpensAt(ps, n);
    }
    if StreamOpen(ps) {
      var s :| 0 <= s < |ps| && OpensAt(ps, s);
      assert s < n ==> OpensAt(ps[..n], s);
    }
    if StreamOpen(ps[..n]) && ps[n].messageType != 4 && ps[n].messageType != 5 {
      var s :| 0 <= s < n && OpensAt(ps[..n], s);
      assert OpensAt(ps, s);
    }
  }

  lemma LookupIs(ids: P.InstrumentIds, id: uint32)
    ensures P.Lookup(ids, id).Some? <==> id in ids
    ensures forall k: nat :: SlotFor(ids, id, k) <==> P.Lookup(ids, id) == Some(k)
  {
  }

  lemma ForwardedMeans(q: FieldList)
    requires q != []
    ensures LastForwarded(q)
       <==> T.Judge(T.TrackAll(SequencesOf(q[..|q| - 1])), q[|q| - 1].sequence).Forwarded()
    ensures T.TrackAll(SequencesOf(q)) == T.Track(T.TrackAll(SequencesOf(q[..|q| - 1])), q[|q| - 1].sequence)
  {
    var n := |q| - 1;
    assert SequencesOf(q)[..n] == SequencesOf(q[..n]);
  }

  /** The books and histories of a list of quotes. */
  function BooksOf(ids: P.InstrumentIds, q: FieldList): (b: seq<B.Book>)
    ensures |b| == 5
  {
    seq(5, k requires 0 <= k < 5 => B.Book(LatestLevel(ids, q, k, 0), LatestLevel(ids, q, k, 1)))
  }

  function HistoriesOf(ids: P.InstrumentIds, q: FieldList): (h: seq<seq<uint33>>)
    ensures |h| == 5
  {
    seq(5, k requires 0 <= k < 5 => Samples(ids, q, k))
  }

  /** The market holds the books and histories of these quotes, and the tracker has seen
      their numbers. */
  ghost predicate Remembers(ids: P.InstrumentIds, m: Market, q: FieldList) {
    && m.books == BooksOf(ids, q)
    && m.hist == HistoriesOf(ids, q)
    && m.baseline == T.TrackAll(SequencesOf(q)).(initialized := m.active && q != [])
  }

  lemma BooksPush(ids: P.InstrumentIds, q: FieldList, slot: uint3)
    requires q != [] && LastForwarded(q) && P.Lookup(ids, q[|q| - 1].instrumentId) == Some(slot)
    ensures slot < 5
    ensures var f, before := q[|q| - 1], BooksOf(ids, q[..|q| - 1]);
            BooksOf(ids, q)
            == if f.side <= 1 then before[slot := B.Quoted(before[slot], P.QuoteOf(slot, f))] else before
  {
    LookupIs(ids, q[|q| - 1].instrumentId);
  }

  lemma HistoriesPush(ids: P.InstrumentIds, q: FieldList, slot: uint3)
    requires q != [] && LastForwarded(q) && P.Lookup(ids, q[|q| - 1].instrumentId) == Some(slot)
    ensures slot < 5
    ensures var f, before, b := q[|q| - 1], HistoriesOf(ids, q[..|q| - 1]), BooksOf(ids, q)[slot];
            HistoriesOf(ids, q)
            == if f.side <= 1 && b.Complete() && !b.Crossed()
               then F.PushAt(before, slot, b.bid.value.price + b.ask.value.price) else before
  {
    LookupIs(ids, q[|q| - 1].instrumentId);
  }

  /** What a forwarded quote does to the books and histories. */
  lemma TrackedMarket(w: Weights, m: Market, q: Quote)
    requires m.WellFormed() && q.slot < 5
    ensures var n, b := OnTracked(w, m, q).0, B.Quoted(m.books[q.slot], q);
            && n.books == (if q.side <= 1 then m.books[q.slot := b] else m.books)
            && n.hist == (if q.side <= 1 && b.Complete() && !b.Crossed()
                          then F.PushAt(m.hist, q.slot, b.bid.value.price + b.ask.value.price) else m.hist)
  {
  }

  lemma QuoteBooks(ids: P.InstrumentIds, w: Weights, m: Market, q: FieldList, slot: uint3)
    requires q != [] && LastForwarded(q) && P.Lookup(ids, q[|q| - 1].instrumentId) == Some(slot) && m.WellFormed()
    requires m.books == BooksOf(ids, q[..|q| - 1]) && m.hist == HistoriesOf(ids, q[..|q| - 1])
    ensures slot < 5
    ensures var n := OnTracked(w, m, P.QuoteOf(slot, q[|q| - 1])).0;
            n.books == BooksOf(ids, q) && n.hist == HistoriesOf(ids, q)
  {
    BooksPush(ids, q, slot);
    HistoriesPush(ids, q, slot);
    TrackedMarket(w, m, P.QuoteOf(slot, q[|q| - 1]));
  }

  lemma RejectedBooks(ids: P.InstrumentIds, q: FieldList)
    requires q != [] && !LastForwarded(q)
    ensures BooksOf(ids, q) == BooksOf(ids, q[..|q| - 1]) && HistoriesOf(ids, q) == HistoriesOf(ids, q[..|q| - 1])
  {
  }

  lemma {:induction false} TrackedMeans(q: seq<uint32>)
    ensures T.TrackAll(q).initialized <==> q != []
  {
    if q != [] {
      TrackedMeans(q[..|q| - 1]);
    }
  }

  /** One more quote of the current stream. */
  lemma QuoteMarket(c: Config, m: Market, q: FieldList, slot: uint3)
    requires q != [] && P.Lookup(c.ids, q[|q| - 1].instrumentId) == Some(slot) && m.WellFormed() && m.active
    requires Remembers(c.ids, m, q[..|q| - 1])
    ensures slot < 5
    ensures var n := OnQuote(c.weights, m, P.QuoteOf(slot, q[|q| - 1])).0;
            n.active && Remembers(c.ids, n, q)
  {
    var f := q[|q| - 1];
    LookupIs(c.ids, f.instrumentId);
    ForwardedMeans(q);
    TrackedMeans(SequencesOf(q[..|q| - 1]));
    TrackedMeans(SequencesOf(q));
    var n := m.(baseline := T.Track(m.baseline, f.sequence));
    if LastForwarded(q) {
      QuoteBooks(c.ids, c.weights, n, q, slot);
    } else {
      RejectedBooks(c.ids, q);
    }
  }

  // ---------------------------------------------------------------- Every list of packets

  /** What a list of packets leaves behind, for every list: the stream is active exactly
      when the last control packet was a START; the books hold the latest forwarded bid
      (side 0) and ask (side 1) of every instrument in the current stream; and the
      histories hold the midpoints of its complete, uncrossed books. */
  lemma {:induction false} MarketExact(c: Config, ps: FieldList)
    ensures var m := MarketAfter(c, ps);
            (m.active <==> StreamOpen(ps)) && Remembers(c.ids, m, StreamQuotes(c.ids, ps))
  {
    if ps != [] {
      var b, f := ps[..|ps| - 1], ps[|ps| - 1];
      var m, q := MarketAfter(c, b), StreamQuotes(c.ids, b);
      MarketExact(c, b);
      OpenPush(ps);
      LookupIs(c.ids, f.instrumentId);
      if f.messageType == 1 && m.active && f.instrumentId in c.ids {
        assert (q + [f])[..|q|] == q;
        QuoteMarket(c, m, q + [f], P.Lookup(c.ids, f.instrumentId).value);
      }
    }
  }

  /** The latest bid of a slot, and the latest ask. */
  lemma BookExact(c: Config, ps: FieldList, k: nat)
    requires k < 5
    ensures var b, q := MarketAfter(c, ps).books[k], StreamQuotes(c.ids, ps);
            b.bid == LatestLevel(c.ids, q, k, 0) && b.ask == LatestLevel(c.ids, q, k, 1)
  {
    MarketExact(c, ps);
  }

  /** A forwarded quote of the slot and side. */
  predicate LevelFrom(ids: P.InstrumentIds, q: FieldList, k: nat, side: byte, i: nat) {
    && i < |q| && LastForwarded(q[..i + 1]) && SlotFor(ids, q[i].instrumentId, k) && q[i].side == side
  }

  lemma SameLevel(ids: P.InstrumentIds, q: FieldList, k: nat, side: byte, i: nat)
    requires i + 1 < |q|
    ensures LevelFrom(ids, q, k, side, i) <==> LevelFrom(ids, q[..|q| - 1], k, side, i)
  {
    assert q[..|q| - 1][..i + 1] == q[..i + 1];
  }

  /** The latest level is that of a forwarded quote of the slot and side after which none
      was forwarded. */
  lemma {:induction false} LatestLevelIs(ids: P.InstrumentIds, q: FieldList, k: nat, side: byte, i: nat)
    requires LevelFrom(ids, q, k, side, i)
    requires forall j: nat :: i < j < |q| ==> !LevelFrom(ids, q, k, side, j)
    ensures LatestLevel(ids, q, k, side) == Some(B.Level(q[i].priceTicks, q[i].quantity))
  {
    var n := |q| - 1;
    assert q[..n + 1] == q;
    if i < n {
      forall j: nat | j < n
        ensures LevelFrom(ids, q, k, side, j) <==> LevelFrom(ids, q[..n], k, side, j)
      {
        SameLevel(ids, q, k, side, j);
      }
      assert !LevelFrom(ids, q, k, side, n);
      LatestLevelIs(ids, q[..n], k, side, i);
    }
  }

  /** There is none before the first such quote. */
  lemma {:induction false} NoLevelYet(ids: P.InstrumentIds, q: FieldList, k: nat, side: byte)
    requires forall j: nat :: j < |q| ==> !LevelFrom(ids, q, k, side, j)
    ensures LatestLevel(ids, q, k, side) == None
  {
    if q != [] {
      var n := |q| - 1;
      assert q[..n + 1] == q;
      assert !LevelFrom(ids, q, k, side, n);
      forall j: nat | j < n
        ensures !LevelFrom(ids, q[..n], k, side, j)
      {
        SameLevel(ids, q, k, side, j);
      }
      NoLevelYet(ids, q[..n], k, side);
    }
  }

  // ---------------------------------------------------------------- Every decision

  /** Which packets are traded on, by the list of packets alone: a quote in an open
      stream that the tracker forwards, with side 0 or 1, when both sides of the book of
      its slot are known, the ask is not below the bid, and this is at least the 32nd
      sample of the slot in the stream. */
  predicate Trades(ids: P.InstrumentIds, ps: FieldList, f: Fields, k: uint3) {
    var q := StreamQuotes(ids, ps + [f]);
    var bid, ask := LatestLevel(ids, q, k, 0), LatestLevel(ids, q, k, 1);
    && f.messageType == 1 && StreamOpen(ps)
    && q != [] && LastForwarded(q) && f.side <= 1
    && bid.Some? && ask.Some? && ask.value.price >= bid.value.price
    && |Samples(ids, q, k)| >= 32
  }

  lemma StreamGrows(ids: P.InstrumentIds, ps: FieldList, f: Fields)
    requires f.messageType == 1 && StreamOpen(ps) && f.instrumentId in ids
    ensures StreamQuotes(ids, ps + [f]) == StreamQuotes(ids, ps) + [f]
  {
    assert (ps + [f])[..|ps|] == ps;
  }

  lemma JudgedInMarket(c: Config, ps: FieldList, f: Fields)
    requires f.messageType == 1 && StreamOpen(ps) && f.instrumentId in c.ids
    ensures var q := StreamQuotes(c.ids, ps + [f]);
            q != [] && (LastForwarded(q) <==> T.Judge(MarketAfter(c, ps).baseline, f.sequence).Forwarded())
  {
    var b := StreamQuotes(c.ids, ps);
    StreamGrows(c.ids, ps, f);
    assert (b + [f])[..|b|] == b;
    MarketExact(c, ps);
    ForwardedMeans(b + [f]);
    TrackedMeans(SequencesOf(b));
  }

  lemma TradableIs(c: Config, ps: FieldList, f: Fields, k: uint3)
    requires k < 5 && f.instrumentId in c.ids
    ensures Tradable(c, MarketAfter(c, ps), f, k) <==> Trades(c.ids, ps, f, k)
  {
    MarketExact(c, ps);
    MarketExact(c, ps + [f]);
    DecisionsPush(c, ps, f);
    if f.messageType == 1 && StreamOpen(ps) {
      JudgedInMarket(c, ps, f);
    }
  }

  /** The decision on the packet after a list of packets, as a function of the list: with
      the weights of the design a packet is decided on exactly when it trades, and the
      scores and the signal are those of the latest levels and the sampled midpoints. */
  lemma TradeExact(ids: P.InstrumentIds, ps: FieldList, f: Fields, k: uint3)
    requires SlotFor(ids, f.instrumentId, k)
    ensures var c := Config(ids, DEFAULT_WEIGHTS);
            var out := OnPacket(c, MarketAfter(c, ps), f).1;
            var q := StreamQuotes(ids, ps + [f]);
            && (out != [] <==> Trades(ids, ps, f, k))
            && (out != [] ==>
                  var bid, ask := LatestLevel(ids, q, k, 0).value, LatestLevel(ids, q, k, 1).value;
                  var direction := 4 * AverageDifference(Samples(ids, q, k)) + (bid.quantity - ask.quantity);
                  |out| == 1 && Takes(out[0], k, f.timestamp, direction, 100 + 2 * (ask.price - bid.price)))
  {
    var c := Config(ids, DEFAULT_WEIGHTS);
    LookupIs(ids, f.instrumentId);
    TradableIs(c, ps, f, k);
    DecisionRule(ids, MarketAfter(c, ps), f);
    MarketExact(c, ps + [f]);
    DecisionsPush(c, ps, f);
  }

  /** Packets of other instruments are never decided on. */
  lemma OthersNeverTrade(c: Config, ps: FieldList, f: Fields)
    requires f.instrumentId !in c.ids
    ensures OnPacket(c, MarketAfter(c, ps), f).1 == []
  {
    LookupIs(c.ids, f.instrumentId);
  }
}

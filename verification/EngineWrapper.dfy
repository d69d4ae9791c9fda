/** The engine wrapper: the five register-level modules and the wires between them. */
module EngineWrapper {
  import opened WeightedDecision
  import opened TradingEngine
  import opened EndToEnd
  import F = FeatureEngine
  import P = PacketFilter
  import T = SequenceTracker
  import B = InstrumentBook

  class Wrapper {
    const filter: P.Filter
    const tracker: T.Tracker
    const book: B.Books
    const features: F.Engine
    const decision: Pipeline

    function Configuration(): Config { Config(filter.ids, decision.weights) }

    ghost predicate Shape() { book.Shape() && features.Shape() }

    ghost function Footprint(): set<object> {
      {filter, tracker, book, book.bidMem, book.askMem,
       features, features.fastBuffer, features.slowBuffer, features.slots, decision}
    }

    /** Every register agrees with the specification's state. */
    ghost predicate Valid()
      reads Footprint()
    {
      book.Valid() && features.Synced() && decision.Valid()
    }

    ghost function Model(): State
      reads Footprint()
    {
      State(filter.State(), tracker.State(), book.model, features.model, decision.fed)
    }

    /** Power-up: nothing is known about any register. */
    constructor (ids: P.InstrumentIds, weights: Weights)
      ensures Shape() && Configuration() == Config(ids, weights)
      ensures fresh(Footprint())
    {
      filter := new P.Filter(ids);
      tracker := new T.Tracker();
      book := new B.Books();
      features := new F.Engine();
      decision := new Pipeline(weights);
    }

    /** One rising edge: the wires are read before any module is clocked. */
    method ClockAll(i: P.FilterInput)
      requires Shape()
      requires i.resetn ==> Valid()
      modifies Footprint()
      ensures Valid()
      ensures Model() == Clock(Configuration(), old(Model()), i)
      ensures decision.output == Output(Configuration(), Model())
    {
      var start, end := filter.streamStartPulse, filter.streamEndPulse;
      var o := book.output;
      var toTracker := T.TrackerInput(i.resetn, start, end, filter.quoteValid, filter.quote);
      var toBook := B.QuoteInput(i.resetn, start, end, tracker.output.valid, tracker.output.quote);
      var toFeatures := F.BookInput(i.resetn, start, end, o.updateValid, o.slot, o.timestamp,
                                    o.bid.price, o.bid.quantity, o.ask.price, o.ask.quantity,
                                    o.valid, o.crossed);
      var feature := features.feature;
      ClockFront(i, toTracker, toBook);
      ClockBack(i.resetn, toFeatures, feature);
    }

    method ClockFront(i: P.FilterInput, toTracker: T.TrackerInput, toBook: B.QuoteInput)
      requires Shape()
      requires !toBook.resetn || book.Valid()
      modifies filter, tracker, book, book.bidMem, book.askMem
      ensures filter.State() == P.Step(filter.ids, old(filter.State()), i)
      ensures tracker.State() == T.Step(old(tracker.State()), toTracker)
      ensures book.Valid() && book.model == B.Step(old(book.model), toBook)
    {
      filter.Clock(i);
      tracker.Clock(toTracker);
      book.Clock(toBook);
    }

    method ClockBack(resetn: bool, toFeatures: F.BookInput, feature: F.Feature)
      requires Shape()
      requires resetn ==> features.Synced() && decision.Valid()
      requires toFeatures.resetn == resetn
      modifies features, features.fastBuffer, features.slowBuffer, features.slots, decision
      ensures features.Synced() && features.model == F.Step(old(features.model), toFeatures)
      ensures decision.Valid() && decision.fed == if resetn then old(decision.fed) + [feature] else []
    {
      features.Clock(toFeatures);
      decision.Clock(resetn, feature);
    }

    /** One edge of a run. */
    method Tick(ghost power: State, t: Edges, n: nat) returns (out: seq<Decision>)
      requires Valid() && OutOfReset(t) && n < |t|
      requires Model() == After(Configuration(), power, Upto(t, n))
      modifies Footprint()
      ensures Valid() && Model() == After(Configuration(), power, Upto(t, n + 1))
      ensures Signalled(Configuration(), power, Upto(t, n + 1))
           == Signalled(Configuration(), power, Upto(t, n)) + out
    {
      AfterPush(Configuration(), power, t, n);
      ClockAll(t[n]);
      out := if decision.output.valid then [decision.output] else [];
    }

    /** Resets the wrapper in whatever state it is, drives it through a trace with room
        around control packets, and records every announced decision: exactly those of
        the packets at least seven edges old. */
    method Run(t: Edges) returns (signalled: seq<Decision>)
      requires Shape() && OutOfReset(t) && Roomy(t)
      modifies Footprint()
      ensures Valid()
      ensures signalled == Decisions(Configuration(), Packets(Before(t, 7)))
    {
      ghost var power := Model();
      ClockAll(RESET_EDGE);
      signalled := [];
      var n := 0;
      while n < |t|
        invariant 0 <= n <= |t|
        invariant Shape() && Valid()
        invariant Model() == After(Configuration(), power, Upto(t, n))
        invariant signalled == Signalled(Configuration(), power, Upto(t, n))
      {
        var out := Tick(power, t, n);
        signalled := signalled + out;
        n := n + 1;
      }
      assert Upto(t, n) == t;
      DecisionsExact(Configuration(), power, t);
    }
  }

  function Upto(t: Edges, n: nat): (r: Edges)
    requires OutOfReset(t) && n <= |t|
    ensures OutOfReset(r) && |r| == n
  {
    t[..n]
  }

  lemma AfterPush(c: Config, power: State, t: Edges, n: nat)
    requires OutOfReset(t) && n < |t|
    ensures After(c, power, Upto(t, n + 1)) == Clock(c, After(c, power, Upto(t, n)), t[n])
    ensures Signalled(c, power, Upto(t, n + 1))
         == Signalled(c, power, Upto(t, n)) + Signals(c, After(c, power, Upto(t, n + 1)))
  {
    assert t[..n + 1][..n] == t[..n];
  }
}

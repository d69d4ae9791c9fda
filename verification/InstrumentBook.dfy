/** Top-of-book state of five instruments: the latest bid and the latest ask of each,
    and the registered snapshot that every accepted quote produces. */
module InstrumentBook {
  import opened Words
  import opened Quotes

  const SLOTS: int := 5
  const SIDE_BID: byte := 0
  const SIDE_ASK: byte := 1

  // ---------------------------------------------------------------- Specification

  datatype Level = Level(price: uint32, quantity: uint32)

  datatype Book = Book(bid: Option<Level>, ask: Option<Level>) {
    predicate Complete() { bid.Some? && ask.Some? }

    /** A locked book, with equal prices, is not crossed. */
    predicate Crossed() { Complete() && ask.value.price < bid.value.price }
  }

  const EMPTY: Book := Book(None, None)

  datatype Snapshot = Snapshot(
    updateValid: bool, slot: uint3, sequence: uint32, timestamp: uint64,
    bid: Level, ask: Level, valid: bool, crossed: bool)

  const NO_SNAPSHOT: Snapshot := Snapshot(false, 0, 0, 0, Level(0, 0), Level(0, 0), false, false)

  datatype BookState = BookState(books: seq<Book>, output: Snapshot) {
    predicate WellFormed() { |books| == SLOTS }
  }

  datatype QuoteInput = QuoteInput(
    resetn: bool, streamStart: bool, streamEnd: bool, valid: bool, quote: Quote)
  {
    /** The quote updates one side of one book on this edge. */
    predicate Updates() {
      && resetn && !streamStart && !streamEnd && valid
      && quote.slot < 5 && (quote.side == SIDE_BID || quote.side == SIDE_ASK)
    }
  }

  /** A side that has never been quoted shows as zeros. */
  function Shown(l: Option<Level>): Level {
    match l
    case None => Level(0, 0)
    case Some(level) => level
  }

  function Quoted(b: Book, q: Quote): Book {
    if q.side == SIDE_BID then b.(bid := Some(Level(q.price, q.quantity)))
    else b.(ask := Some(Level(q.price, q.quantity)))
  }

  function SnapshotOf(b: Book, q: Quote): Snapshot {
    Snapshot(true, q.slot, q.sequence, q.timestamp, Shown(b.bid), Shown(b.ask), b.Complete(), b.Crossed())
  }

  const ALL_EMPTY: seq<Book> := [EMPTY, EMPTY, EMPTY, EMPTY, EMPTY]

  function Step(s: BookState, i: QuoteInput): (r: BookState)
    requires s.WellFormed() || !i.resetn || i.streamStart
    ensures r.WellFormed()
  {
    if !i.resetn || i.streamStart then BookState(ALL_EMPTY, NO_SNAPSHOT)
    else if i.streamEnd then
      s.(output := s.output.(updateValid := false, valid := false, crossed := false))
    else if i.Updates() then
      var b := Quoted(s.books[i.quote.slot], i.quote);
      BookState(s.books[i.quote.slot := b], SnapshotOf(b, i.quote))
    else s.(output := s.output.(updateValid := false))
  }

  // ---------------------------------------------------------------- By the edges alone

  /** The state after a stream start and further edges, whatever came before. */
  function AfterStart(before: BookState, t: seq<QuoteInput>): (s: BookState)
    ensures s.WellFormed()
  {
    if t == [] then Step(before, QuoteInput(true, true, false, false, NO_QUOTE))
    else Step(AfterStart(before, t[..|t| - 1]), t[|t| - 1])
  }

  predicate InStream(i: QuoteInput) { i.resetn && !i.streamStart && !i.streamEnd }

  /** The latest quote of a slot and side. */
  function Latest(t: seq<QuoteInput>, k: nat, side: byte): Option<Level> {
    if t == [] then None else
      var i := t[|t| - 1];
      if i.valid && i.quote.slot == k && i.quote.side == side then Some(Level(i.quote.price, i.quote.quantity))
      else Latest(t[..|t| - 1], k, side)
  }

  /** Every edge of a stream: the books hold the latest bid (side 0) and ask (side 1) of
      every slot, and the snapshot after a quote is that of its book, with the quote's own
      number and timestamp; the book is valid when both sides are known, and crossed when
      its ask is below its bid. */
  lemma {:induction false} BooksExact(before: BookState, t: seq<QuoteInput>)
    requires forall k :: 0 <= k < |t| ==> InStream(t[k])
    ensures var s := AfterStart(before, t);
            && (forall k :: 0 <= k < 5 ==> s.books[k] == Book(Latest(t, k, 0), Latest(t, k, 1)))
            && (t != [] ==>
                  var q, o := t[|t| - 1].quote, s.output;
                  var bid, ask := Latest(t, q.slot, 0), Latest(t, q.slot, 1);
                  && (o.updateValid <==> t[|t| - 1].valid && q.slot < 5 && q.side <= 1)
                  && (o.updateValid ==>
                        && o.slot == q.slot && o.sequence == q.sequence && o.timestamp == q.timestamp
                        && o.bid == (if bid.Some? then bid.value else Level(0, 0))
                        && o.ask == (if ask.Some? then ask.value else Level(0, 0))
                        && (o.valid <==> bid.Some? && ask.Some?)
                        && (o.crossed <==> bid.Some? && ask.Some? && ask.value.price < bid.value.price)))
  {
    if t != [] {
      BooksExact(before, t[..|t| - 1]);
      assert InStream(t[|t| - 1]);
    }
  }

  // ---------------------------------------------------------------- Registers

  /** The six memories, one word of each per slot. */
  datatype SideMemory = SideMemory(price: uint32, quantity: uint32, initialized: bool)

  const BLANK: SideMemory := SideMemory(0, 0, false)

  ghost predicate Remembers(m: SideMemory, l: Option<Level>) {
    && m.initialized == l.Some?
    && Level(m.price, m.quantity) == Shown(l)
  }

  class Books {
    const bidMem: array<SideMemory>
    const askMem: array<SideMemory>
    var output: Snapshot
    ghost var model: BookState

    ghost predicate Shape() {
      bidMem.Length == askMem.Length == SLOTS && bidMem != askMem
    }

    ghost predicate Valid()
      reads this, bidMem, askMem
    {
      && Shape()
      && model.WellFormed()
      && output == model.output
      && forall k :: 0 <= k < SLOTS ==>
           Remembers(bidMem[k], model.books[k].bid) && Remembers(askMem[k], model.books[k].ask)
    }

    constructor ()
      ensures Shape() && fresh(bidMem) && fresh(askMem)
    {
      bidMem := new SideMemory[SLOTS];
      askMem := new SideMemory[SLOTS];
    }

    method ClearAll()
      requires Shape()
      modifies this, bidMem, askMem
      ensures Valid() && model == BookState(ALL_EMPTY, NO_SNAPSHOT)
    {
      var k := 0;
      while k < SLOTS
        invariant 0 <= k <= SLOTS
        invariant forall j :: 0 <= j < k ==> bidMem[j] == BLANK && askMem[j] == BLANK
        modifies bidMem, askMem
      {
        bidMem[k], askMem[k] := BLANK, BLANK;
        k := k + 1;
      }
      output := NO_SNAPSHOT;
      model := BookState(ALL_EMPTY, NO_SNAPSHOT);
    }

    /** One rising edge. */
    method Clock(i: QuoteInput)
      requires Shape()
      requires !i.resetn || i.streamStart || Valid()
      modifies this, bidMem, askMem
      ensures Valid() && model == Step(old(model), i)
    {
      if !i.resetn || i.streamStart {
        ClearAll();
      } else {
        ghost var before := model;
        output := output.(updateValid := false);
        if i.streamEnd {
          output := output.(valid := false, crossed := false);
        } else if i.valid && i.quote.slot < 5 {
          var k, q := i.quote.slot, i.quote;
          var bid, ask := bidMem[k], askMem[k];
          if q.side == SIDE_BID {
            bidMem[k] := SideMemory(q.price, q.quantity, true);
            output := Snapshot(true, k, q.sequence, q.timestamp,
                               Level(q.price, q.quantity), Level(ask.price, ask.quantity),
                               ask.initialized, ask.initialized && ask.price < q.price);
          } else if q.side == SIDE_ASK {
            askMem[k] := SideMemory(q.price, q.quantity, true);
            output := Snapshot(true, k, q.sequence, q.timestamp,
                               Level(bid.price, bid.quantity), Level(q.price, q.quantity),
                               bid.initialized, bid.initialized && q.price < bid.price);
          }
        }
        model := Step(before, i);
      }
    }
  }
}

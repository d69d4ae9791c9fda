/** The packet filter: interprets stream control, maps instruments to slots, and lets
    the quotes of an active stream through. */
module PacketFilter {
  import opened Words
  import opened Hft1
  import opened Quotes

  /** The decoded packet that the parser announces on one edge. */
  datatype FilterInput = FilterInput(resetn: bool, packetValid: bool, packetError: bool, fields: Fields) {
    predicate Good() { resetn && packetValid && !packetError }
  }

  datatype FilterState = FilterState(
    active: bool, quoteValid: bool, quote: Quote,
    startPulse: bool, endPulse: bool, unknownInstrument: bool)

  type InstrumentIds = ids: seq<uint32> | |ids| == 5 witness [1, 2, 3, 4, 5]

  /** The combinational instrument lookup. */
  function Lookup(ids: InstrumentIds, id: uint32): (r: Option<uint3>)
    ensures r.Some? <==> id in ids
    ensures r.Some? ==> r.value < 5 && ids[r.value] == id
  {
    if id == ids[0] then Some(0)
    else if id == ids[1] then Some(1)
    else if id == ids[2] then Some(2)
    else if id == ids[3] then Some(3)
    else if id == ids[4] then Some(4)
    else None
  }

  function QuoteOf(slot: uint3, f: Fields): Quote {
    Quote(slot, f.side, f.sequence, f.timestamp, f.priceTicks, f.quantity)
  }

  function Step(ids: InstrumentIds, s: FilterState, i: FilterInput): FilterState {
    var idle := FilterState(s.active, false, s.quote, false, false, false);
    if !i.resetn then FilterState(false, false, NO_QUOTE, false, false, false)
    else if !i.Good() then idle
    else if i.fields.messageType == STREAM_START then idle.(active := true, startPulse := true)
    else if i.fields.messageType == STREAM_END then idle.(active := false, endPulse := true)
    else if i.fields.messageType == QUOTE_UPDATE && s.active then
      match Lookup(ids, i.fields.instrumentId)
      case Some(slot) => idle.(quoteValid := true, quote := QuoteOf(slot, i.fields))
      case None => idle.(unknownInstrument := true)
    else idle
  }

  /** The state after the edges that follow a reset. */
  function AfterReset(ids: InstrumentIds, before: FilterState, t: seq<FilterInput>): FilterState {
    if t == [] then Step(ids, before, FilterInput(false, false, false, NO_FIELDS))
    else Step(ids, AfterReset(ids, before, t[..|t| - 1]), t[|t| - 1])
  }

  const NO_FIELDS: Fields := Fields(0, 0, 0, 0, 0, 0, 0, 0, 0, 0)

  /** The last good control packet (type 4 or 5) was a START (type 4). */
  predicate Opened(t: seq<FilterInput>) {
    t != [] &&
      var i := t[|t| - 1];
      if i.Good() && (i.fields.messageType == 4 || i.fields.messageType == 5) then i.fields.messageType == 4
      else Opened(t[..|t| - 1])
  }

  /** Every output of every edge after reset, in terms of the edges alone: which packets
      start or end the stream, which are handed on with which fields, and which are
      reported as unknown. */
  lemma {:induction false} FilterExact(ids: InstrumentIds, before: FilterState, t: seq<FilterInput>)
    requires forall k :: 0 <= k < |t| ==> t[k].resetn
    ensures var s := AfterReset(ids, before, t);
            && (s.active <==> Opened(t))
            && (t == [] ==> !s.quoteValid && !s.startPulse && !s.endPulse && !s.unknownInstrument)
            && (t != [] ==>
                  var i := t[|t| - 1];
                  var f, quoted := i.fields, i.Good() && i.fields.messageType == 1 && Opened(t);
                  && (s.startPulse <==> i.Good() && f.messageType == 4)
                  && (s.endPulse <==> i.Good() && f.messageType == 5)
                  && (s.quoteValid <==> quoted && f.instrumentId in ids)
                  && (s.unknownInstrument <==> quoted && f.instrumentId !in ids)
                  && (s.quoteValid ==>
                        && s.quote.slot < 5 && ids[s.quote.slot] == f.instrumentId
                        && s.quote.side == f.side && s.quote.sequence == f.sequence && s.quote.timestamp == f.timestamp
                        && s.quote.price == f.priceTicks && s.quote.quantity == f.quantity))
  {
    if t != [] {
      FilterExact(ids, before, t[..|t| - 1]);
    }
  }

  class Filter {
    const ids: InstrumentIds
    var streamActive: bool
    var quoteValid: bool
    var quote: Quote
    var streamStartPulse: bool
    var streamEndPulse: bool
    var unknownInstrument: bool

    function State(): FilterState
      reads this
    {
      FilterState(streamActive, quoteValid, quote, streamStartPulse, streamEndPulse, unknownInstrument)
    }

    constructor (instrumentIds: InstrumentIds)
      ensures ids == instrumentIds
    {
      ids := instrumentIds;
    }

    /** One rising edge. */
    method Clock(i: FilterInput)
      modifies this
      ensures State() == Step(ids, old(State()), i)
    {
      quoteValid, streamStartPulse, streamEndPulse, unknownInstrument := false, false, false, false;
      if !i.resetn {
        quote, streamActive := NO_QUOTE, false;
      } else if i.packetValid && !i.packetError {
        if i.fields.messageType == STREAM_START {
          streamActive, streamStartPulse := true, true;
        } else if i.fields.messageType == STREAM_END {
          streamActive, streamEndPulse := false, true;
        } else if i.fields.messageType == QUOTE_UPDATE && streamActive {
          var slot := Lookup(ids, i.fields.instrumentId);
          if slot.Some? {
            quoteValid, quote := true, QuoteOf(slot.value, i.fields);
          } else {
            unknownInstrument := true;
          }
        }
      }
    }
  }
}

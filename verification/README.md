# Market-data path: a verified model

The system carries HFT1 market-data packets (32 bytes, network byte order) from two
senders over UDP to a receiver on a Zynq board, and from there by DMA and AXI4-Stream
into an FPGA pipeline that parses them and takes trading decisions. This project
models that path in Dafny and proves what its parts promise each other.

## Structure

| modules | what they model |
|---|---|
| `Words`, `Windows`, `Sequences`, `Quotes` | register widths with explicit truncation; window sums; statistics of a list of sequence numbers |
| `Hft1` | packet layout, the software validity check, bytes on AXI lanes |
| `PacketParser`, `ParserRuns` | the packet parser behind its one-beat elastic register, both TLAST modes |
| `PacketFilter`, `SequenceTracker`, `InstrumentBook` | the three modules between parser and feature engine |
| `FeatureEngine`, `FeatureTraces` | moving averages over 8 and 32 samples for five instruments |
| `WeightedDecision` | the three-stage BUY/SELL/HOLD pipeline |
| `TradingEngine`, `Flushing`, `EndToEnd`, `MarketOfPackets`, `EngineWrapper`, `FullPath` | the modules clocked together, from bus beats to decisions |
| `BitmapReceiver`, `BitmapTheorems`, `BitmapRuns`, `LossyNetwork` | the C receiver with its bitmap and integrity verdict, on raw datagrams and behind a lossy network |
| `LiveReceiver`, `LiveTheorems`, `LiveSlots` | the Python receiver that batches payloads for the FPGA |
| `Senders`, `Pacing` | what both senders put on the wire, and their send deadlines |

Each clocked module appears twice: as a class with the registers of the source, whose
`Clock` method is one rising edge, and as a specification on values that has no
pipeline, buffer or pointer. The joint engine is related to its specification by
flushing: completing whatever packets its registers hold. The class is proved to follow
the specification, and the theorems are about the specification and about whole runs of
the class. A parser run is a list of beats and an arbitrary stall pattern; the handshake
is that of section 2.2.1 of the AMBA 4 AXI4-Stream Protocol Specification (ARM IHI
0051A). Nothing is assumed about registers and buffers before the first reset or stream
start. The two receivers are folds over single datagrams; the classes around them hold
the real counters.

The central results, in the order of the data path:

- the feature engine emits, for every input trace and every interleaving of
  instruments, exactly the features of the last 8 and 32 samples of each instrument,
  whatever its buffers held before (`PipelineExact`, `SlotIsolation`, `SlotOutput`,
  `StaleBuffersDoNotMatter`);
- the parser's verdicts are a function of the beats alone, whatever the stalls, and
  agree with the software check (`Transmit`, `ValidatorsAgree`, `BatchVerdicts`);
- parser and engine together, at register level, take exactly the decisions of a
  specification that handles one packet at a time (`BeatsToDecisions`,
  `DecisionsExact`), and those are given by the list of packets alone, on unbounded
  integers (`MarketExact`, `TradeExact`);
- what each receiver reports is given by the bytes of what it received (`RunExact`,
  `PassExact`, `SessionVerdict`), and what they report missing is related exactly to what
  the network did (`LossyDelivery`, `Delivery`, `MissingSet`);
- the transfers of a whole receiver session hand the engine exactly the packets that the
  software check accepts (`SessionFields`);
- the hardware tracker refines the set-based one exactly as long as the 32-bit numbers
  do not wrap (`TrackersAgree`).

## Where code, documentation and expectation differ

The model follows the code.

- The design document lists the tracker's gap test before its duplicate test
  (docs/phase5_weighted_decision.md:909-946); the RTL tests in the other order
  (phase5/rtl/hft_sequence_tracker.sv:106-111). `DocumentedOrder` shows that this
  matters exactly when 0xFFFFFFFF is repeated.
- The design document says that a bad packet can raise `packet_valid` and
  `packet_error` together (docs/phase5_weighted_decision.md:828). The parser raises
  exactly one of them (`Parser.Clock`, `Exchange`).
- Batch mode never requires a final TLAST; only a misplaced one is an error
  (phase4/rtl/hft_packet_parser.sv:104-109, and the note at lines 7-9).
- The live receiver cannot notice the loss of STREAM_START together with the quotes
  that follow it, since nothing has announced a count: `Delivery` gives the exact
  condition, `LostStartPasses` an example. Once START arrives first, any loss,
  repetition or reordering up to END fails the session (`DeliveryAfterStart`).
- The host sender accepts durations that it announces as 0 ms, and the C receiver
  ignores such a STREAM_START, so the run is never reported (`AnnouncedAsZero`,
  `WhenReported`, `ShortRunGoesUnreported`).
- A STREAM_START that the network repeats during a run restarts the C receiver's stream,
  and quotes that had arrived count as missing (`RepeatedStart`); `LossyDelivery` says
  exactly when the one report of a run is about all that arrived.
- A host run interrupted before its first quote announces 0 packets, which the C
  receiver reads as "all planned packets" and reports as lost (`ReportExact` with `Assumed`).
- The wrapper declares weight parameters but instantiates the decision module with the
  constants 4, 1, 2 and 100 (phase5/rtl/hft_engine_wrapper.v:244-249). The class
  `Wrapper` takes any weights; `DecisionRule` is about these constants.
- A negative base threshold, which the signed parameter admits, lets a wider spread turn
  a buy into a sell (`WiderSpreadTradesLess`, `NegativeThresholdFlips`).
- A control packet that follows a quote by only three edges cancels the decision on the
  quote (`LateControlCancels`). The parser never delivers packets that closely.
- With a threshold near the top of its 64 bits the required score can wrap;
  `DecisionExact` states exactly when the registered signal is still the right one.

## Model

| member | source | states |
|---|---|---|
| `FeatureEngine.Engine.Clock` | phase5/rtl/hft_feature_engine.sv:127-359 | One rising edge keeps every register and buffer entry equal to what the complete sample history of its slot dictates, from any register contents before the first reset or stream start |
| `FeatureEngine.Engine.AcceptSample` | phase5/rtl/hft_feature_engine.sv:223-357 | An eligible update appends one sample to one slot's history, and stage 1 becomes valid exactly when that slot now has 32 samples |
| `FeatureEngine.Engine.ClearAll` | phase5/rtl/hft_feature_engine.sv:128-177 | Reset and stream start leave empty histories without touching the sample buffers |
| `FeatureEngine.Store` | phase5/rtl/hft_feature_engine.sv:249-255 | Writing at the pointer replaces exactly the oldest sample: every row still holds the newest n samples of its history |
| `FeatureEngine.DatapathAdvances` | phase5/rtl/hft_feature_engine.sv:235-343 | Sums, wrapping pointers, saturating count and warm-up state of history h become those of h plus the sample; the fourth state code is never entered |
| `FeatureEngine.SampleSums` | phase5/rtl/hft_feature_engine.sv:41-57 | Both incremental sums equal the sums of the last 8 and 32 samples and never leave 36 and 38 bits |
| `FeatureEngine.DifferenceIsTrend` | phase5/rtl/hft_feature_engine.sv:204-212 | The shifted 34-bit signed difference is the unbounded difference of the two averages |
| `FeatureEngine.PointerOfLength` | phase5/rtl/hft_feature_engine.sv:257-263 | The 3-bit and 5-bit pointers are the history length modulo 8 and 32, and select the oldest sample of a full window |
| `Windows.SlideSum` | phase5/rtl/hft_feature_engine.sv:313-323 | The sum of the last n samples after one more sample, by adding it and subtracting the one that leaves the window |
| `FeatureTraces.RunState` | phase5/rtl/hft_feature_engine.sv:218-233 | After any trace the histories and the stage-1 registers are closed forms of the updates accepted since the last restart |
| `FeatureTraces.PipelineExact` | phase5/rtl/hft_feature_engine.sv:178-220 | `feature_valid` is high exactly when the edge before completed at least 32 samples and this edge neither reset, started nor ended; the feature is that update's, whatever this edge accepts |
| `FeatureTraces.SlotIsolation` | phase5/rtl/hft_feature_engine.sv:91-125 | On every edge the output for a slot is that of an engine that never sees the other slots |
| `FeatureTraces.SlotOutput` | phase5/rtl/hft_feature_engine.sv:178-233 | The features of a slot, in order, are those of its own updates less the ones that a stream end cancels on the next edge, whatever the other slots and the idle edges in between |
| `FeatureTraces.FeatureCount` | phase5/rtl/hft_feature_engine.sv:304-342 | n accepted updates give exactly max(0, n - 31) features: emitted, in stage 1, or cancelled there by a stream end |
| `FeatureTraces.IneligibleChangesNothing` | phase5/rtl/hft_feature_engine.sv:35-39 | On every edge of every run the output is that of the run without its incomplete, crossed and out-of-range updates |
| `FeatureTraces.TrendRounding` | phase5/rtl/hft_feature_engine.sv:204-212 | -28 <= 32 trend - (4 fast sum - slow sum) <= 31 |
| `FeatureTraces.TrendBounded` | phase5/rtl/hft_feature_engine.sv:204-212 | With full windows the trend never exceeds the range of the window's samples |
| `FeatureTraces.TrendShiftInvariant` | phase5/rtl/hft_feature_engine.sv:204-212 | Moving every price by the same amount does not move the trend |
| `FeatureTraces.Drive` | phase5/rtl/hft_feature_engine.sv:127-359 | The register-level engine outputs, on every edge of any trace, what the specification does |
| `FeatureTraces.StaleBuffersDoNotMatter` | phase5/rtl/hft_feature_engine.sv:153-177 | Two engines with arbitrary different buffers give identical outputs on every edge of a trace that begins with a restart |
| `WeightedDecision.Pipeline.Clock` | phase5/rtl/weighted_decsion.sv:52-121 | One rising edge of the three stages: the output registers are the scored feature set of two edges before |
| `WeightedDecision.Drive` | phase5/rtl/weighted_decsion.sv:77-119 | Over any run every feature set comes out scored on its third edge, with its own slot and timestamp, one per edge |
| `WeightedDecision.StagesExact` | phase5/rtl/weighted_decsion.sv:79-92 | No product and no direction sum is truncated by its 64-bit register |
| `WeightedDecision.DirectionFits` | phase5/rtl/weighted_decsion.sv:33-42 | Bounds of the products and of the direction score for all weights and features |
| `WeightedDecision.DecisionExact` | phase5/rtl/weighted_decsion.sv:105-119 | The registered signal is the rule on unbounded integers exactly when base + weight * spread < 2^63 |
| `WeightedDecision.SignalMeans` | phase5/rtl/weighted_decsion.sv:79-119 | For all weights whose threshold fits 64 bits: the scores written out, BUY exactly above the threshold, SELL exactly below its negative, HOLD exactly between |
| `WeightedDecision.DefaultDecision` | phase5/rtl/weighted_decsion.sv:4-7 | With the design's weights every decision equals the integer rule, and BUY and SELL exclude each other |
| `WeightedDecision.NoDirectionalBias` | docs/phase5_weighted_decision.md:58-66 | Negating the evidence negates the signal, except exactly where a negative threshold lets both sides trigger |
| `WeightedDecision.WiderSpreadTradesLess` | docs/phase5_weighted_decision.md:66-66 | For all weights a wider spread keeps the signal or turns it into a hold, except exactly where it flips a buy into a sell, which takes a negative threshold |
| `WeightedDecision.NegativeThresholdFlips` | phase5/rtl/weighted_decsion.sv:7-7 | A negative base threshold with which a wider spread turns a buy into a sell |
| `Hft1.UnpackPack` | phase4/pynq/phase4_9_live_udp_sender.py:77-88 | All fields survive packing as "!4sBBBBIQIII" |
| `Hft1.PackUnpack` | pynq/phase4_9_live_udp_recvmmsg_dma.py:426-439 | Every 32 bytes are the packing of what they unpack to |
| `Hft1.FieldOffsets` | pynq/receive_market_stream_optimized2.c:399-408 | Every field is the big-endian number at its offset |
| `Hft1.ValidMeansSound` | pynq/phase4_9_live_udp_recvmmsg_dma.py:148-173 | The protocol check holds exactly for bytes that begin with HFT1 and version 1, with reserved byte 0 and a legal type and side |
| `PacketParser.Parser.Clock` | phase4/rtl/hft_packet_parser.sv:153-253 | One rising edge: which beat is accepted and which emitted, stability under TVALID without TREADY, conservation through the elastic register, and a completion pulse exactly on the eighth beat of a packet |
| `PacketParser.Parser.AcceptBeat` | phase4/rtl/hft_packet_parser.sv:186-239 | An accepted beat advances the framing; on the eighth, error flags and fields are those of exactly these eight beats |
| `PacketParser.Parser.Forward` | phase4/rtl/hft_packet_parser.sv:241-251 | The elastic register takes a beat only when empty or being emptied, and otherwise holds |
| `PacketParser.FrameNext` | phase4/rtl/hft_packet_parser.sv:224-238 | The incremental framing registers describe the beats of the current packet, back-to-back packets included |
| `ParserRuns.Exchange` | phase4/rtl/hft_packet_parser.sv:76-86 | One edge of a run: the pulse announces exactly the verdict that the beats so far gained |
| `ParserRuns.Transmit` | phase4/rtl/hft_packet_parser.sv:178-251 | Any beats, any stall pattern: completions are the verdicts of beats 8k..8k+7 in order, beats leave unchanged and in order, at most one is held, and every unstalled edge takes a beat |
| `ParserRuns.ErrorFlagsMeaning` | phase4/rtl/hft_packet_parser.sv:56-146 | What each of the bits 0x01 to 0x80 of a packet's mask says about its byte lanes, TKEEP and TLAST, in both modes |
| `ParserRuns.ValidatorsAgree` | pynq/phase4_9_live_udp_recvmmsg_dma.py:148-173 | `packet_valid` holds exactly when TKEEP is full, TLAST legal, and the software check accepts the decoded fields |
| `ParserRuns.DecodeIsUnpack` | phase4/rtl/hft_packet_parser.sv:69-74 | For any 32 bytes laid on the lanes the parser decodes what the software unpacks |
| `ParserRuns.CleanMeansSound` | phase4/rtl/hft_packet_parser.sv:88-146 | The parser accepts the beats of a packet in batch mode exactly when its bytes are sound |
| `ParserRuns.PacketRoundTrip` | phase4/rtl/hft_packet_parser.sv:186-222 | Packing, laying the bytes on the lanes and parsing returns the same fields |
| `ParserRuns.BatchVerdicts` | phase4/rtl/hft_packet_parser.sv:104-109 | In batch mode a batch of k packets gives k verdicts, packet by packet those of the software check |
| `ParserRuns.BatchInPerPacketMode` | phase4/rtl/hft_packet_parser.sv:96-103 | In per-packet mode only the last packet of such a batch is accepted; the others lack TLAST |
| `PacketFilter.Lookup` | phase5/rtl/hft_packet_filter.sv:41-58 | A slot is found exactly for the configured instruments, and it is that instrument's |
| `PacketFilter.Filter.Clock` | phase5/rtl/hft_packet_filter.sv:60-112 | One rising edge follows the filter's specification |
| `PacketFilter.FilterExact` | phase5/rtl/hft_packet_filter.sv:60-112 | Over all edges after reset: the stream is active exactly when the last good control packet was a START, and every pulse, flag and quote field is given by the edges alone |
| `InstrumentBook.Books.Clock` | phase5/rtl/hft_instrument_book.sv:62-216 | One rising edge: the six memories hold the latest bid and ask of every slot, and the snapshot is that of the updated book |
| `InstrumentBook.BooksExact` | phase5/rtl/hft_instrument_book.sv:134-214 | Over all edges of a stream: every book holds the latest bid (side 0) and ask (side 1) of its slot, and the snapshot after a quote is that of its book with the quote's number and timestamp |
| `SequenceTracker.Tracker.Clock` | phase5/rtl/hft_sequence_tracker.sv:38-136 | One rising edge follows the tracker's specification |
| `SequenceTracker.Tracker.JudgeQuote` | phase5/rtl/hft_sequence_tracker.sv:80-134 | A quote moves the counters and raises the flags of its outcome, and only accepted quotes are forwarded |
| `SequenceTracker.StreamTracked` | phase5/rtl/hft_sequence_tracker.sv:61-135 | Over any edges of a stream the registers are those of the list of presented numbers, and exactly the accepted numbers leave |
| `SequenceTracker.TrackersAgree` | phase5/rtl/hft_sequence_tracker.sv:81-133 | The tracker accepts exactly the quotes that the set-based one accepts if and only if the 32-bit numbers never wrap |
| `SequenceTracker.CountersAgree` | pynq/phase4_9_live_udp_recvmmsg_dma.py:444-462 | Without a wrap both report the same missing total and the same total of duplicates and out-of-order numbers |
| `SequenceTracker.RejectedCount` | phase5/rtl/hft_sequence_tracker.sv:106-133 | On every stream, wrapping or not, the rejection counters total the quotes not forwarded, modulo 2^32 |
| `SequenceTracker.JudgedByHighest` | phase5/rtl/hft_sequence_tracker.sv:81-133 | Without a wrap the outcome of a quote is decided by its number and the highest one so far |
| `SequenceTracker.RejectionsByPosition` | phase5/rtl/hft_sequence_tracker.sv:106-133 | Without a wrap the duplicate counter is the number of quotes that repeat the highest number so far, and the out-of-order counter the number of those below it, each modulo 2^32 |
| `SequenceTracker.FlagsByEdge` | phase5/rtl/hft_sequence_tracker.sv:62-133 | Without a wrap a quote goes out exactly on the edges that present a new highest number, and each error flag is high exactly on the edges that present a number of its kind |
| `SequenceTracker.ForwardedIncreases` | phase5/rtl/hft_sequence_tracker.sv:94-133 | Accepted numbers strictly increase as long as they do not wrap |
| `SequenceTracker.DocumentedOrder` | docs/phase5_weighted_decision.md:884-946 | The documented test order and the implemented one differ exactly on a repeat of 0xFFFFFFFF |
| `Flushing.FilterStage` | phase5/rtl/hft_packet_filter.sv:60-112 | Flushing the filter after an edge gives what the one-packet specification does with the packet that the edge took in |
| `Flushing.TrackerStage` | phase5/rtl/hft_sequence_tracker.sv:61-135 | Flushing the filter before an edge and the tracker after it give the same market and decisions |
| `Flushing.BookStage` | phase5/rtl/hft_instrument_book.sv:90-215 | Flushing the tracker before an edge and the book after it give the same market and decisions, and the snapshot stays that of the current book |
| `Flushing.FeatureStage` | phase5/rtl/hft_feature_engine.sv:186-358 | The feature engine takes in exactly what flushing the book samples, and its stage 1 holds exactly the decision that is due |
| `Flushing.QuietEdge` | phase5/rtl/hft_engine_wrapper.v:106-268 | Without a control pulse every stage hands on what it holds, with up to seven packets in flight |
| `Flushing.PulseEdge` | phase5/rtl/hft_engine_wrapper.v:135-136 | A control pulse clears all modules at once to what the specification left after the control packet |
| `Flushing.FlushedEdge` | phase5/rtl/hft_engine_wrapper.v:106-268 | On every edge the flushed view of the five modules makes the edge of the specification, and the output is the decision that has grown seven edges old |
| `Flushing.LateControlCancels` | phase5/rtl/hft_feature_engine.sv:151-185 | A control packet three edges behind a quote cancels the decision on it, so the four edges of room are needed |
| `EndToEnd.EngineFollows` | phase5/rtl/hft_engine_wrapper.v:106-268 | From reset in any state, along any trace in which control packets keep four edges behind quotes, registers and outputs follow the flushed specification edge by edge; quotes may be back to back |
| `EndToEnd.FlushedMarket` | phase5/rtl/hft_engine_wrapper.v:106-268 | The flushed market is that of the list of packets, whatever their spacing |
| `EndToEnd.WaitingIsDue` | phase5/rtl/hft_engine_wrapper.v:106-268 | What waits in the stage of age k is exactly the decision on the packet of k edges ago |
| `EndToEnd.DecisionsExact` | phase5/rtl/hft_engine_wrapper.v:106-268 | At every moment the decisions signalled are exactly those of the packets at least seven edges old, in order, back-to-back quotes included |
| `EndToEnd.MarketHeld` | phase5/rtl/hft_engine_wrapper.v:106-268 | After three edges without a good packet the registers hold exactly the market that the packets leave |
| `EndToEnd.DecisionRule` | phase5/rtl/hft_engine_wrapper.v:244-268 | A packet causes a decision exactly when it is an accepted quote of a known instrument whose book is complete, uncrossed and has 32 samples; scores and signal are then the rule on unbounded integers |
| `MarketOfPackets.MarketExact` | phase5/rtl/hft_engine_wrapper.v:106-239 | What any list of packets leaves behind, from the list alone: whether a stream is active, the latest forwarded bid and ask of every slot in the current stream, the sampled midpoints, and the tracker's state |
| `MarketOfPackets.LatestLevelIs` | phase5/rtl/hft_instrument_book.sv:142-187 | The level of a slot and side is the price and quantity of the forwarded quote after which none of that slot and side was forwarded |
| `MarketOfPackets.NoLevelYet` | phase5/rtl/hft_instrument_book.sv:48-52 | There is no level before the first such quote of the stream |
| `MarketOfPackets.TradeExact` | phase5/rtl/hft_engine_wrapper.v:106-268 | The decision on the packet after any list of packets as a function of the list: when there is one, its scores and its signal, in unbounded integers and the design's weights |
| `MarketOfPackets.OthersNeverTrade` | phase5/rtl/hft_packet_filter.sv:97-107 | Packets of instruments that are not configured are never decided on |
| `EndToEnd.StreamsIndependent` | phase5/rtl/hft_feature_engine.sv:151-177 | From a STREAM_START on, the market and all further decisions are those of an engine that has seen nothing before |
| `EndToEnd.RejectedQuotesAreInert` | docs/phase5_weighted_decision.md:944-944 | For every list of packets the decisions are those of the list without the quotes that the tracker rejects |
| `EngineWrapper.Wrapper.ClockAll` | phase5/rtl/hft_engine_wrapper.v:106-268 | One rising edge of the five register-level modules with their wiring is one step of the joint specification |
| `EngineWrapper.Wrapper.Run` | phase5/rtl/hft_engine_wrapper.v:106-268 | Driving the five register-level modules through any trace with room around control packets signals exactly the specified decisions |
| `FullPath.FeedEdge` | phase4/rtl/hft_packet_parser.sv:178-239 | One parser edge extends the engine's input trace by what the beats so far gained and keeps room around control packets |
| `FullPath.Feed` | phase4/rtl/hft_packet_parser.sv:178-239 | Under any stalls, after every edge the engine has been handed exactly the valid packets among the beats taken so far, with room around control packets |
| `FullPath.BeatsToDecisions` | phase5/rtl/hft_engine_wrapper.v:15-36 | Beats in, decisions out, at register level: the decisions signalled are exactly those on the valid packets among the beats taken by seven edges before the end, and every unstalled edge takes a beat |
| `FullPath.BatchFields` | phase4/rtl/hft_packet_parser.sv:104-109 | A DMA batch hands the engine exactly the packets that the software check accepts |
| `FullPath.TransfersFields` | phase4/rtl/hft_packet_parser.sv:104-109 | However packets are cut into transfers, the parser hands on exactly those that the software check accepts |
| `FullPath.SessionFields` | pynq/phase4_9_live_udp_recvmmsg_dma.py:477-496 | The transfers of a whole receiver session without DMA error hand the engine exactly the accepted fields of the well-sized datagrams consumed, whatever the batch size |
| `BitmapReceiver.Receiver.ResetStream` | pynq/receive_market_stream_optimized2.c:170-207 | A new stream starts with an empty bitmap and zero counters |
| `BitmapReceiver.Receiver.FinishStream` | pynq/receive_market_stream_optimized2.c:265-333 | The report and verdict of the counters are those of the list of counted quotes |
| `BitmapReceiver.Receiver.CountQuote` | pynq/receive_market_stream_optimized2.c:452-464 | Bitmap and counters after one more quote |
| `BitmapReceiver.Receiver.ProcessDatagram` | pynq/receive_market_stream_optimized2.c:376-479 | Any datagram, any state: what is ignored, counted invalid, counted as a quote, starts or ends a stream |
| `BitmapReceiver.Receiver.ProcessStart` | pynq/receive_market_stream_optimized2.c:402-420 | A STREAM_START with sound parameters begins a stream, whatever was active; any other changes nothing |
| `BitmapReceiver.Receiver.ProcessBatch` | pynq/receive_market_stream_optimized2.c:702-710 | The slots of one call in order |
| `BitmapReceiver.Receiver.ReceiveLoop` | pynq/receive_market_stream_optimized2.c:655-711 | The outcome does not depend on how datagrams are spread over receive calls |
| `BitmapReceiver.Receiver.BitmapCounts` | pynq/receive_market_stream_optimized2.c:452-464 | valid = number of set bits <= highest = largest set index <= planned |
| `BitmapReceiver.ActualSent` | pynq/receive_market_stream_optimized2.c:273-280 | The quantity, sequence, planned fallback always lies in 1..planned |
| `BitmapReceiver.RunConcat` | pynq/receive_market_stream_optimized2.c:655-711 | Runs compose |
| `BitmapTheorems.RunInRange` | pynq/receive_market_stream_optimized2.c:408-450 | In every reachable state the counted quotes lie in 1..planned |
| `BitmapTheorems.PassMeansPerfect` | pynq/receive_market_stream_optimized2.c:328-333 | The integrity verdict is positive exactly when the announced count is the planned one and the counted datagrams are 1, 2, ..., planned in that order and nothing else |
| `BitmapTheorems.CounterBounds` | pynq/receive_market_stream_optimized2.c:452-464 | unique <= highest <= planned; unique less late = left-to-right maxima; counted = unique + duplicates |
| `BitmapTheorems.OrderIndependent` | pynq/receive_market_stream_optimized2.c:452-464 | Permuting the quotes changes nothing but the out-of-order count and the verdict |
| `BitmapRuns.EventIs` | pynq/receive_market_stream_optimized2.c:376-450 | What any datagram is to the receiver, by its bytes, length and sender: a start, an end, a quote that counts, an invalid datagram, or nothing |
| `BitmapRuns.OpenExact` | pynq/receive_market_stream_optimized2.c:403-429 | Which stream is open after any list of datagrams: that of the latest sound START since which no END of its sender has come |
| `BitmapRuns.ClosingsExact` | pynq/receive_market_stream_optimized2.c:403-428 | The closed streams of any list of datagrams, by position: each START with the first END of its sender before any other START, in order |
| `BitmapRuns.RunExact` | pynq/receive_market_stream_optimized2.c:376-464 | For every list of datagrams, on their bytes: the open stream has counted exactly the quotes and the invalid datagrams since its START, and each END that closes a stream makes one report, all of whose counts are given by position |
| `BitmapRuns.PassExact` | pynq/receive_market_stream_optimized2.c:328-333 | A closed stream passes exactly when its announced count is the planned one, no datagram between START and END is invalid, and the quotes between them are 1, ..., planned in that order |
| `LossyNetwork.EveryRun` | pynq/receive_market_stream_optimized2.c:376-464 | For every list of arrivals of a run, START and END lost, repeated and reordered like the quotes: one report for each END that closes a START, about the quotes between the two, and nothing else |
| `LossyNetwork.ReportExact` | pynq/receive_market_stream_optimized2.c:273-288 | A report's missing count is the number sent less the distinct quotes of its window, and its verdict is positive exactly on quotes 1, ..., planned in order |
| `LossyNetwork.LossyDelivery` | pynq/receive_market_stream_optimized2.c:422-464 | The run is reported once, with exactly the packets missing that were never delivered, if and only if one END closes one START and every delivered quote has a copy between them |
| `LossyNetwork.SingleStart` | pynq/receive_market_stream_optimized2.c:422-464 | If START arrives once, the one report is exact for the quotes up to the first END, and late quotes and repeated END markers change nothing |
| `LossyNetwork.RepeatedStart` | pynq/receive_market_stream_optimized2.c:403-419 | A repeated START makes the receiver report a delivered quote as missing |
| `LossyNetwork.WhenReported` | pynq/receive_market_stream_optimized2.c:410-415 | A run is reported exactly when its announced duration is at least 1 ms and an END closes a START |
| `LossyNetwork.ShortRunGoesUnreported` | host/send_market_stream_optimized.py:105-118 | A run that the sender accepts, 40 quotes at 100000 packets/s, and that is never reported whatever arrives |
| `Sequences.Accounting` | pynq/phase4_9_live_udp_recvmmsg_dma.py:444-462 | Every number advances, repeats or is late, and the distinct numbers are the advances plus the late ones |
| `Sequences.SpanAccounting` | pynq/phase4_9_live_udp_recvmmsg_dma.py:451-460 | highest - first + 1 = advances + skipped |
| `Sequences.MissingSet` | pynq/phase4_9_live_udp_recvmmsg_dma.py:451-462 | The numbers of first..highest never seen are the missing count less the late numbers above the first |
| `Sequences.CountersByPosition` | pynq/receive_market_stream_optimized2.c:452-464 | The duplicates are the arrivals that repeat an earlier number, and the out-of-order ones are the new numbers that come after a larger one |
| `Sequences.CleanIsIncreasing` | pynq/receive_market_stream_optimized2.c:452-464 | No duplicate and nothing late exactly when the numbers strictly increase |
| `Sequences.CleanIsConsecutive` | pynq/phase4_9_live_udp_recvmmsg_dma.py:444-460 | No missing, duplicate or late number exactly when the numbers are consecutive |
| `Sequences.FillsRange` | pynq/receive_market_stream_optimized2.c:328-333 | Increasing numbers that fill a range are that range in order |
| `LiveReceiver.CompareBatch` | pynq/phase4_9_live_udp_recvmmsg_dma.py:176-201 | Counts exactly the differing packets and reports the first five with their indices |
| `LiveReceiver.TrackSequence` | pynq/phase4_9_live_udp_recvmmsg_dma.py:441-462 | The set-based counters stay the statistics of the list of valid numbers |
| `LiveReceiver.CountReading` | pynq/phase4_9_live_udp_recvmmsg_dma.py:419-475 | The packet counters stay those of the datagrams consumed |
| `LiveReceiver.Receiver.FlushPending` | pynq/phase4_9_live_udp_recvmmsg_dma.py:338-381 | A transferred batch is counted, compared and cleared; a failed one stays and stops the run |
| `LiveReceiver.Receiver.HandleReading` | pynq/phase4_9_live_udp_recvmmsg_dma.py:406-489 | One datagram: counters, sequence accounting, queueing, and a flush on a full batch or at END |
| `LiveReceiver.Receiver.HandleCall` | pynq/phase4_9_live_udp_recvmmsg_dma.py:406-492 | The slots of one call in order, up to END or a DMA failure |
| `LiveReceiver.Receiver.ReceiveLoop` | pynq/phase4_9_live_udp_recvmmsg_dma.py:386-492 | The outcome does not depend on how recvmmsg splits the datagrams |
| `LiveReceiver.Receiver.Session` | pynq/phase4_9_live_udp_recvmmsg_dma.py:385-496 | The whole session, with timeout and final partial batch |
| `LiveReceiver.Receiver.Overall` | pynq/phase4_9_live_udp_recvmmsg_dma.py:522-541 | The verdict of the counters is that of the datagrams and batches |
| `LiveReceiver.FeedConcat` | pynq/phase4_9_live_udp_recvmmsg_dma.py:386-492 | Feeding datagrams composes over any split |
| `LiveTheorems.FeedBatched` | pynq/phase4_9_live_udp_recvmmsg_dma.py:477-486 | Completed batches, then the pending list, are the well-sized payloads in arrival order; while the stream is open every batch has exactly n packets and fewer than n wait; only the batch sent at END may be shorter; a failed batch is never sent again |
| `LiveTheorems.OpenCount` | pynq/phase4_9_live_udp_recvmmsg_dma.py:483-486 | While the stream is open, payloads = n * transfers + pending |
| `LiveTheorems.NothingLeftBehind` | pynq/phase4_9_live_udp_recvmmsg_dma.py:494-496 | On an exit without DMA error nothing is pending, every well-sized payload has passed in batches of n of which only the last may be shorter, and the number of transfers is payloads / n rounded up |
| `LiveTheorems.Consumed` | pynq/phase4_9_live_udp_recvmmsg_dma.py:386-492 | Datagrams are consumed in order up to and including the first valid END |
| `LiveTheorems.SequenceAccounting` | pynq/phase4_9_live_udp_recvmmsg_dma.py:441-462 | Conservation between the counters, the seen set and the span of numbers, for every stream |
| `LiveTheorems.AllIntact` | pynq/phase4_9_live_udp_recvmmsg_dma.py:366-372 | The mismatch total is zero exactly when every batch came back byte for byte |
| `LiveTheorems.DifferingIs` | pynq/phase4_9_live_udp_recvmmsg_dma.py:183-190 | The packets counted as mismatches are exactly those whose 32 bytes differ, each once and in order |
| `LiveTheorems.ExamplesAre` | pynq/phase4_9_live_udp_recvmmsg_dma.py:192-199 | The examples are the first five of them, with stream index and both contents |
| `LiveTheorems.PassMeansPerfect` | pynq/phase4_9_live_udp_recvmmsg_dma.py:522-541 | For every stream, batch size and DMA behaviour: a pass is exactly a valid END, only valid datagrams, consecutive numbers, a matching announced count if any, and intact batches |
| `LiveSlots.ReadIs` | pynq/phase4_9_live_udp_recvmmsg_dma.py:421-441 | A slot counts as a valid packet exactly when its length is 32, it is not truncated, and its bytes satisfy the protocol conditions, written out |
| `LiveSlots.SessionVerdict` | pynq/phase4_9_live_udp_recvmmsg_dma.py:385-541 | For every list of received slots, batch size and DMA behaviour the session passes exactly when the slots begin with a flawless stream: valid packets with numbers going up by one, only the last of type 5, a matching latest announcement, and every transfer of n packets intact |
| `LiveSlots.RunSession` | pynq/phase4_9_live_udp_recvmmsg_dma.py:385-541 | The receiver itself returns this verdict after any calls |
| `LiveSlots.CountersBySlot` | pynq/phase4_9_live_udp_recvmmsg_dma.py:419-475 | The valid and malformed counters are the numbers of consumed slots of each kind |
| `LiveTheorems.VerdictOnArrivals` | pynq/phase4_9_live_udp_recvmmsg_dma.py:441-496 | The verdict on any readings that stand for packets of one sender |
| `LiveTheorems.Delivery` | phase4/pynq/phase4_9_live_udp_sender.py:52-88 | For any loss, repetition and reordering of the sender's packets: a pass exactly when the arrivals begin with packets j..total-1 in order, for some j |
| `LiveTheorems.DeliveryAfterStart` | phase4/pynq/phase4_9_live_udp_sender.py:52-88 | If START arrives first, a pass is exactly lossless delivery in order |
| `LiveTheorems.LostStartPasses` | pynq/phase4_9_live_udp_recvmmsg_dma.py:522-525 | A concrete unnoticed loss: START and two quotes of a five-packet stream |
| `Senders.ConfigureAccepts` | host/send_market_stream_optimized.py:90-118 | Which rates and durations the sender accepts, and the settings it derives |
| `Senders.AnnouncedAsZero` | host/send_market_stream_optimized.py:90-118 | An accepted run is announced as 0 ms exactly when it lasts at most half a millisecond, which takes a rate above 1000 packets/s |
| `Senders.SendQuotes` | host/send_market_stream_optimized.py:160-196 | Through one reused buffer, quotes 1, 2, ... up to the interruption, each at its deadline |
| `Senders.SendEndMarkers` | host/send_market_stream_optimized.py:204-217 | Five END markers that announce the number of quotes sent |
| `Senders.SendHostStream` | host/send_market_stream_optimized.py:136-217 | START, the quotes sent, five END markers that announce their number, and each quote's deadline |
| `Senders.HostStreamSays` | host/send_market_stream_optimized.py:136-217 | Every byte of the host stream: START with rate, duration and count, quote s with its side, instrument, price and quantity, five END markers with the number sent |
| `Senders.SendLiveStream` | phase4/pynq/phase4_9_live_udp_sender.py:138-156 | START first, END last, quotes between, numbered from 1, at the fixed-interval deadlines |
| `Senders.LiveStreamSays` | phase4/pynq/phase4_9_live_udp_sender.py:52-88 | Every byte of the live stream |
| `Senders.SentIsValid` | phase4/pynq/phase4_9_live_udp_sender.py:58-75 | Everything either sender emits passes the receivers' protocol check |
| `Pacing.NeverLags` | host/send_market_stream_optimized.py:161-164 | A deadline never lags its exact time by a full nanosecond and never leads it |
| `Pacing.Gaps` | host/send_market_stream_optimized.py:161-164 | Consecutive deadlines are one whole-nanosecond period apart, or one more |
| `Pacing.Nondecreasing` | host/send_market_stream_optimized.py:161-164 | Deadlines never go back |
| `Pacing.EverySecond` | host/send_market_stream_optimized.py:161-164 | Every pps packets take exactly one second |
| `Pacing.Drift` | phase4/pynq/phase4_9_live_udp_sender.py:140-144 | The fixed-interval schedule is ahead of the exact one by exactly floor(i * (10^9 mod pps) / pps) ns at packet i |
| `Pacing.SchedulesAgree` | phase4/pynq/phase4_9_live_udp_sender.py:115-115 | The two schedules agree at every packet exactly when the rate divides a second |

## Left out

- Engine registers: the sums, pointers, count and state of a slot are one record per slot instead of one array per register; the two buffers are two-dimensional arrays as in the RTL.
- TDATA: a 32-bit word is modelled as its four byte lanes.
- Control packets fewer than four edges behind a quote at the engine wrapper: the parser never delivers them (`FullPath.Feed` proves it), so beyond `LateControlCancels` the wrapper's behaviour on them is not described.
- Reset in the middle of a parser or engine run: runs begin with a reset; one edge of reset is covered by the `Clock` methods.
- Counters of the C receiver: its 64-bit counters are unbounded here; they would need 2^64 datagrams to wrap.
- Rates, percentages, lateness counters, `rate_ok`, CPU and kernel statistics, periodic reports: wall-clock time and floating point; deadlines are kept, as integers.
- BitmapReceiver.Receiver.ResetStream: leaves out the time, report and call-statistics fields, because they feed only rates and printed statistics.
- BitmapReceiver.Receiver.FinishStream: leaves out the rates and `rate_ok`, because they are wall-clock time in floating point.
- LiveReceiver.CountReading: leaves out the counts per message type and the announced rate and duration, because they are only printed.
- Call statistics (calls made, messages returned, largest call): they are the only values that depend on how datagrams are split over calls.
- LiveReceiver.Receiver.FlushPending: does not keep the list of at most ten mismatch examples and the stream index of the pending batch, because they are only printed; `CompareBatch` models how examples are chosen.
- Sockets, signals, keyboard interrupts, `OSError` exits, argument parsing, allocation failure: input and output. An interrupted receive call is one that is absent.
- Senders.SendHostStream: the sender's interruption falls between two quotes; the moment between sending a quote and counting it as sent is not modelled, nor is a short write.
- The DMA engine and its driver: a transfer is either an error or some bytes written to a zeroed receive buffer, as an arbitrary function of the batch number and the bytes sent.
- Senders.Configure: rounds exact real products, where the sender rounds floating-point ones.
- Clocks: packet timestamps are an arbitrary function of the packet number.
- phase3/rtl/axis_passthrough.sv: the same elastic register without TKEEP and without parsing.
- The other senders, receivers, DMA scripts and the testbenches: earlier or repeated forms of the same logic.

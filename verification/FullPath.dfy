/** From bus beats to trading decisions: the packet parser in front of the engine. */
module FullPath {
  import opened Words
  import opened Hft1
  import opened PacketParser
  import opened ParserRuns
  import opened WeightedDecision
  import opened TradingEngine
  import opened EndToEnd
  import opened EngineWrapper
  import P = PacketFilter
  import L = LiveReceiver
  import LiveTheorems

  /** The fields of the packets that passed, in order. */
  function ValidFields(v: seq<Verdict>): seq<Fields> {
    if v == [] then []
    else if v[|v| - 1].Valid() then ValidFields(v[..|v| - 1]) + [v[|v| - 1].fields]
    else ValidFields(v[..|v| - 1])
  }

  /** The parser outputs as the engine samples them on the following edge. */
  function Sampled(c: Completion, f: Frame): P.FilterInput {
    P.FilterInput(true, c.packetValid, c.packetError, f.fields.Output())
  }

  /** What one more edge of the parser adds to the engine's input trace. */
  lemma FeedPush(feed: Edges, v: seq<Verdict>, c: Completion, f: Frame)
    requires Packets(feed) == ValidFields(v)
    requires c.packetValid ==> !c.packetError && c.errorFlags == 0
    requires c.packetError ==> c.errorFlags != 0
    ensures var next := feed + [Sampled(c, f)];
            && Packets(next) == ValidFields(v + Pulse(c, f))
            && (Sampled(c, f).Good() ==> |Pulse(c, f)| == 1)
            && Since(next) == (if IsQuote(Sampled(c, f)) then 0 else Since(feed) + 1)
            && (Roomy(next) <==> Roomy(feed) && (IsControl(Sampled(c, f)) ==> Since(feed) >= 3))
  {
    var next := feed + [Sampled(c, f)];
    assert next[..|feed|] == feed;
    var w := v + Pulse(c, f);
    if Pulse(c, f) == [] {
      assert w == v;
    } else {
      assert w[..|w| - 1] == v;
    }
  }

  /** The input trace so far belongs to the beats taken so far, and the last quote is at
      least as old as the packet under way. */
  ghost predicate Feeds(perPacket: bool, beats: seq<Beat>, feed: Edges) {
    && OutOfReset(feed) && Roomy(feed)
    && Since(feed) >= |beats| % 8
    && Packets(feed) == ValidFields(Verdicts(perPacket, beats))
  }

  /** A verdict takes the eighth beat of a packet. */
  lemma EighthBeat(taken: nat, next: nat, verdicts: nat)
    requires taken <= next <= taken + 1 && next / 8 == taken / 8 + verdicts
    ensures verdicts == 0 ==> next % 8 <= taken % 8 + 1
    ensures verdicts > 0 ==> taken % 8 == 7 && next % 8 == 0
  {
  }

  lemma FeedsNext(perPacket: bool, beats: seq<Beat>, more: seq<Beat>, feed: Edges, c: Completion, f: Frame)
    requires Feeds(perPacket, beats, feed) && |beats| <= |more| <= |beats| + 1
    requires Verdicts(perPacket, more) == Verdicts(perPacket, beats) + Pulse(c, f)
    requires c.packetValid ==> !c.packetError && c.errorFlags == 0
    requires c.packetError ==> c.errorFlags != 0
    ensures Feeds(perPacket, more, feed + [Sampled(c, f)])
  {
    FeedPush(feed, Verdicts(perPacket, beats), c, f);
    EighthBeat(|beats|, |more|, |Pulse(c, f)|);
  }

  /** One edge of the parser, and what the engine will sample of it. */
  method FeedEdge(p: Parser, source: seq<Beat>, taken: nat, e: Edge, ghost feed: Edges)
    returns (next: nat, i: P.FilterInput)
    requires p.Valid() && taken <= |source| && p.accepted == source[..taken]
    requires Feeds(p.tlastPerPacket, source[..taken], feed)
    modifies p
    ensures p.Valid() && taken <= next <= |source| && p.accepted == source[..next]
    ensures Feeds(p.tlastPerPacket, source[..next], feed + [i])
    ensures next <= taken + 1
    ensures e.offer && e.mReady && taken < |source| ==> next == taken + 1
  {
    var pulse, out;
    next, pulse, out := Exchange(p, source, taken, e);
    i := Sampled(p.completion, p.frame);
    FeedsNext(p.tlastPerPacket, source[..taken], source[..next], feed, p.completion, p.frame);
  }

  /** The counts of beats taken, edge by edge, together with the engine's input trace. */
  ghost predicate Marked(perPacket: bool, source: seq<Beat>, pattern: seq<Edge>, n: nat, marks: seq<nat>, feed: Edges)
    requires n <= |pattern|
  {
    && |marks| == n + 1 && |feed| == n
    && forall k :: 0 <= k <= n ==> MarkedAt(perPacket, source, pattern, k, marks[k], feed)
  }

  /** After `k` edges, of which some stalled. */
  ghost predicate MarkedAt(perPacket: bool, source: seq<Beat>, pattern: seq<Edge>, k: nat, taken: nat, feed: Edges)
    requires k <= |pattern| && k <= |feed|
  {
    && Min(|source|, Unstalled(pattern, k)) <= taken <= |source|
    && Feeds(perPacket, source[..taken], feed[..k])
  }

  lemma LastMark(perPacket: bool, source: seq<Beat>, pattern: seq<Edge>, n: nat, marks: seq<nat>, feed: Edges)
    requires n <= |pattern| && Marked(perPacket, source, pattern, n, marks, feed)
    ensures marks[n] <= |source| && Feeds(perPacket, source[..marks[n]], feed)
    ensures marks[n] >= Min(|source|, Unstalled(pattern, n))
  {
    assert MarkedAt(perPacket, source, pattern, n, marks[n], feed) && feed[..n] == feed;
  }

  lemma MarkedPush(perPacket: bool, source: seq<Beat>, pattern: seq<Edge>, n: nat, marks: seq<nat>, feed: Edges,
                   next: nat, i: P.FilterInput)
    requires n < |pattern| && Marked(perPacket, source, pattern, n, marks, feed)
    requires Min(|source|, Unstalled(pattern, n + 1)) <= next <= |source|
    requires Feeds(perPacket, source[..next], feed + [i])
    ensures Marked(perPacket, source, pattern, n + 1, marks + [next], feed + [i])
  {
    var longer := feed + [i];
    forall k | 0 <= k <= n + 1
      ensures MarkedAt(perPacket, source, pattern, k, (marks + [next])[k], longer)
    {
      if k <= n {
        assert MarkedAt(perPacket, source, pattern, k, marks[k], feed);
        assert longer[..k] == feed[..k];
      } else {
        assert longer[..k] == longer;
      }
    }
  }

  /** Sends beats through the parser under any stall pattern and collects the input
      trace of the engine.  A packet takes eight accepted beats, so control packets have
      room; and after every edge the good packets so far are the valid packets among the
      beats taken so far, in order. */
  method Feed(p: Parser, source: seq<Beat>, pattern: seq<Edge>) returns (marks: seq<nat>, feed: Edges)
    modifies p
    ensures Marked(p.tlastPerPacket, source, pattern, |pattern|, marks, feed)
  {
    p.Clock(ParserInput(false, Beat(Word(0, 0, 0, 0), 0, false), false, false));
    marks, feed := [0], [];
    var taken := 0;
    while |feed| < |pattern|
      invariant |feed| <= |pattern| && marks != [] && marks[|marks| - 1] == taken
      invariant p.Valid() && taken <= |source| && p.accepted == source[..taken]
      invariant Marked(p.tlastPerPacket, source, pattern, |feed|, marks, feed)
    {
      var n := |feed|;
      LastMark(p.tlastPerPacket, source, pattern, n, marks, feed);
      var next, i := FeedEdge(p, source, taken, pattern[n], feed);
      MarkedPush(p.tlastPerPacket, source, pattern, n, marks, feed, next, i);
      taken, marks, feed := next, marks + [next], feed + [i];
    }
  }

  /** The whole path, parser and engine at register level.  Whatever the stalls, and
      whatever the registers held before reset, the decisions signalled are exactly those
      that the one-packet-at-a-time specification takes on the valid packets among the
      beats that were taken seven edges ago; and every edge without a stall takes one. */
  method BeatsToDecisions(p: Parser, w: Wrapper, source: seq<Beat>, pattern: seq<Edge>)
    returns (settled: nat, signalled: seq<Decision>)
    requires w.Shape() && p !in w.Footprint()
    modifies p, w.Footprint()
    ensures settled <= |source|
    ensures |pattern| >= 7 ==> settled >= Min(|source|, Unstalled(pattern, |pattern| - 7))
    ensures signalled == Decisions(w.Configuration(), ValidFields(Verdicts(p.tlastPerPacket, source[..settled])))
  {
    var marks, feed := Feed(p, source, pattern);
    var k := Max(0, |pattern| - 7);
    assert MarkedAt(p.tlastPerPacket, source, pattern, k, marks[k], feed);
    LastMark(p.tlastPerPacket, source, pattern, |pattern|, marks, feed);
    assert Before(feed, 7) == feed[..k];
    settled := marks[k];
    signalled := w.Run(feed);
  }

  // ---------------------------------------------------------------- Batches from software

  function UnpackAll(packets: seq<Packet>): (fields: seq<Fields>)
    ensures |fields| == |packets|
  {
    seq(|packets|, i requires 0 <= i < |packets| => Unpack(packets[i]))
  }

  /** Those that the software check accepts. */
  function Accepted(fields: seq<Fields>): seq<Fields> {
    if fields == [] then [] else
      var n := |fields| - 1;
      Accepted(fields[..n]) + if ProtocolIsValid(fields[n]) then [fields[n]] else []
  }

  /** A DMA batch in batch mode hands the engine exactly the packets that the software
      check accepts. */
  lemma BatchFields(packets: seq<Packet>)
    ensures ValidFields(Verdicts(false, BatchBeats(packets))) == Accepted(UnpackAll(packets))
  {
    BatchVerdicts(packets);
    FieldsAgree(UnpackAll(packets), Verdicts(false, BatchBeats(packets)));
  }

  lemma {:induction false} FieldsAgree(fields: seq<Fields>, v: seq<Verdict>)
    requires |v| == |fields|
    requires forall j :: 0 <= j < |fields| ==>
               v[j].fields == fields[j] && (v[j].Valid() <==> ProtocolIsValid(fields[j]))
    ensures ValidFields(v) == Accepted(fields)
  {
    if fields != [] {
      FieldsAgree(fields[..|fields| - 1], v[..|v| - 1]);
    }
  }

  // ---------------------------------------------------------------- Whole sessions

  /** The beats of several DMA transfers in a row. */
  function SessionBeats(batches: seq<seq<Packet>>): (beats: seq<Beat>)
    ensures |beats| == 8 * |L.Concat(batches)|
  {
    if batches == [] then [] else SessionBeats(L.Init(batches)) + BatchBeats(L.Last(batches))
  }

  lemma FirstVerdict(perPacket: bool, a: seq<Beat>, b: seq<Beat>, k: nat)
    requires 8 * k + 8 <= |a|
    ensures Verdicts(perPacket, a + b)[k] == Verdicts(perPacket, a)[k]
  {
    assert PacketBeats(a + b, k) == PacketBeats(a, k);
  }

  lemma LaterVerdict(perPacket: bool, a: seq<Beat>, b: seq<Beat>, m: nat, k: nat)
    requires |a| == 8 * m && 8 * k + 8 <= |b|
    ensures |Verdicts(perPacket, a + b)| > m + k
    ensures Verdicts(perPacket, a + b)[m + k] == Verdicts(perPacket, b)[k]
  {
    var n := 8 * (m + k);
    assert n == |a| + 8 * k;
    assert (a + b)[n..n + 8] == b[8 * k..8 * k + 8];
    assert PacketBeats(a + b, m + k) == PacketBeats(b, k);
  }

  lemma Glue<T>(all: seq<T>, first: seq<T>, later: seq<T>)
    requires |all| == |first| + |later|
    requires forall k :: 0 <= k < |first| ==> all[k] == first[k]
    requires forall k :: 0 <= k < |later| ==> all[|first| + k] == later[k]
    ensures all == first + later
  {
    forall k | |first| <= k < |all|
      ensures all[k] == (first + later)[k]
    {
      assert all[|first| + (k - |first|)] == later[k - |first|];
    }
  }

  lemma VerdictsConcat(perPacket: bool, a: seq<Beat>, b: seq<Beat>, m: nat)
    requires |a| == 8 * m
    ensures Verdicts(perPacket, a + b) == Verdicts(perPacket, a) + Verdicts(perPacket, b)
  {
    forall k | 0 <= k < m
      ensures Verdicts(perPacket, a + b)[k] == Verdicts(perPacket, a)[k]
    {
      FirstVerdict(perPacket, a, b, k);
    }
    forall k | 0 <= k < |b| / 8
      ensures Verdicts(perPacket, a + b)[m + k] == Verdicts(perPacket, b)[k]
    {
      LaterVerdict(perPacket, a, b, m, k);
    }
    Glue(Verdicts(perPacket, a + b), Verdicts(perPacket, a), Verdicts(perPacket, b));
  }

  lemma {:induction false} ValidFieldsConcat(v: seq<Verdict>, w: seq<Verdict>)
    ensures ValidFields(v + w) == ValidFields(v) + ValidFields(w)
  {
    if w == [] {
      assert v + w == v;
    } else {
      ValidFieldsConcat(v, w[..|w| - 1]);
      assert (v + w)[..|v| + |w| - 1] == v + w[..|w| - 1];
    }
  }

  lemma AcceptedPush(a: seq<Fields>, f: Fields)
    ensures Accepted(a + [f]) == Accepted(a) + if ProtocolIsValid(f) then [f] else []
  {
    assert (a + [f])[..|a|] == a;
  }

  lemma {:induction false} AcceptedConcat(a: seq<Fields>, b: seq<Fields>)
    ensures Accepted(a + b) == Accepted(a) + Accepted(b)
  {
    if b == [] {
      assert a + b == a;
    } else {
      var c, f := b[..|b| - 1], b[|b| - 1];
      AcceptedConcat(a, c);
      AcceptedPush(a + c, f);
      assert a + b == a + c + [f];
    }
  }

  lemma UnpackConcat(p: seq<Packet>, q: seq<Packet>)
    ensures UnpackAll(p + q) == UnpackAll(p) + UnpackAll(q)
  {
  }

  /** However the packets are cut into transfers, the parser hands on those that the
      software check accepts. */
  lemma {:induction false} TransfersFields(batches: seq<seq<Packet>>)
    ensures ValidFields(Verdicts(false, SessionBeats(batches))) == Accepted(UnpackAll(L.Concat(batches)))
  {
    if batches != [] {
      var before, last := L.Init(batches), L.Last(batches);
      TransfersFields(before);
      VerdictsConcat(false, SessionBeats(before), BatchBeats(last), |L.Concat(before)|);
      ValidFieldsConcat(Verdicts(false, SessionBeats(before)), Verdicts(false, BatchBeats(last)));
      BatchFields(last);
      UnpackConcat(L.Concat(before), last);
      AcceptedConcat(UnpackAll(L.Concat(before)), UnpackAll(last));
    }
  }

  /** From datagrams to the engine: in a session without DMA error the beats of all
      transfers hand the engine exactly the fields of the well-sized datagrams consumed
      that the software check accepts, whatever the batch size. */
  lemma SessionFields(ds: seq<L.Reading>, n: nat, path: L.DmaPath)
    requires n > 0
    ensures var r := L.Finish(L.Feed(L.FRESH, ds, n, path), path);
            !r.dma.failed ==>
              ValidFields(Verdicts(false, SessionBeats(r.dma.batches))) == Accepted(UnpackAll(L.Payloads(r.log.slots)))
  {
    var r := L.Finish(L.Feed(L.FRESH, ds, n, path), path);
    LiveTheorems.NothingLeftBehind(ds, n, path);
    L.FeedSummarised(L.FRESH, ds, n, path);
    TransfersFields(r.dma.batches);
  }
}

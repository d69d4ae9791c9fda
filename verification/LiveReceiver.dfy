/** The live receiver: datagrams arrive in arbitrary receive-call portions, are
    validated and sequence-checked, and travel through the FPGA in DMA batches.

    The specification is a fold over single datagrams that keeps the list of
    datagrams consumed and the list of batches transferred; the class keeps the
    counters, the set of seen numbers and the pending batch. */
module LiveReceiver {
  import opened Words
  import opened Hft1
  import opened Sequences

  /** One receive slot: the datagram length, its truncation flag, and 32 bytes. */
  datatype Slot = Slot(length: uint32, truncated: bool, payload: Packet)

  /** How the loop reads a slot. */
  datatype Reading =
    | Malformed
    | Rejected(payload: Packet)
    | Accepted(payload: Packet, messageType: byte, sequence: uint32, quantity: uint32)
  {
    predicate IsStart() { Accepted? && messageType == STREAM_START }

    predicate IsEnd() { Accepted? && messageType == STREAM_END }
  }

  function Read(s: Slot): Reading {
    if s.length != PACKET_SIZE || s.truncated then Malformed else
      var f := Unpack(s.payload);
      if ProtocolIsValid(f) then Accepted(s.payload, f.messageType, f.sequence, f.quantity)
      else Rejected(s.payload)
  }

  function ReadAll(slots: seq<Slot>): (r: seq<Reading>)
    ensures |r| == |slots|
  {
    seq(|slots|, i requires 0 <= i < |slots| => Read(slots[i]))
  }

  /** The DMA path: the bytes written to the receive buffer for batch number k, or an
      error. */
  type DmaPath = (nat, seq<byte>) -> Option<seq<byte>>

  /** The compared part of the receive buffer, which is zeroed before the transfer. */
  function RxBuffer(written: seq<byte>, n: nat): (r: seq<byte>)
    ensures |r| == n
    ensures forall i :: 0 <= i < n ==> r[i] == if i < |written| then written[i] else 0
  {
    if |written| >= n then written[..n] else written + seq(n - |written|, _ => 0)
  }

  // ---------------------------------------------------------------- Datagram lists

  function Init<T>(s: seq<T>): seq<T>
    requires s != []
  {
    s[..|s| - 1]
  }

  function Last<T>(s: seq<T>): T
    requires s != []
  {
    s[|s| - 1]
  }

  /** The payloads of correct size, in arrival order. */
  function Payloads(ds: seq<Reading>): seq<Packet> {
    if ds == [] then []
    else if Last(ds).Malformed? then Payloads(Init(ds))
    else Payloads(Init(ds)) + [Last(ds).payload]
  }

  /** The sequence numbers of the valid packets, in arrival order. */
  function Numbers(ds: seq<Reading>): seq<nat> {
    if ds == [] then []
    else if Last(ds).Accepted? then Numbers(Init(ds)) + [Last(ds).sequence]
    else Numbers(Init(ds))
  }

  predicate EndSeen(ds: seq<Reading>) {
    ds != [] && (Last(ds).IsEnd() || EndSeen(Init(ds)))
  }

  /** The packet count announced by the latest valid STREAM_START. */
  function Announced(ds: seq<Reading>): Option<uint32> {
    if ds == [] then None
    else if Last(ds).IsStart() then Some(Last(ds).quantity)
    else Announced(Init(ds))
  }

  // ---------------------------------------------------------------- Batches

  function Bytes(packets: seq<Packet>): (b: seq<byte>)
    ensures |b| == PACKET_SIZE * |packets|
  {
    if packets == [] then [] else Bytes(Init(packets)) + Last(packets)
  }

  function Concat(batches: seq<seq<Packet>>): seq<Packet> {
    if batches == [] then [] else Concat(Init(batches)) + Last(batches)
  }

  function Piece(b: seq<byte>, k: nat): seq<byte>
    requires PACKET_SIZE * (k + 1) <= |b|
  {
    b[PACKET_SIZE * k..PACKET_SIZE * (k + 1)]
  }

  /** The packets, among the first n, whose bytes came back different. */
  function Differing(expected: seq<byte>, received: seq<byte>, n: nat): (d: seq<nat>)
    requires PACKET_SIZE * n <= |expected| && |received| == |expected|
    ensures forall i :: 0 <= i < |d| ==> d[i] < n
  {
    if n == 0 then []
    else if Piece(expected, n - 1) != Piece(received, n - 1) then Differing(expected, received, n - 1) + [n - 1]
    else Differing(expected, received, n - 1)
  }

  datatype Example = Example(index: nat, expected: seq<byte>, received: seq<byte>)

  function Examples(expected: seq<byte>, received: seq<byte>, first: nat, differing: seq<nat>): seq<Example>
    requires |received| == |expected|
    requires forall i :: 0 <= i < |differing| ==> PACKET_SIZE * (differing[i] + 1) <= |expected|
  {
    seq(|differing|, i requires 0 <= i < |differing| =>
      Example(first + differing[i], Piece(expected, differing[i]), Piece(received, differing[i])))
  }

  function FirstFive<T>(s: seq<T>): seq<T> { if |s| <= 5 then s else s[..5] }

  lemma ExamplesPush(expected: seq<byte>, received: seq<byte>, first: nat, d: seq<nat>, k: nat)
    requires |received| == |expected|
    requires forall i :: 0 <= i < |d| ==> PACKET_SIZE * (d[i] + 1) <= |expected|
    requires PACKET_SIZE * (k + 1) <= |expected|
    ensures Examples(expected, received, first, FirstFive(d + [k]))
         == Examples(expected, received, first, FirstFive(d))
          + if |d| < 5 then [Example(first + k, Piece(expected, k), Piece(received, k))] else []
  {
  }

  /** `compare_batch`: how many packets differ, and the first five of them. */
  method CompareBatch(expected: seq<byte>, received: seq<byte>, firstStreamIndex: nat)
    returns (mismatches: nat, examples: seq<Example>)
    requires |expected| == |received|
    ensures var d := Differing(expected, received, |expected| / PACKET_SIZE);
            mismatches == |d| && examples == Examples(expected, received, firstStreamIndex, FirstFive(d))
  {
    mismatches, examples := 0, [];
    var packetCount := |expected| / PACKET_SIZE;
    var localIndex := 0;
    ghost var d: seq<nat> := [];
    while localIndex < packetCount
      invariant 0 <= localIndex <= packetCount
      invariant d == Differing(expected, received, localIndex)
      invariant mismatches == |d|
      invariant examples == Examples(expected, received, firstStreamIndex, FirstFive(d))
    {
      assert PACKET_SIZE * (localIndex + 1) <= |expected|;
      var expectedPacket := Piece(expected, localIndex);
      var receivedPacket := Piece(received, localIndex);
      if expectedPacket != receivedPacket {
        ExamplesPush(expected, received, firstStreamIndex, d, localIndex);
        mismatches := mismatches + 1;
        if |examples| < 5 {
          examples := examples + [Example(firstStreamIndex + localIndex, expectedPacket, receivedPacket)];
        }
        d := d + [localIndex];
      }
      localIndex := localIndex + 1;
    }
  }

  /** What came back of one batch: the packets that differ, if nothing failed. */
  function BatchMismatches(k: nat, batch: seq<Packet>, path: DmaPath): nat {
    var sent := Bytes(batch);
    var back := path(k, sent);
    if back.None? then 0 else |Differing(sent, RxBuffer(back.value, |sent|), |batch|)|
  }

  /** Packets that came back different, over all transferred batches. */
  function Mismatches(batches: seq<seq<Packet>>, path: DmaPath): nat {
    if batches == [] then 0
    else Mismatches(Init(batches), path) + BatchMismatches(|batches| - 1, Last(batches), path)
  }

  // ---------------------------------------------------------------- The fold

  /** The datagrams consumed; the other fields summarise them. */
  datatype Log = Log(
    slots: seq<Reading>, numbers: seq<nat>, payloads: seq<Packet>, announced: Option<uint32>, ended: bool)
  {
    ghost predicate Summarised() {
      && numbers == Numbers(slots)
      && payloads == Payloads(slots)
      && announced == Announced(slots)
      && ended == EndSeen(slots)
    }
  }

  /** The batches that went through the DMA, with a summary, and the waiting packets. */
  datatype Transfers = Transfers(
    batches: seq<seq<Packet>>, passed: nat, mismatches: nat, pending: seq<Packet>, failed: bool)
  {
    ghost predicate Summarised(path: DmaPath) {
      && passed == |Concat(batches)|
      && mismatches == Mismatches(batches, path)
    }
  }

  datatype Run = Run(log: Log, dma: Transfers) {
    predicate Stopped() { dma.failed || log.ended }
  }

  const FRESH: Run := Run(Log([], [], [], None, false), Transfers([], 0, 0, [], false))

  /** A datagram is counted. */
  function Note(l: Log, s: Reading): Log {
    Log(l.slots + [s],
        if s.Accepted? then l.numbers + [s.sequence] else l.numbers,
        if s.Malformed? then l.payloads else l.payloads + [s.payload],
        if s.IsStart() then Some(s.quantity) else l.announced,
        s.IsEnd() || l.ended)
  }

  function Flush(t: Transfers, path: DmaPath): Transfers {
    if t.pending == [] then t
    else if path(|t.batches|, Bytes(t.pending)).None? then t.(failed := true)
    else Transfers(t.batches + [t.pending], t.passed + |t.pending|,
                   t.mismatches + BatchMismatches(|t.batches|, t.pending, path), [], false)
  }

  /** A packet is queued; a full batch, or the last packet, sends the queue off. */
  function Queue(t: Transfers, p: Packet, isLast: bool, batchPackets: nat, path: DmaPath): Transfers {
    var u := t.(pending := t.pending + [p]);
    if |u.pending| == batchPackets || isLast then Flush(u, path) else u
  }

  /** One datagram; nothing is consumed once the run has stopped. */
  function Take(r: Run, s: Reading, batchPackets: nat, path: DmaPath): Run {
    if r.Stopped() then r
    else if s.Malformed? then Run(Note(r.log, s), r.dma)
    else Run(Note(r.log, s), Queue(r.dma, s.payload, Note(r.log, s).ended, batchPackets, path))
  }

  function Feed(r: Run, ds: seq<Reading>, batchPackets: nat, path: DmaPath): Run {
    if ds == [] then r else Take(Feed(r, Init(ds), batchPackets, path), Last(ds), batchPackets, path)
  }

  /** The end of the program: a partial batch is still transferred. */
  function Finish(r: Run, path: DmaPath): Run {
    if r.dma.failed then r else r.(dma := Flush(r.dma, path))
  }

  lemma {:induction false} FeedConcat(r: Run, a: seq<Reading>, b: seq<Reading>, n: nat, path: DmaPath)
    ensures Feed(r, a + b, n, path) == Feed(Feed(r, a, n, path), b, n, path)
  {
    if b == [] {
      assert a + b == a;
    } else {
      FeedConcat(r, a, Init(b), n, path);
      assert Init(a + b) == a + Init(b) && Last(a + b) == Last(b);
    }
  }

  lemma {:induction false} StoppedStays(r: Run, ds: seq<Reading>, n: nat, path: DmaPath)
    requires r.Stopped()
    ensures Feed(r, ds, n, path) == r
  {
    if ds != [] {
      StoppedStays(r, Init(ds), n, path);
    }
  }

  lemma NoteSummarises(l: Log, s: Reading)
    requires l.Summarised()
    ensures Note(l, s).Summarised()
  {
    assert Init(l.slots + [s]) == l.slots;
  }

  lemma FlushSummarises(t: Transfers, path: DmaPath)
    requires t.Summarised(path)
    ensures Flush(t, path).Summarised(path)
  {
    assert Init(t.batches + [t.pending]) == t.batches;
  }

  lemma {:induction false} FeedSummarised(r: Run, ds: seq<Reading>, n: nat, path: DmaPath)
    requires r.log.Summarised() && r.dma.Summarised(path)
    ensures Feed(r, ds, n, path).log.Summarised() && Feed(r, ds, n, path).dma.Summarised(path)
  {
    if ds != [] {
      FeedSummarised(r, Init(ds), n, path);
      var before, s := Feed(r, Init(ds), n, path), Last(ds);
      NoteSummarises(before.log, s);
      if !s.Malformed? {
        FlushSummarises(before.dma.(pending := before.dma.pending + [s.payload]), path);
      }
    }
  }

  // ---------------------------------------------------------------- The verdict

  /** `overall_pass`, on the specification's state. */
  predicate OverallPass(r: Run, timedOut: bool) {
    && r.log.ended
    && !timedOut
    && |r.log.slots| > 0
    && |r.log.numbers| == |r.log.slots|
    && |r.log.payloads| == |r.log.slots|
    && Skipped(r.log.numbers) == 0 && Duplicates(r.log.numbers) == 0 && OutOfOrder(r.log.numbers) == 0
    && r.dma.passed == |r.log.slots|
    && r.dma.mismatches == 0
    && !r.dma.failed
    && (r.log.announced.None? || r.log.announced.value == |r.log.slots|)
  }

  // ---------------------------------------------------------------- The receiver

  datatype Counts = Counts(
    received: nat, valid: nat, invalid: nat, malformed: nat,
    planned: Option<uint32>, streamEndSeen: bool)

  /** The counters describe the datagrams consumed. */
  ghost predicate CountsMatch(c: Counts, l: Log) {
    && c.received == |l.slots|
    && c.valid == |l.numbers|
    && c.invalid == c.received - c.valid
    && c.malformed == c.received - |l.payloads|
    && c.planned == l.announced
    && c.streamEndSeen == l.ended
  }

  datatype Tracker = Tracker(
    missing: nat, duplicate: nat, outOfOrder: nat, seen: set<nat>, highest: Option<nat>)

  /** The sequence counters are the statistics of a list of numbers. */
  ghost predicate Tracks(t: Tracker, q: seq<nat>) {
    && t.missing == Skipped(q)
    && t.duplicate == Duplicates(q)
    && t.outOfOrder == OutOfOrder(q)
    && t.seen == SetOf(q)
    && t.highest == if q == [] then None else Some(Highest(q))
  }

  datatype DmaCounts = DmaCounts(batches: nat, packets: nat, errors: nat, mismatched: nat, failed: bool)

  ghost predicate DmaMatch(d: DmaCounts, t: Transfers) {
    && d.batches == |t.batches|
    && d.packets == t.passed
    && d.mismatched == t.mismatches
    && d.failed == t.failed
    && d.errors == (if t.failed then 1 else 0)
  }

  /** Sequence accounting of one valid packet. */
  method TrackSequence(t: Tracker, sequence: nat, ghost q: seq<nat>) returns (u: Tracker)
    requires Tracks(t, q)
    ensures Tracks(u, q + [sequence])
  {
    PushSkipped(q, sequence);
    u := t;
    if sequence in u.seen {
      u := u.(duplicate := u.duplicate + 1);
    } else if u.highest.Some? && sequence < u.highest.value {
      u := u.(outOfOrder := u.outOfOrder + 1);
    } else {
      if u.highest.Some? && sequence > u.highest.value + 1 {
        u := u.(missing := u.missing + (sequence - u.highest.value - 1));
      }
      u := u.(highest := Some(sequence));
    }
    u := u.(seen := u.seen + {sequence});
  }

  /** The counters after one datagram. */
  method CountReading(c: Counts, s: Reading, ghost l: Log) returns (d: Counts)
    requires CountsMatch(c, l)
    ensures CountsMatch(d, Note(l, s))
  {
    d := c.(received := c.received + 1);
    if s.Malformed? {
      d := d.(malformed := d.malformed + 1, invalid := d.invalid + 1);
    } else if s.Accepted? {
      d := d.(valid := d.valid + 1);
      if s.messageType == STREAM_START {
        d := d.(planned := Some(s.quantity));
      } else if s.messageType == STREAM_END {
        d := d.(streamEndSeen := true);
      }
    } else {
      d := d.(invalid := d.invalid + 1);
    }
  }

  class Receiver {
    const batchPackets: nat
    const path: DmaPath
    var counts: Counts
    var tracker: Tracker
    var dmaCounts: DmaCounts
    var pendingPackets: seq<Packet>
    var timedOut: bool
    ghost var run: Run

    ghost predicate Valid()
      reads this
    {
      && CountsMatch(counts, run.log)
      && Tracks(tracker, run.log.numbers)
      && DmaMatch(dmaCounts, run.dma)
      && pendingPackets == run.dma.pending
    }

    constructor (n: nat, dmaPath: DmaPath)
      requires n > 0
      ensures Valid() && run == FRESH && batchPackets == n && path == dmaPath && !timedOut
    {
      batchPackets, path := n, dmaPath;
      counts := Counts(0, 0, 0, 0, None, false);
      tracker := Tracker(0, 0, 0, {}, None);
      dmaCounts := DmaCounts(0, 0, 0, 0, false);
      pendingPackets, timedOut := [], false;
      run := FRESH;
    }

    /** `flush_pending`: false means the transfer failed. */
    method FlushPending() returns (ok: bool)
      requires DmaMatch(dmaCounts, run.dma) && pendingPackets == run.dma.pending && !run.dma.failed
      modifies this`pendingPackets, this`dmaCounts, this`run
      ensures DmaMatch(dmaCounts, run.dma) && pendingPackets == run.dma.pending
      ensures run == old(run).(dma := Flush(old(run).dma, path))
      ensures ok == !run.dma.failed
    {
      ok := true;
      if pendingPackets != [] {
        var expected := Bytes(pendingPackets);
        var back := path(dmaCounts.batches, expected);
        ok := back.Some?;
        if !ok {
          dmaCounts := dmaCounts.(errors := dmaCounts.errors + 1, failed := true);
        } else {
          var mismatches, _ := CompareBatch(expected, RxBuffer(back.value, |expected|), 0);
          dmaCounts := dmaCounts.(mismatched := dmaCounts.mismatched + mismatches,
                                  batches := dmaCounts.batches + 1,
                                  packets := dmaCounts.packets + |pendingPackets|);
          pendingPackets := [];
        }
        run := run.(dma := Flush(run.dma, path));
      }
    }

    /** The body of the receive loop for one slot, once it has been read. */
    method HandleReading(r: Reading)
      requires Valid() && !run.Stopped()
      modifies this
      ensures Valid() && run == Take(old(run), r, batchPackets, path)
      ensures timedOut == old(timedOut)
    {
      counts := CountReading(counts, r, run.log);
      if r.Accepted? {
        tracker := TrackSequence(tracker, r.sequence, run.log.numbers);
      }
      run := run.(log := Note(run.log, r));
      if !r.Malformed? {
        pendingPackets := pendingPackets + [r.payload];
        run := run.(dma := run.dma.(pending := pendingPackets));
        if |pendingPackets| == batchPackets || counts.streamEndSeen {
          var _ := FlushPending();
        }
      }
    }

    /** One receive call: its slots in order, up to the end of the stream or a DMA
        failure. */
    method HandleCall(readings: seq<Reading>)
      requires Valid() && !run.Stopped()
      modifies this
      ensures Valid() && run == Feed(old(run), readings, batchPackets, path)
      ensures timedOut == old(timedOut)
    {
      var index := 0;
      while index < |readings| && !counts.streamEndSeen && !dmaCounts.failed
        invariant 0 <= index <= |readings|
        invariant Valid() && timedOut == old(timedOut)
        invariant run == FeedTo(old(run), readings, index, batchPackets, path)
      {
        HandleReading(readings[index]);
        index := index + 1;
      }
      UnreadRest(old(run), readings, index, batchPackets, path);
    }

    /** The receive loop: calls until the end of the stream or a DMA failure. */
    method ReceiveLoop(calls: seq<seq<Reading>>)
      requires Valid() && !run.Stopped()
      modifies this
      ensures Valid() && run == Feed(old(run), Flatten(calls), batchPackets, path)
      ensures timedOut == old(timedOut)
    {
      var n := 0;
      while n < |calls| && !counts.streamEndSeen && !dmaCounts.failed
        invariant 0 <= n <= |calls|
        invariant Valid() && timedOut == old(timedOut)
        invariant run == CallsTo(old(run), calls, n, batchPackets, path)
      {
        HandleCall(calls[n]);
        n := n + 1;
      }
      UnreadCalls(old(run), calls, n, batchPackets, path);
    }

    /** The whole session.  `calls` are the receive calls that return before the
        socket times out; an interrupted call is simply absent.  The outcome is that
        of the datagrams one after another, however the calls cut them up. */
    method Session(calls: seq<seq<Slot>>)
      requires Valid() && run == FRESH && !timedOut
      modifies this
      ensures Valid()
      ensures var fed := Feed(FRESH, Flatten(ReadCalls(calls)), batchPackets, path);
              run == Finish(fed, path) && timedOut == !fed.Stopped()
    {
      ReceiveLoop(ReadCalls(calls));
      if !counts.streamEndSeen && !dmaCounts.failed {
        timedOut := true;
      }
      if !dmaCounts.failed {
        var _ := FlushPending();
      }
    }

    /** `overall_pass`, from the counters. */
    method Overall() returns (pass: bool)
      requires Valid()
      ensures pass == OverallPass(run, timedOut)
    {
      pass :=
        && counts.streamEndSeen
        && !timedOut
        && counts.received > 0
        && counts.valid == counts.received
        && counts.malformed == 0
        && tracker.missing == 0
        && tracker.duplicate == 0
        && tracker.outOfOrder == 0
        && dmaCounts.packets == counts.received
        && dmaCounts.mismatched == 0
        && dmaCounts.errors == 0
        && !dmaCounts.failed
        && (counts.planned.None? || counts.received == counts.planned.value);
    }
  }

  function ReadCalls(calls: seq<seq<Slot>>): (r: seq<seq<Reading>>)
    ensures |r| == |calls|
    ensures forall i :: 0 <= i < |calls| ==> r[i] == ReadAll(calls[i])
  {
    seq(|calls|, i requires 0 <= i < |calls| => ReadAll(calls[i]))
  }

  /** All datagrams of all calls, in order. */
  function Flatten<T>(calls: seq<seq<T>>): seq<T> {
    if calls == [] then [] else Flatten(Init(calls)) + Last(calls)
  }

  /** The run after the first `k` datagrams. */
  function FeedTo(r: Run, ds: seq<Reading>, k: nat, batchPackets: nat, path: DmaPath): Run
    requires k <= |ds|
  {
    if k == 0 then r else Take(FeedTo(r, ds, k - 1, batchPackets, path), ds[k - 1], batchPackets, path)
  }

  /** The run after the datagrams of the first `k` calls. */
  function CallsTo(r: Run, calls: seq<seq<Reading>>, k: nat, batchPackets: nat, path: DmaPath): Run
    requires k <= |calls|
  {
    if k == 0 then r else Feed(CallsTo(r, calls, k - 1, batchPackets, path), calls[k - 1], batchPackets, path)
  }

  lemma FeedPush(r: Run, ds: seq<Reading>, s: Reading, batchPackets: nat, path: DmaPath)
    ensures Feed(r, ds + [s], batchPackets, path) == Take(Feed(r, ds, batchPackets, path), s, batchPackets, path)
  {
    assert Init(ds + [s]) == ds;
  }

  lemma {:induction false} FeedToIsFeed(r: Run, ds: seq<Reading>, k: nat, batchPackets: nat, path: DmaPath)
    requires k <= |ds|
    ensures FeedTo(r, ds, k, batchPackets, path) == Feed(r, ds[..k], batchPackets, path)
  {
    if k > 0 {
      FeedToIsFeed(r, ds, k - 1, batchPackets, path);
      FeedPush(r, ds[..k - 1], ds[k - 1], batchPackets, path);
      assert ds[..k] == ds[..k - 1] + [ds[k - 1]];
    }
  }

  lemma {:induction false} CallsToIsFeed(r: Run, calls: seq<seq<Reading>>, k: nat, batchPackets: nat, path: DmaPath)
    requires k <= |calls|
    ensures CallsTo(r, calls, k, batchPackets, path) == Feed(r, Flatten(calls[..k]), batchPackets, path)
  {
    if k > 0 {
      CallsToIsFeed(r, calls, k - 1, batchPackets, path);
      FlattenPush(calls, k - 1);
      FeedConcat(r, Flatten(calls[..k - 1]), calls[k - 1], batchPackets, path);
    }
  }

  /** Datagrams that are never looked at because the run has stopped change nothing. */
  lemma UnreadRest(r: Run, ds: seq<Reading>, k: nat, batchPackets: nat, path: DmaPath)
    requires k <= |ds|
    requires k == |ds| || FeedTo(r, ds, k, batchPackets, path).Stopped()
    ensures Feed(r, ds, batchPackets, path) == FeedTo(r, ds, k, batchPackets, path)
  {
    FeedToIsFeed(r, ds, k, batchPackets, path);
    if k == |ds| {
      assert ds[..k] == ds;
    } else {
      assert ds == ds[..k] + ds[k..];
      FeedConcat(r, ds[..k], ds[k..], batchPackets, path);
      StoppedStays(FeedTo(r, ds, k, batchPackets, path), ds[k..], batchPackets, path);
    }
  }

  /** The calls that are never made because the run has stopped change nothing. */
  lemma UnreadCalls(r: Run, calls: seq<seq<Reading>>, k: nat, batchPackets: nat, path: DmaPath)
    requires k <= |calls|
    requires k == |calls| || CallsTo(r, calls, k, batchPackets, path).Stopped()
    ensures Feed(r, Flatten(calls), batchPackets, path) == CallsTo(r, calls, k, batchPackets, path)
  {
    CallsToIsFeed(r, calls, k, batchPackets, path);
    if k == |calls| {
      assert calls[..k] == calls;
    } else {
      assert calls == calls[..k] + calls[k..];
      FlattenConcat(calls[..k], calls[k..]);
      FeedConcat(r, Flatten(calls[..k]), Flatten(calls[k..]), batchPackets, path);
      StoppedStays(CallsTo(r, calls, k, batchPackets, path), Flatten(calls[k..]), batchPackets, path);
    }
  }

  lemma FlattenPush<T>(calls: seq<seq<T>>, k: nat)
    requires k < |calls|
    ensures Flatten(calls[..k + 1]) == Flatten(calls[..k]) + calls[k]
  {
    assert Init(calls[..k + 1]) == calls[..k];
  }

  lemma {:induction false} FlattenConcat<T>(a: seq<seq<T>>, b: seq<seq<T>>)
    ensures Flatten(a + b) == Flatten(a) + Flatten(b)
  {
    if b == [] {
      assert a + b == a;
    } else {
      FlattenConcat(a, Init(b));
      assert Init(a + b) == a + Init(b);
    }
  }
}

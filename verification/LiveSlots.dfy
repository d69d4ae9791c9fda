/** The verdict of a whole live session, stated on the received slots and their bytes. */
module LiveSlots {
  import opened Words
  import opened Hft1
  import opened Sequences
  import opened LiveReceiver
  import opened LiveTheorems

  // ---------------------------------------------------------------- DMA transfers

  /** Packets n * b, n * b + 1, ... of a list, n of them or as many as there are. */
  function Chunk(p: seq<Packet>, n: nat, b: nat): seq<Packet>
    requires n * b <= |p|
  {
    p[n * b..Min(n * b + n, |p|)]
  }

  /** Every transfer of n packets at a time comes back byte for byte. */
  ghost predicate ChunksIntact(p: seq<Packet>, n: nat, path: DmaPath) {
    forall b: nat :: n * b < |p| ==> Intact(b, Chunk(p, n, b), path)
  }

  lemma SplitConcat(batches: seq<seq<Packet>>)
    requires batches != []
    ensures Concat(batches) == Concat(Init(batches)) + Last(batches)
  {
  }

  lemma ChunkOfFront(a: seq<Packet>, c: seq<Packet>, n: nat, b: nat)
    requires n * b + n <= |a|
    ensures Chunk(a + c, n, b) == Chunk(a, n, b)
  {
  }

  lemma ChunkAtEnd(a: seq<Packet>, c: seq<Packet>, n: nat, b: nat)
    requires |a| == n * b && |c| <= n
    ensures Chunk(a + c, n, b) == c
  {
  }

  /** Full batches are the chunks of their concatenation. */
  lemma {:induction false} FullBatchIsChunk(batches: seq<seq<Packet>>, n: nat, path: DmaPath, b: nat)
    requires n > 0 && AllFull(batches, n, path) && b < |batches|
    ensures n * b + n <= |Concat(batches)|
    ensures batches[b] == Chunk(Concat(batches), n, b)
  {
    var k := |batches| - 1;
    assert Transferred(k, batches[k], n, path);
    InitFull(batches, n, path);
    FullCount(Init(batches), n, path);
    SplitConcat(batches);
    if b < k {
      FullBatchIsChunk(Init(batches), n, path, b);
      ChunkOfFront(Concat(Init(batches)), Last(batches), n, b);
    } else {
      ChunkAtEnd(Concat(Init(batches)), Last(batches), n, b);
    }
  }

  lemma InitFull(batches: seq<seq<Packet>>, n: nat, path: DmaPath)
    requires batches != [] && AllFull(batches, n, path)
    ensures AllFull(Init(batches), n, path)
  {
    forall k | 0 <= k < |batches| - 1
      ensures Transferred(k, Init(batches)[k], n, path)
    {
      assert Transferred(k, batches[k], n, path);
    }
  }

  /** So are those of a session, of which the last may be shorter. */
  lemma BatchIsChunk(batches: seq<seq<Packet>>, n: nat, path: DmaPath, b: nat)
    requires n > 0 && FullButLast(batches, n, path) && b < |batches|
    ensures n * b < |Concat(batches)|
    ensures batches[b] == Chunk(Concat(batches), n, b)
  {
    var k := |batches| - 1;
    FullCount(Init(batches), n, path);
    SplitConcat(batches);
    if b < k {
      FullBatchIsChunk(Init(batches), n, path, b);
      ChunkOfFront(Concat(Init(batches)), Last(batches), n, b);
    } else {
      ChunkAtEnd(Concat(Init(batches)), Last(batches), n, b);
    }
  }

  lemma Below(n: nat, b: nat, count: nat)
    requires n > 0 && n * b < n * count
    ensures b < count
  {
    assert n * (count - b) == n * count - n * b;
    assert b >= count ==> n * (count - b) <= 0;
  }

  /** All transfers came back intact exactly when all chunks do. */
  lemma IntactChunks(batches: seq<seq<Packet>>, n: nat, path: DmaPath)
    requires n > 0 && FullButLast(batches, n, path)
    ensures (forall k :: 0 <= k < |batches| ==> Intact(k, batches[k], path)) <==> ChunksIntact(Concat(batches), n, path)
  {
    var p := Concat(batches);
    TransferCount(batches, n, path);
    forall b: nat | n * b < |p|
      ensures b < |batches| && batches[b] == Chunk(p, n, b)
    {
      Below(n, b, |batches|);
      BatchIsChunk(batches, n, path, b);
    }
    forall k | 0 <= k < |batches|
      ensures n * k < |p| && batches[k] == Chunk(p, n, k)
    {
      BatchIsChunk(batches, n, path, k);
    }
  }

  // ---------------------------------------------------------------- Accepted datagrams

  function NumbersOf(c: seq<Reading>): (q: seq<nat>)
    requires AllAccepted(c)
    ensures |q| == |c|
  {
    seq(|c|, i requires 0 <= i < |c| => c[i].sequence)
  }

  function PayloadsOf(c: seq<Reading>): (p: seq<Packet>)
    requires AllAccepted(c)
    ensures |p| == |c|
  {
    seq(|c|, i requires 0 <= i < |c| => c[i].payload)
  }

  lemma {:induction false} AcceptedLists(c: seq<Reading>)
    requires AllAccepted(c)
    ensures Numbers(c) == NumbersOf(c) && Payloads(c) == PayloadsOf(c)
  {
    if c != [] {
      AcceptedLists(Init(c));
    }
  }

  /** The latest STREAM_START. */
  predicate LastStart(c: seq<Reading>, i: nat) {
    i < |c| && c[i].IsStart() && forall j :: i < j < |c| ==> !c[j].IsStart()
  }

  lemma {:induction false} AnnouncedIs(c: seq<Reading>, i: nat)
    requires LastStart(c, i)
    ensures Announced(c) == Some(c[i].quantity)
  {
    if i < |c| - 1 {
      assert LastStart(Init(c), i);
      AnnouncedIs(Init(c), i);
    }
  }

  lemma {:induction false} NeverAnnounced(c: seq<Reading>)
    ensures Announced(c).Some? ==> exists i :: LastStart(c, i)
  {
    if c != [] {
      if Last(c).IsStart() {
        assert LastStart(c, |c| - 1);
      } else {
        NeverAnnounced(Init(c));
        if i :| LastStart(Init(c), i) {
          assert LastStart(c, i);
        }
      }
    }
  }

  /** The latest announced count, if any, is the number of datagrams. */
  predicate CountMatches(c: seq<Reading>) {
    forall i :: 0 <= i < |c| && LastStart(c, i) ==> c[i].quantity == |c|
  }

  lemma CountMatchesIs(c: seq<Reading>)
    ensures CountMatches(c) <==> (Announced(c).None? || Announced(c).value == |c|)
  {
    NeverAnnounced(c);
    forall i: nat | LastStart(c, i)
      ensures Announced(c) == Some(c[i].quantity)
    {
      AnnouncedIs(c, i);
    }
  }

  predicate OneByOne(c: seq<Reading>)
    requires AllAccepted(c)
  {
    forall i :: 0 <= i < |c| - 1 ==> c[i + 1].sequence == c[i].sequence + 1
  }

  lemma {:induction false} OneByOneIs(c: seq<Reading>)
    requires AllAccepted(c)
    ensures OneByOne(c) <==> Consecutive(Numbers(c))
  {
    AcceptedLists(c);
    var q := NumbersOf(c);
    if OneByOne(c) {
      forall i | 0 <= i < |q|
        ensures q[i] == q[0] + i
      {
        Climbs(c, i);
      }
    }
    if Consecutive(q) {
      forall i | 0 <= i < |c| - 1
        ensures c[i + 1].sequence == c[i].sequence + 1
      {
        assert q[i + 1] == q[0] + i + 1 && q[i] == q[0] + i;
      }
    }
  }

  lemma {:induction false} Climbs(c: seq<Reading>, i: nat)
    requires AllAccepted(c) && OneByOne(c) && i < |c|
    ensures c[i].sequence == c[0].sequence + i
  {
    if i > 0 {
      Climbs(c, i - 1);
      assert c[i - 1 + 1].sequence == c[i - 1].sequence + 1;
    }
  }

  // ---------------------------------------------------------------- The verdict on readings

  /** What a session must have read, up to its first END. */
  ghost predicate Flawless(c: seq<Reading>, n: nat, path: DmaPath) {
    && AllAccepted(c) && OneByOne(c) && CountMatches(c)
    && ChunksIntact(PayloadsOf(c), n, path)
  }

  predicate FirstEnd(ds: seq<Reading>, k: nat) {
    k < |ds| && ds[k].IsEnd() && forall i :: 0 <= i < k ==> !ds[i].IsEnd()
  }

  lemma PassIsFlawless(ds: seq<Reading>, n: nat, path: DmaPath)
    requires n > 0 && SessionPasses(ds, n, path)
    ensures exists k :: FirstEnd(ds, k) && Flawless(ds[..k + 1], n, path)
  {
    var r := Finish(Feed(FRESH, ds, n, path), path);
    var c := r.log.slots;
    PassMeansPerfect(ds, n, path);
    NothingLeftBehind(ds, n, path);
    FeedSummarised(FRESH, ds, n, path);
    Consumed(ds, n, path);
    OneByOneIs(c);
    CountMatchesIs(c);
    AcceptedLists(c);
    IntactChunks(r.dma.batches, n, path);
    var k := |c| - 1;
    assert c == ds[..k + 1];
    assert forall i :: 0 <= i <= k ==> c[i] == ds[i];
    assert FirstEnd(ds, k);
  }

  /** A failed transfer is a chunk that did not come back. */
  lemma FailureIsChunk(r: Run, p: seq<Packet>, n: nat, path: DmaPath)
    requires n > 0 && Batched(r, n, path) && r.dma.failed
    requires r.log.payloads <= p && (r.log.ended ==> r.log.payloads == p)
    ensures !ChunksIntact(p, n, path)
  {
    var b := |r.dma.batches|;
    FullCount(r.dma.batches, n, path);
    var rest := p[|r.log.payloads|..];
    assert p == Concat(r.dma.batches) + (r.dma.pending + rest);
    if |r.dma.pending| == n {
      ChunkOfFront(Concat(r.dma.batches) + r.dma.pending, rest, n, b);
      assert Concat(r.dma.batches) + r.dma.pending + rest == p;
    } else {
      assert rest == [];
    }
    ChunkAtEnd(Concat(r.dma.batches), r.dma.pending, n, b);
    assert n * b < |p| && Chunk(p, n, b) == r.dma.pending;
    assert !Intact(b, Chunk(p, n, b), path);
  }

  /** How far a session reads a list whose first END is at `k`. */
  lemma ReadsToEnd(ds: seq<Reading>, k: nat, n: nat, path: DmaPath)
    requires FirstEnd(ds, k)
    ensures var r := Feed(FRESH, ds, n, path);
            && |r.log.slots| <= k + 1 && r.log.slots == ds[..|r.log.slots|]
            && (r.log.ended <==> |r.log.slots| == k + 1)
            && r.Stopped()
  {
    Consumed(ds, n, path);
    var r := Feed(FRESH, ds, n, path);
    var m := |r.log.slots|;
    assert forall i :: 0 <= i < m ==> r.log.slots[i] == ds[i];
    if m > k + 1 {
      assert false;
    }
  }

  lemma PayloadsOfFront(c: seq<Reading>, m: nat)
    requires AllAccepted(c) && m <= |c|
    ensures AllAccepted(c[..m]) && PayloadsOf(c[..m]) == PayloadsOf(c)[..m]
  {
  }

  lemma FlawlessRun(ds: seq<Reading>, k: nat, n: nat, path: DmaPath)
    requires n > 0 && FirstEnd(ds, k) && Flawless(ds[..k + 1], n, path)
    ensures var r := Feed(FRESH, ds, n, path);
            && !r.dma.failed && r.log.ended && r.log.slots == ds[..k + 1]
            && r.log.payloads == PayloadsOf(ds[..k + 1])
  {
    var r := Feed(FRESH, ds, n, path);
    var c, m := ds[..k + 1], |r.log.slots|;
    ReadsToEnd(ds, k, n, path);
    FeedBatched(ds, n, path);
    FeedSummarised(FRESH, ds, n, path);
    assert ds[..m] == c[..m];
    PayloadsOfFront(c, m);
    AcceptedLists(c[..m]);
    assert m == k + 1 ==> c[..m] == c;
    if r.dma.failed {
      FailureIsChunk(r, PayloadsOf(c), n, path);
      assert false;
    }
  }

  lemma FlawlessPasses(ds: seq<Reading>, k: nat, n: nat, path: DmaPath)
    requires n > 0 && FirstEnd(ds, k) && Flawless(ds[..k + 1], n, path)
    ensures SessionPasses(ds, n, path)
  {
    var r := Feed(FRESH, ds, n, path);
    FlawlessRun(ds, k, n, path);
    FeedBatched(ds, n, path);
    assert Finish(r, path) == r;
    assert Concat(r.dma.batches) == r.log.payloads;
    IntactChunks(r.dma.batches, n, path);
    OneByOneIs(ds[..k + 1]);
    CountMatchesIs(ds[..k + 1]);
    PassMeansPerfect(ds, n, path);
  }

  // ---------------------------------------------------------------- The verdict on slots

  /** A slot that counts as a valid packet: 32 bytes, not truncated, beginning with "HFT1"
      and version 1, reserved byte 0, and of type 1 with side 0 or 1 or of type 4 or 5
      with side 0. */
  predicate Good(s: Slot) { s.length == 32 && !s.truncated && Sound(s.payload) }

  predicate EndsStream(s: Slot) { Good(s) && s.payload[5] == 5 }

  lemma ReadIs(s: Slot)
    ensures Read(s).Malformed? <==> s.length != 32 || s.truncated
    ensures Read(s).Accepted? <==> Good(s)
    ensures !Read(s).Malformed? ==> Read(s).payload == s.payload
    ensures Good(s) ==>
              var r := Read(s);
              && r.messageType == s.payload[5]
              && r.sequence == Load32(s.payload, 8) && r.quantity == Load32(s.payload, 28)
              && (r.IsStart() <==> s.payload[5] == 4) && (r.IsEnd() <==> s.payload[5] == 5)
  {
    ValidMeansSound(s.payload);
  }

  function SlotPayloads(slots: seq<Slot>): (p: seq<Packet>)
    ensures |p| == |slots|
  {
    seq(|slots|, i requires 0 <= i < |slots| => slots[i].payload)
  }

  /** The latest type-4 packet, if any, announces as many packets as there are slots. */
  predicate Announces(slots: seq<Slot>) {
    forall i :: 0 <= i < |slots| && slots[i].payload[5] == 4 && (forall j :: i < j < |slots| ==> slots[j].payload[5] != 4) ==>
      Load32(slots[i].payload, 28) == |slots|
  }

  /** A flawless stream of slots: each is a valid packet, the numbers go up by one, only
      the last slot ends the stream, the announced count is theirs, and all transfers of
      n packets at a time come back byte for byte. */
  ghost predicate PerfectSlots(slots: seq<Slot>, n: nat, path: DmaPath) {
    && slots != [] && EndsStream(slots[|slots| - 1])
    && (forall i :: 0 <= i < |slots| ==> Good(slots[i]))
    && (forall i :: 0 <= i < |slots| - 1 ==> slots[i].payload[5] != 5)
    && (forall i :: 0 <= i < |slots| - 1 ==> Load32(slots[i + 1].payload, 8) == Load32(slots[i].payload, 8) + 1)
    && Announces(slots)
    && ChunksIntact(SlotPayloads(slots), n, path)
  }

  lemma AnnouncesIs(slots: seq<Slot>)
    requires forall i :: 0 <= i < |slots| ==> Good(slots[i])
    ensures CountMatches(ReadAll(slots)) <==> Announces(slots)
  {
    var c := ReadAll(slots);
    forall i | 0 <= i < |slots|
      ensures c[i].IsStart() <==> slots[i].payload[5] == 4
      ensures c[i].Accepted? && c[i].quantity == Load32(slots[i].payload, 28)
    {
      ReadIs(slots[i]);
    }
    forall i: nat | i < |slots|
      ensures LastStart(c, i) <==> slots[i].payload[5] == 4 && forall j :: i < j < |slots| ==> slots[j].payload[5] != 4
    {
    }
  }

  /** The readings of a prefix of the slots are flawless up to the first END exactly when
      the slots are. */
  lemma FlawlessSlots(slots: seq<Slot>, n: nat, path: DmaPath)
    requires slots != []
    ensures var c := ReadAll(slots);
            FirstEnd(c, |c| - 1) && Flawless(c, n, path) <==> PerfectSlots(slots, n, path)
  {
    var c := ReadAll(slots);
    forall i | 0 <= i < |slots|
      ensures c[i].Accepted? <==> Good(slots[i])
      ensures c[i].IsEnd() <==> EndsStream(slots[i])
      ensures Good(slots[i]) ==> c[i].sequence == Load32(slots[i].payload, 8) && c[i].payload == slots[i].payload
    {
      ReadIs(slots[i]);
    }
    if AllAccepted(c) {
      assert PayloadsOf(c) == SlotPayloads(slots);
      AnnouncesIs(slots);
      SameSteps(slots);
    }
  }

  lemma SameSteps(slots: seq<Slot>)
    requires AllAccepted(ReadAll(slots))
    ensures OneByOne(ReadAll(slots)) <==>
              forall i :: 0 <= i < |slots| - 1 ==> Load32(slots[i + 1].payload, 8) == Load32(slots[i].payload, 8) + 1
  {
    forall i | 0 <= i < |slots|
      ensures ReadAll(slots)[i].sequence == Load32(slots[i].payload, 8)
    {
      ReadIs(slots[i]);
    }
  }

  /** The slots up to number `k` are a flawless stream. */
  ghost predicate PerfectTo(slots: seq<Slot>, k: nat, n: nat, path: DmaPath) {
    k < |slots| && PerfectSlots(slots[..k + 1], n, path)
  }

  lemma FlawlessTo(slots: seq<Slot>, k: nat, n: nat, path: DmaPath)
    requires k < |slots|
    ensures var ds := ReadAll(slots);
            FirstEnd(ds, k) && Flawless(ds[..k + 1], n, path) <==> PerfectTo(slots, k, n, path)
  {
    var ds, front := ReadAll(slots), ReadAll(slots[..k + 1]);
    assert ds[..k + 1] == front;
    assert forall i :: 0 <= i <= k ==> ds[i] == front[i];
    FlawlessSlots(slots[..k + 1], n, path);
    assert FirstEnd(ds, k) <==> FirstEnd(front, k);
  }

  /** The session verdict on slots.  For every list of slots, batch size and DMA
      behaviour the session passes exactly when the slots begin with a flawless stream. */
  lemma SessionVerdict(slots: seq<Slot>, n: nat, path: DmaPath)
    requires n > 0
    ensures SessionPasses(ReadAll(slots), n, path) <==> exists k :: PerfectTo(slots, k, n, path)
  {
    var ds := ReadAll(slots);
    if SessionPasses(ds, n, path) {
      PassIsFlawless(ds, n, path);
      var k :| FirstEnd(ds, k) && Flawless(ds[..k + 1], n, path);
      FlawlessTo(slots, k, n, path);
    }
    if k :| PerfectTo(slots, k, n, path) {
      FlawlessTo(slots, k, n, path);
      FlawlessPasses(ds, k, n, path);
    }
  }

  lemma {:induction false} ReadFlat(calls: seq<seq<Slot>>)
    ensures Flatten(ReadCalls(calls)) == ReadAll(Flatten(calls))
  {
    if calls != [] {
      ReadFlat(Init(calls));
      assert Init(ReadCalls(calls)) == ReadCalls(Init(calls));
      assert Last(ReadCalls(calls)) == ReadAll(Last(calls));
    }
  }

  /** The receiver itself: after all its calls its verdict is that of the slots. */
  method RunSession(r: Receiver, calls: seq<seq<Slot>>) returns (pass: bool)
    requires r.Valid() && r.run == FRESH && !r.timedOut && r.batchPackets > 0
    modifies r
    ensures pass <==> exists k :: PerfectTo(Flatten(calls), k, r.batchPackets, r.path)
  {
    ReadFlat(calls);
    SessionVerdict(Flatten(calls), r.batchPackets, r.path);
    r.Session(calls);
    pass := r.Overall();
  }

  // ---------------------------------------------------------------- Counters

  predicate Misfit(s: Slot) { s.length != 32 || s.truncated }

  function GoodPositions(slots: seq<Slot>): set<nat> { set i: nat | i < |slots| && Good(slots[i]) }

  function MisfitPositions(slots: seq<Slot>): set<nat> { set i: nat | i < |slots| && Misfit(slots[i]) }

  lemma PositionsGrow(slots: seq<Slot>)
    requires slots != []
    ensures |GoodPositions(slots)| == |GoodPositions(Init(slots))| + if Good(Last(slots)) then 1 else 0
    ensures |MisfitPositions(slots)| == |MisfitPositions(Init(slots))| + if Misfit(Last(slots)) then 1 else 0
  {
    Grows(GoodPositions(Init(slots)), GoodPositions(slots), |slots| - 1, Good(Last(slots)));
    Grows(MisfitPositions(Init(slots)), MisfitPositions(slots), |slots| - 1, Misfit(Last(slots)));
  }

  /** The counters of the slots consumed: the valid ones, the ones of wrong length, and
      as invalid all that are not valid. */
  lemma {:induction false} CountersBySlot(slots: seq<Slot>)
    ensures |Numbers(ReadAll(slots))| == |GoodPositions(slots)|
    ensures |slots| - |Payloads(ReadAll(slots))| == |MisfitPositions(slots)|
  {
    if slots != [] {
      CountersBySlot(Init(slots));
      PositionsGrow(slots);
      assert Init(ReadAll(slots)) == ReadAll(Init(slots));
      ReadIs(Last(slots));
    }
  }

  /** The bytes of packet `i` of a transfer. */
  lemma {:induction false} BytesAt(batch: seq<Packet>, i: nat)
    requires i < |batch|
    ensures Bytes(batch)[32 * i..32 * i + 32] == batch[i]
  {
    if i < |batch| - 1 {
      BytesAt(Init(batch), i);
      assert Bytes(batch)[32 * i..32 * i + 32] == Bytes(Init(batch))[32 * i..32 * i + 32];
    }
  }
}

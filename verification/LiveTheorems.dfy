/** What the live receiver preserves, what its counters account for, and exactly when
    its session passes. */
module LiveTheorems {
  import opened Words
  import opened Hft1
  import opened Sequences
  import opened Senders
  import opened LiveReceiver

  // ---------------------------------------------------------------- Batches

  /** Transfer number `k` took `size` packets and brought bytes back. */
  predicate Transferred(k: nat, batch: seq<Packet>, size: nat, path: DmaPath) {
    |batch| == size && path(k, Bytes(batch)).Some?
  }

  /** Every transfer took exactly n packets and brought bytes back. */
  ghost predicate AllFull(batches: seq<seq<Packet>>, n: nat, path: DmaPath) {
    forall k :: 0 <= k < |batches| ==> Transferred(k, batches[k], n, path)
  }

  /** Every transfer but the last took exactly n packets, and the last took 1 to n. */
  ghost predicate FullButLast(batches: seq<seq<Packet>>, n: nat, path: DmaPath) {
    batches == [] || (AllFull(Init(batches), n, path)
                      && 1 <= |Last(batches)| <= n
                      && Transferred(|batches| - 1, Last(batches), |Last(batches)|, path))
  }

  /** The batches that have gone through, then the waiting packets, are the well-sized
      payloads in arrival order.  While the stream is open every batch is full and fewer
      than n packets wait; after a valid END the last batch may be shorter and none
      wait; after a failed transfer its 1 to n packets wait for ever. */
  ghost predicate Batched(r: Run, n: nat, path: DmaPath) {
    && Concat(r.dma.batches) + r.dma.pending == r.log.payloads
    && (if r.dma.failed then
          && AllFull(r.dma.batches, n, path)
          && 1 <= |r.dma.pending| <= n && (|r.dma.pending| < n ==> r.log.ended)
          && path(|r.dma.batches|, Bytes(r.dma.pending)).None?
        else if r.log.ended then FullButLast(r.dma.batches, n, path) && r.dma.pending == []
        else AllFull(r.dma.batches, n, path) && |r.dma.pending| < n)
  }

  lemma ConcatPush(batches: seq<seq<Packet>>, batch: seq<Packet>)
    ensures Concat(batches + [batch]) == Concat(batches) + batch
  {
    assert Init(batches + [batch]) == batches;
  }

  lemma FullPush(batches: seq<seq<Packet>>, batch: seq<Packet>, n: nat, path: DmaPath)
    requires AllFull(batches, n, path) && Transferred(|batches|, batch, |batch|, path)
    ensures |batch| == n ==> AllFull(batches + [batch], n, path)
    ensures 1 <= |batch| <= n ==> FullButLast(batches + [batch], n, path)
  {
    assert Init(batches + [batch]) == batches;
    if |batch| == n {
      forall k | 0 <= k <= |batches|
        ensures Transferred(k, (batches + [batch])[k], n, path)
      {
      }
    }
  }

  lemma FullIsFullButLast(batches: seq<seq<Packet>>, n: nat, path: DmaPath)
    requires n > 0 && AllFull(batches, n, path)
    ensures FullButLast(batches, n, path)
  {
    if batches != [] {
      assert Transferred(|batches| - 1, Last(batches), n, path);
      assert forall k :: 0 <= k < |batches| - 1 ==> Init(batches)[k] == batches[k];
    }
  }

  /** What a flush does to full batches. */
  lemma FlushBatched(t: Transfers, n: nat, path: DmaPath)
    requires n > 0 && !t.failed && |t.pending| <= n && AllFull(t.batches, n, path)
    ensures var u := Flush(t, path);
            && Concat(u.batches) + u.pending == Concat(t.batches) + t.pending
            && (u.failed ==>
                  && u.batches == t.batches && u.pending == t.pending && t.pending != []
                  && path(|t.batches|, Bytes(t.pending)).None?)
            && (!u.failed ==> u.pending == [] && FullButLast(u.batches, n, path))
            && (!u.failed && |t.pending| == n ==> AllFull(u.batches, n, path))
  {
    if t.pending == [] {
      FullIsFullButLast(t.batches, n, path);
    } else if path(|t.batches|, Bytes(t.pending)).Some? {
      ConcatPush(t.batches, t.pending);
      FullPush(t.batches, t.pending, n, path);
    }
  }

  /** Batching preserves the stream, for every stream, batch size and DMA behaviour. */
  lemma {:induction false} FeedBatched(ds: seq<Reading>, n: nat, path: DmaPath)
    requires n > 0
    ensures Batched(Feed(FRESH, ds, n, path), n, path)
  {
    if ds != [] {
      FeedBatched(Init(ds), n, path);
      TakeBatched(Feed(FRESH, Init(ds), n, path), Last(ds), n, path);
    }
  }

  lemma TakeBatched(r: Run, s: Reading, n: nat, path: DmaPath)
    requires n > 0 && Batched(r, n, path)
    ensures Batched(Take(r, s, n, path), n, path)
  {
    if !r.Stopped() && !s.Malformed? {
      var t := r.dma.(pending := r.dma.pending + [s.payload]);
      assert Concat(t.batches) + t.pending == r.log.payloads + [s.payload];
      FlushBatched(t, n, path);
    }
  }

  /** While the stream is open the number of transfers is that of the full batches. */
  lemma OpenCount(ds: seq<Reading>, n: nat, path: DmaPath)
    requires n > 0
    ensures var r := Feed(FRESH, ds, n, path);
            !r.Stopped() ==> |r.log.payloads| == n * |r.dma.batches| + |r.dma.pending| && |r.dma.pending| < n
  {
    var r := Feed(FRESH, ds, n, path);
    FeedBatched(ds, n, path);
    if !r.Stopped() {
      FullCount(r.dma.batches, n, path);
    }
  }

  lemma {:induction false} FullCount(batches: seq<seq<Packet>>, n: nat, path: DmaPath)
    requires AllFull(batches, n, path)
    ensures |Concat(batches)| == n * |batches|
  {
    if batches != [] {
      assert Transferred(|batches| - 1, Last(batches), n, path);
      assert forall k :: 0 <= k < |batches| - 1 ==> Init(batches)[k] == batches[k];
      FullCount(Init(batches), n, path);
      assert n * |batches| == n * (|batches| - 1) + n;
    }
  }

  /** `count` is total over n, rounded up. */
  predicate RoundedUp(count: nat, total: nat, n: nat) { n * (count - 1) < total <= n * count }

  lemma RoundedUpIs(count: nat, total: nat, n: nat)
    requires n > 0
    ensures RoundedUp(count, total, n) <==> count == (total + n - 1) / n
  {
    var q := (total + n - 1) / n;
    assert total + n - 1 == n * q + (total + n - 1) % n;
    assert n * (q - 1) == n * q - n;
    if RoundedUp(count, total, n) {
      assert n * (count - 1) == n * count - n;
      Quotient(total + n - 1, n, count);
    }
  }

  lemma TransferCount(batches: seq<seq<Packet>>, n: nat, path: DmaPath)
    requires n > 0 && FullButLast(batches, n, path)
    ensures RoundedUp(|batches|, |Concat(batches)|, n)
  {
    if batches != [] {
      FullCount(Init(batches), n, path);
      assert n * |batches| == n * (|batches| - 1) + n;
    }
  }

  /** On every exit without a DMA error nothing is left waiting: the completed batches
      are exactly the well-sized payloads, all full but the last, so that their number
      is that of the payloads over n, rounded up. */
  lemma NothingLeftBehind(ds: seq<Reading>, n: nat, path: DmaPath)
    requires n > 0
    ensures var r := Finish(Feed(FRESH, ds, n, path), path);
            && (!r.dma.failed ==>
                  && r.dma.pending == [] && Concat(r.dma.batches) == r.log.payloads
                  && r.dma.passed == |Payloads(r.log.slots)|
                  && FullButLast(r.dma.batches, n, path)
                  && RoundedUp(|r.dma.batches|, |r.log.payloads|, n))
            && (r.dma.failed ==>
                  && Concat(r.dma.batches) + r.dma.pending == r.log.payloads
                  && AllFull(r.dma.batches, n, path) && 1 <= |r.dma.pending| <= n)
  {
    FeedBatched(ds, n, path);
    FeedSummarised(FRESH, ds, n, path);
    FinishBatched(Feed(FRESH, ds, n, path), n, path);
  }

  /** The last flush. */
  lemma FinishBatched(r: Run, n: nat, path: DmaPath)
    requires n > 0 && Batched(r, n, path) && r.log.Summarised() && r.dma.Summarised(path)
    ensures var f := Finish(r, path);
            && f.log == r.log
            && (!f.dma.failed ==>
                  && f.dma.pending == [] && Concat(f.dma.batches) == r.log.payloads
                  && f.dma.Summarised(path)
                  && FullButLast(f.dma.batches, n, path)
                  && RoundedUp(|f.dma.batches|, |r.log.payloads|, n))
            && (f.dma.failed ==>
                  && Concat(f.dma.batches) + f.dma.pending == r.log.payloads
                  && AllFull(f.dma.batches, n, path) && 1 <= |f.dma.pending| <= n)
  {
    if !r.dma.failed {
      if !r.log.ended {
        FlushBatched(r.dma, n, path);
      }
      FlushSummarises(r.dma, path);
      var u := Flush(r.dma, path);
      if !u.failed {
        TransferCount(u.batches, n, path);
      }
    }
  }

  lemma AllBack(batches: seq<seq<Packet>>, n: nat, path: DmaPath)
    requires FullButLast(batches, n, path)
    ensures forall k :: 0 <= k < |batches| ==> path(k, Bytes(batches[k])).Some?
  {
    forall k | 0 <= k < |batches|
      ensures path(k, Bytes(batches[k])).Some?
    {
      if k < |batches| - 1 {
        assert Transferred(k, Init(batches)[k], n, path);
      }
    }
  }

  // ---------------------------------------------------------------- What is consumed

  /** Datagrams are consumed in order, up to and including the first valid END. */
  lemma {:induction false} Consumed(ds: seq<Reading>, n: nat, path: DmaPath)
    ensures var r := Feed(FRESH, ds, n, path);
            && |r.log.slots| <= |ds|
            && r.log.slots == ds[..|r.log.slots|]
            && (!r.Stopped() ==> r.log.slots == ds)
            && (r.log.ended ==> r.log.slots != [] && Last(r.log.slots).IsEnd())
            && (forall i :: 0 <= i < |r.log.slots| - 1 ==> !r.log.slots[i].IsEnd())
            && (!r.log.ended && r.log.slots != [] ==> !Last(r.log.slots).IsEnd())
  {
    if ds != [] {
      Consumed(Init(ds), n, path);
      var before := Feed(FRESH, Init(ds), n, path);
      assert before.log.slots == ds[..|before.log.slots|];
    }
  }

  // ---------------------------------------------------------------- Sequence accounting

  /** The counters of any session, related to the set of numbers seen: the unique
      numbers are the valid packets less the duplicates; the span from the first to
      the highest number is what advanced plus what was skipped; and the numbers of
      the span that never arrived are the missing count less the late arrivals above
      the first number. */
  lemma SequenceAccounting(t: Tracker, q: seq<nat>)
    requires Tracks(t, q) && q != []
    ensures |t.seen| == |q| - t.duplicate
    ensures t.highest.value - q[0] + 1 == (|q| - t.duplicate - t.outOfOrder) + t.missing
    ensures |Range(q[0], t.highest.value) - t.seen| == t.missing - LateAboveFirst(q)
  {
    Accounting(q);
    SpanAccounting(q);
    MissingSet(q);
  }

  // ---------------------------------------------------------------- The DMA comparison

  lemma {:induction false} NoneDiffer(expected: seq<byte>, received: seq<byte>, n: nat)
    requires PACKET_SIZE * n <= |expected| && |received| == |expected|
    ensures Differing(expected, received, n) == []
       <==> expected[..PACKET_SIZE * n] == received[..PACKET_SIZE * n]
  {
    if n > 0 {
      NoneDiffer(expected, received, n - 1);
      var k := PACKET_SIZE * (n - 1);
      assert expected[..k + PACKET_SIZE] == expected[..k] + Piece(expected, n - 1);
      assert received[..k + PACKET_SIZE] == received[..k] + Piece(received, n - 1);
      if expected[..k + PACKET_SIZE] == received[..k + PACKET_SIZE] {
        assert expected[..k] == expected[..k + PACKET_SIZE][..k];
        assert received[..k] == received[..k + PACKET_SIZE][..k];
        assert Piece(expected, n - 1) == expected[..k + PACKET_SIZE][k..];
        assert Piece(received, n - 1) == received[..k + PACKET_SIZE][k..];
      }
    }
  }

  /** Which packets are counted as mismatches: exactly those whose 32 bytes differ, each
      once and in order. */
  lemma {:induction false} DifferingIs(expected: seq<byte>, received: seq<byte>, n: nat)
    requires 32 * n <= |expected| && |received| == |expected|
    ensures var d := Differing(expected, received, n);
            && (forall i :: i in d <==> 0 <= i < n && Differs(expected, received, i))
            && Increasing(d)
  {
    if n > 0 {
      DifferingIs(expected, received, n - 1);
    }
  }

  predicate Differs(expected: seq<byte>, received: seq<byte>, i: nat)
    requires |received| == |expected|
  {
    32 * i + 32 <= |expected| && expected[32 * i..32 * i + 32] != received[32 * i..32 * i + 32]
  }

  /** The examples kept of them: the first five, with index and bytes. */
  lemma ExamplesAre(expected: seq<byte>, received: seq<byte>, first: nat, n: nat, j: nat)
    requires 32 * n <= |expected| && |received| == |expected|
    ensures var d := Differing(expected, received, n);
            var examples := Examples(expected, received, first, FirstFive(d));
            && |examples| == Min(5, |d|)
            && (j < |examples| ==>
                  && 32 * d[j] + 32 <= |expected|
                  && examples[j] == Example(first + d[j], expected[32 * d[j]..32 * d[j] + 32],
                                            received[32 * d[j]..32 * d[j] + 32]))
  {
  }

  /** Batch k came back byte for byte. */
  ghost predicate Intact(k: nat, batch: seq<Packet>, path: DmaPath) {
    var sent := Bytes(batch);
    path(k, sent).Some? && RxBuffer(path(k, sent).value, |sent|) == sent
  }

  lemma IntactMeansNoMismatch(k: nat, batch: seq<Packet>, path: DmaPath)
    requires path(k, Bytes(batch)).Some?
    ensures BatchMismatches(k, batch, path) == 0 <==> Intact(k, batch, path)
  {
    var sent := Bytes(batch);
    var back := RxBuffer(path(k, sent).value, |sent|);
    NoneDiffer(sent, back, |batch|);
    assert sent[..PACKET_SIZE * |batch|] == sent && back[..PACKET_SIZE * |batch|] == back;
  }

  lemma {:induction false} AllIntact(batches: seq<seq<Packet>>, path: DmaPath)
    requires forall k :: 0 <= k < |batches| ==> path(k, Bytes(batches[k])).Some?
    ensures Mismatches(batches, path) == 0
       <==> forall k :: 0 <= k < |batches| ==> Intact(k, batches[k], path)
  {
    if batches != [] {
      var n := |batches| - 1;
      AllIntact(Init(batches), path);
      IntactMeansNoMismatch(n, batches[n], path);
      assert forall k :: 0 <= k < n ==> Init(batches)[k] == batches[k];
    }
  }

  // ---------------------------------------------------------------- PASS

  predicate AllAccepted(ds: seq<Reading>) { forall i :: 0 <= i < |ds| ==> ds[i].Accepted? }

  lemma {:induction false} CountsOfAccepted(ds: seq<Reading>)
    ensures |Numbers(ds)| <= |Payloads(ds)| <= |ds|
    ensures |Numbers(ds)| == |ds| <==> AllAccepted(ds)
  {
    if ds != [] {
      CountsOfAccepted(Init(ds));
      assert AllAccepted(ds) <==> AllAccepted(Init(ds)) && Last(ds).Accepted?;
    }
  }

  ghost predicate DmaClean(t: Transfers, path: DmaPath) {
    !t.failed && forall k :: 0 <= k < |t.batches| ==> Intact(k, t.batches[k], path)
  }

  /** What a session must look like to pass. */
  ghost predicate Perfect(consumed: seq<Reading>) {
    && consumed != [] && Last(consumed).IsEnd()
    && AllAccepted(consumed)
    && Consecutive(Numbers(consumed))
    && (Announced(consumed).None? || Announced(consumed).value == |consumed|)
  }

  /** The verdict of a whole session. */
  predicate SessionPasses(ds: seq<Reading>, n: nat, path: DmaPath) {
    var fed := Feed(FRESH, ds, n, path);
    OverallPass(Finish(fed, path), !fed.Stopped())
  }

  /** The session verdict.  For every datagram stream, batch size and DMA behaviour
      the session passes exactly when the consumed datagrams end in a valid END, all
      of them are valid, their numbers are consecutive, the latest announced count
      (if any) is their number, and every batch came back intact. */
  lemma PassMeansPerfect(ds: seq<Reading>, n: nat, path: DmaPath)
    requires n > 0
    ensures var r := Finish(Feed(FRESH, ds, n, path), path);
            SessionPasses(ds, n, path) <==> Perfect(r.log.slots) && DmaClean(r.dma, path)
  {
    var fed := Feed(FRESH, ds, n, path);
    var r := Finish(fed, path);
    Consumed(ds, n, path);
    NothingLeftBehind(ds, n, path);
    FeedSummarised(FRESH, ds, n, path);
    if !fed.dma.failed {
      FlushSummarises(fed.dma, path);
      if !r.dma.failed {
        AllBack(r.dma.batches, n, path);
        AllIntact(r.dma.batches, path);
      }
    }
    CountsOfAccepted(r.log.slots);
    CleanIsConsecutive(r.log.numbers);
  }

  // ---------------------------------------------------------------- From the sender

  /** A DMA path that returns what it is given. */
  ghost predicate Faithful(path: DmaPath) {
    forall k: nat, e: seq<byte> :: path(k, e).Some? && RxBuffer(path(k, e).value, |e|) == e
  }

  /** What arrives of the sender's packets, by packet index: any selection, order and
      repetition. */
  function Arrived(d: seq<nat>, c: LiveConfig, clock: nat -> uint64): (ds: seq<Reading>)
    requires forall i :: 0 <= i < |d| ==> d[i] < c.total
    ensures |ds| == |d|
  {
    seq(|d|, i requires 0 <= i < |d| => Read(Slot(PACKET_SIZE, false, LivePacket(c, d[i], clock))))
  }

  lemma ReadLive(c: LiveConfig, index: nat, clock: nat -> uint64)
    requires index < c.total && c.total >= 2
    ensures var r := Read(Slot(PACKET_SIZE, false, LivePacket(c, index, clock)));
            && r.Accepted? && r.sequence == index + 1
            && (r.IsStart() <==> index == 0) && (r.IsStart() ==> r.quantity == c.total)
            && (r.IsEnd() <==> index == c.total - 1)
  {
    UnpackPack(LiveFields(c, index, clock(index)));
  }

  /** Readings that stand for packets d[0], d[1], ... of a stream of `total`. */
  ghost predicate Stands(ds: seq<Reading>, d: seq<nat>, total: nat) {
    && |ds| == |d|
    && forall i :: 0 <= i < |d| ==>
         && ds[i].Accepted? && ds[i].sequence == d[i] + 1
         && (ds[i].IsStart() <==> d[i] == 0) && (ds[i].IsStart() ==> ds[i].quantity == total)
         && (ds[i].IsEnd() <==> d[i] == total - 1)
  }

  lemma ArrivedStands(d: seq<nat>, c: LiveConfig, clock: nat -> uint64)
    requires c.total >= 2 && forall i :: 0 <= i < |d| ==> d[i] < c.total
    ensures Stands(Arrived(d, c, clock), d, c.total)
  {
    forall i | 0 <= i < |d| {
      ReadLive(c, d[i], clock);
    }
  }

  lemma {:induction false} StandsNumbers(ds: seq<Reading>, d: seq<nat>, total: nat)
    requires Stands(ds, d, total)
    ensures Numbers(ds) == Shifted(d)
    ensures Announced(ds) == if 0 in d then Some(total) else None
  {
    if ds != [] {
      var b := d[..|d| - 1];
      assert Stands(Init(ds), b, total);
      StandsNumbers(Init(ds), b, total);
      assert d == b + [d[|d| - 1]];
    }
  }

  function Shifted(d: seq<nat>): (r: seq<nat>)
    ensures |r| == |d|
  {
    seq(|d|, i requires 0 <= i < |d| => d[i] + 1)
  }

  lemma FaithfulFlush(t: Transfers, path: DmaPath)
    requires Faithful(path) && DmaClean(t, path)
    ensures DmaClean(Flush(t, path), path)
  {
    assert Init(t.batches + [t.pending]) == t.batches;
    assert path(|t.batches|, Bytes(t.pending)).Some?;
  }

  lemma {:induction false} FaithfulFeed(ds: seq<Reading>, n: nat, path: DmaPath)
    requires Faithful(path)
    ensures DmaClean(Feed(FRESH, ds, n, path).dma, path)
  {
    if ds != [] {
      FaithfulFeed(Init(ds), n, path);
      var before := Feed(FRESH, Init(ds), n, path);
      if !Last(ds).Malformed? {
        FaithfulFlush(before.dma.(pending := before.dma.pending + [Last(ds).payload]), path);
      }
    }
  }

  /** Packets j, j + 1, ..., total - 1 arrive first, in this order. */
  predicate StartsWithSuffix(d: seq<nat>, j: nat, total: nat) {
    j < total && Counting(j, total - 1) <= d
  }

  /** The consumed part of a list that starts with a suffix is that suffix. */
  lemma ConsumedSuffix(consumed: seq<Reading>, ended: bool, ds: seq<Reading>, d: seq<nat>, j: nat, total: nat)
    requires Stands(ds, d, total) && StartsWithSuffix(d, j, total)
    requires consumed <= ds && (!ended ==> consumed == ds)
    requires ended ==> consumed != [] && Last(consumed).IsEnd()
    requires forall i :: 0 <= i < |consumed| - 1 ==> !consumed[i].IsEnd()
    requires !ended && consumed != [] ==> !Last(consumed).IsEnd()
    ensures ended && |consumed| == total - j && d[..|consumed|] == Counting(j, total - 1)
  {
    var m := total - j;
    assert d[m - 1] == Counting(j, total - 1)[m - 1] == total - 1;
    assert ds[m - 1].IsEnd();
    if ended {
      var k := |consumed| - 1;
      assert ds[k].IsEnd() && consumed[k] == ds[k];
      assert k <= m - 1;
      assert d[k] == Counting(j, total - 1)[k];
    }
  }

  lemma PerfectSuffix(e: seq<nat>, consumed: seq<Reading>, total: nat)
    requires total >= 2 && Stands(consumed, e, total)
    ensures Perfect(consumed) <==> e != [] && e[0] < total && e == Counting(e[0], total - 1)
  {
    StandsNumbers(consumed, e, total);
    if Perfect(consumed) {
      forall i | 0 <= i < |e| ensures e[i] == e[0] + i {
        assert Shifted(e)[i] == Shifted(e)[0] + i;
      }
      assert consumed[|e| - 1].IsEnd();
      assert e[|e| - 1] == total - 1 == e[0] + |e| - 1;
    }
    if e != [] && e[0] < total && e == Counting(e[0], total - 1) {
      assert Consecutive(Shifted(e));
      assert e[|e| - 1] == total - 1;
      assert 0 in e ==> e[0] == 0;
    }
  }

  lemma FaithfulSession(ds: seq<Reading>, n: nat, path: DmaPath)
    requires n > 0 && Faithful(path)
    ensures !Feed(FRESH, ds, n, path).dma.failed
    ensures SessionPasses(ds, n, path) <==> Perfect(Feed(FRESH, ds, n, path).log.slots)
  {
    PassMeansPerfect(ds, n, path);
    FaithfulFeed(ds, n, path);
    FaithfulFlush(Feed(FRESH, ds, n, path).dma, path);
  }

  /** The verdict on datagrams that stand for packets d[0], d[1], ... */
  lemma VerdictOnArrivals(ds: seq<Reading>, d: seq<nat>, total: nat, n: nat, path: DmaPath)
    requires n > 0 && total >= 2 && Faithful(path)
    requires Stands(ds, d, total) && forall i :: 0 <= i < |d| ==> d[i] < total
    ensures SessionPasses(ds, n, path) <==> exists j :: StartsWithSuffix(d, j, total)
  {
    var fed := Feed(FRESH, ds, n, path);
    var k := |fed.log.slots|;
    Consumed(ds, n, path);
    FaithfulSession(ds, n, path);
    PerfectSuffix(d[..k], fed.log.slots, total);
    if SessionPasses(ds, n, path) {
      assert StartsWithSuffix(d, d[0], total);
    }
    if j :| StartsWithSuffix(d, j, total) {
      ConsumedSuffix(fed.log.slots, fed.log.ended, ds, d, j, total);
      assert d[0] == Counting(j, total - 1)[0] == j;
    }
  }

  /** Delivery.  A sender of `total` packets, a network that loses, repeats and
      reorders, a faithful DMA path, any batch size: the session passes exactly when
      the arrivals begin with packets j, ..., total - 1 in order for some j.  For
      j = 0 that is lossless delivery; j > 0 is the loss of START together with the
      quotes before packet j, which the session cannot notice, because nothing has
      announced a count. */
  lemma Delivery(d: seq<nat>, c: LiveConfig, clock: nat -> uint64, n: nat, path: DmaPath)
    requires n > 0 && c.total >= 2 && Faithful(path)
    requires forall i :: 0 <= i < |d| ==> d[i] < c.total
    ensures SessionPasses(Arrived(d, c, clock), n, path) <==> exists j :: StartsWithSuffix(d, j, c.total)
  {
    ArrivedStands(d, c, clock);
    VerdictOnArrivals(Arrived(d, c, clock), d, c.total, n, path);
  }

  /** Once START has arrived first, losing, repeating or reordering any packet up to
      END fails the session; lossless delivery passes. */
  lemma DeliveryAfterStart(d: seq<nat>, c: LiveConfig, clock: nat -> uint64, n: nat, path: DmaPath)
    requires n > 0 && c.total >= 2 && Faithful(path)
    requires d != [] && d[0] == 0 && forall i :: 0 <= i < |d| ==> d[i] < c.total
    ensures SessionPasses(Arrived(d, c, clock), n, path) <==> Counting(0, c.total - 1) <= d
  {
    Delivery(d, c, clock, n, path);
    if j :| StartsWithSuffix(d, j, c.total) {
      assert Counting(j, c.total - 1)[0] == j == d[0];
    }
    if Counting(0, c.total - 1) <= d {
      assert StartsWithSuffix(d, 0, c.total);
    }
  }

  /** The loss that goes unnoticed: START and the first quotes of a five-packet
      stream are lost, and the session passes. */
  lemma LostStartPasses(clock: nat -> uint64, n: nat, path: DmaPath)
    requires n > 0 && Faithful(path)
    ensures SessionPasses(Arrived([3, 4], LiveConfig(5, 1000, 2000), clock), n, path)
  {
    assert Counting(3, 4) == [3, 4];
    assert StartsWithSuffix([3, 4], 3, 5);
    Delivery([3, 4], LiveConfig(5, 1000, 2000), clock, n, path);
  }
}

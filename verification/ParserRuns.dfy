/** Whole runs of the packet parser, and what its verdict means to software. */
module ParserRuns {
  import opened Words
  import opened Hft1
  import opened PacketParser

  // ---------------------------------------------------------------- Any stall pattern

  /** One edge of a run: does upstream offer its next beat, is downstream ready? */
  datatype Edge = Edge(offer: bool, mReady: bool)

  /** How many of the first `k` edges neither side stalls. */
  function Unstalled(pattern: seq<Edge>, k: nat): nat
    requires k <= |pattern|
  {
    if k == 0 then 0 else Unstalled(pattern, k - 1) + (if pattern[k - 1].offer && pattern[k - 1].mReady then 1 else 0)
  }

  /** One more beat either completes a packet or does not. */
  lemma Completes(n: nat)
    ensures (n + 1) % 8 == 0 ==> (n + 1) / 8 == n / 8 + 1 && 8 * (n / 8) == n - 7
    ensures (n + 1) % 8 != 0 ==> (n + 1) / 8 == n / 8
  {
  }

  lemma VerdictsPush(perPacket: bool, beats: seq<Beat>, b: Beat)
    ensures Verdicts(perPacket, beats + [b]) == Verdicts(perPacket, beats)
          + if (|beats| + 1) % 8 == 0 then [Judge(perPacket, (beats + [b])[|beats| - 7..])] else []
  {
    var after := beats + [b];
    Completes(|beats|);
    forall k | 0 <= k < |beats| / 8
      ensures PacketBeats(after, k) == PacketBeats(beats, k)
    {
    }
    if |after| % 8 == 0 {
      assert PacketBeats(after, |beats| / 8) == after[|beats| - 7..];
    }
  }

  /** What one edge announces: an entry exactly when one of the pulses is high. */
  function Pulse(c: Completion, f: Frame): seq<Verdict> {
    if c.packetValid || c.packetError then [Verdict(c.errorFlags, f.fields.Output())] else []
  }

  lemma PulseExtendsVerdicts(perPacket: bool, f: Frame, c: Completion, beats: seq<Beat>, b: Beat)
    requires Accepted(perPacket, f, c, beats + [b])
    ensures Verdicts(perPacket, beats + [b]) == Verdicts(perPacket, beats) + Pulse(c, f)
    ensures c.packetValid ==> !c.packetError && c.errorFlags == 0
    ensures c.packetError ==> c.errorFlags != 0
  {
    VerdictsPush(perPacket, beats, b);
  }

  /** One edge of a run: offers the next beat of `source` unless upstream stalls. */
  method Exchange(p: Parser, source: seq<Beat>, taken: nat, e: Edge)
    returns (next: nat, pulse: seq<Verdict>, out: seq<Beat>)
    requires p.Valid() && taken <= |source| && p.accepted == source[..taken]
    modifies p
    ensures p.Valid() && taken <= next <= |source| && p.accepted == source[..next]
    ensures Verdicts(p.tlastPerPacket, source[..next])
         == Verdicts(p.tlastPerPacket, source[..taken]) + pulse
    ensures pulse == Pulse(p.completion, p.frame)
    ensures p.completion.packetValid ==> !p.completion.packetError && p.completion.errorFlags == 0
    ensures p.completion.packetError ==> p.completion.errorFlags != 0
    ensures next <= taken + 1
    ensures p.emitted == old(p.emitted) + out
    ensures e.offer && e.mReady && taken < |source| ==> next == taken + 1
  {
    var offer := e.offer && taken < |source|;
    var beat := if offer then source[taken] else Beat(Word(0, 0, 0, 0), 0, false);
    next := if offer && p.Ready(e.mReady) then taken + 1 else taken;
    out := if p.mValid && e.mReady then [p.held] else [];
    p.Clock(ParserInput(true, beat, offer, e.mReady));
    pulse := Pulse(p.completion, p.frame);
    if next > taken {
      assert source[..next] == source[..taken] + [beat];
      PulseExtendsVerdicts(p.tlastPerPacket, p.frame, p.completion, source[..taken], beat);
    }
  }

  /** After `n` edges: what has been taken, what has been announced. */
  ghost predicate Transmitted(perPacket: bool, source: seq<Beat>, pattern: seq<Edge>, n: nat, taken: nat, log: seq<Verdict>)
    requires n <= |pattern|
  {
    && Min(|source|, Unstalled(pattern, n)) <= taken <= |source|
    && log == Verdicts(perPacket, source[..taken])
  }

  lemma TransmittedPush(perPacket: bool, source: seq<Beat>, pattern: seq<Edge>, n: nat,
                        taken: nat, next: nat, log: seq<Verdict>, pulse: seq<Verdict>)
    requires n < |pattern| && Transmitted(perPacket, source, pattern, n, taken, log)
    requires taken <= next <= |source|
    requires pattern[n].offer && pattern[n].mReady && taken < |source| ==> next == taken + 1
    requires Verdicts(perPacket, source[..next]) == Verdicts(perPacket, source[..taken]) + pulse
    ensures Transmitted(perPacket, source, pattern, n + 1, next, log + pulse)
  {
  }

  /** One edge of a transmission. */
  method TransmitEdge(p: Parser, source: seq<Beat>, pattern: seq<Edge>, n: nat,
                      taken: nat, log: seq<Verdict>, sent: seq<Beat>)
    returns (next: nat, longer: seq<Verdict>, more: seq<Beat>)
    requires p.Valid() && n < |pattern|
    requires Transmitted(p.tlastPerPacket, source, pattern, n, taken, log)
    requires p.accepted == source[..taken] && p.emitted == sent
    modifies p
    ensures p.Valid()
    ensures Transmitted(p.tlastPerPacket, source, pattern, n + 1, next, longer)
    ensures p.accepted == source[..next] && p.emitted == more
  {
    var pulse, out;
    next, pulse, out := Exchange(p, source, taken, pattern[n]);
    TransmittedPush(p.tlastPerPacket, source, pattern, n, taken, next, log, pulse);
    longer, more := log + pulse, sent + out;
  }

  /** Sends `source` through the parser under an arbitrary pattern of stalls on both
      sides, and records what comes out: the completions, one entry for every edge
      with a pulse, and the beats handed downstream.

      The completions are the verdicts of the packets of the beats taken so far, in
      order; the beats are forwarded unchanged and in order, at most one of them
      being still in the register; and every edge on which neither side stalls
      takes a beat. */
  method Transmit(p: Parser, source: seq<Beat>, pattern: seq<Edge>)
    returns (taken: nat, log: seq<Verdict>, sent: seq<Beat>)
    modifies p
    ensures p.Valid()
    ensures taken <= |source|
    ensures log == Verdicts(p.tlastPerPacket, source[..taken])
    ensures source[..taken] == sent + (if p.mValid then [p.held] else [])
    ensures taken >= Min(|source|, Unstalled(pattern, |pattern|))
  {
    p.Clock(ParserInput(false, Beat(Word(0, 0, 0, 0), 0, false), false, false));
    taken, log, sent := 0, [], [];
    var n := 0;
    while n < |pattern|
      invariant 0 <= n <= |pattern|
      invariant Transmitted(p.tlastPerPacket, source, pattern, n, taken, log)
      invariant p.Valid() && p.accepted == source[..taken] && p.emitted == sent
    {
      taken, log, sent := TransmitEdge(p, source, pattern, n, taken, log, sent);
      n := n + 1;
    }
  }

  // ---------------------------------------------------------------- What the error mask means

  predicate Has(errors: bv8, flag: bv8) { errors & flag != 0 }

  lemma HasOr(a: bv8, b: bv8, flag: bv8)
    ensures Has(a | b, flag) <==> Has(a, flag) || Has(b, flag)
  {
  }

  predicate SomeBeatHas(perPacket: bool, beats: seq<Beat>, flag: bv8)
    requires |beats| <= 8
  {
    exists j :: 0 <= j < |beats| && Has(CurrentErrors(perPacket, j, beats[j]), flag)
  }

  lemma {:induction false} PacketFlag(perPacket: bool, beats: seq<Beat>, flag: bv8)
    requires |beats| <= 8
    ensures Has(PacketErrors(perPacket, beats), flag) <==> SomeBeatHas(perPacket, beats, flag)
  {
    if beats != [] {
      var n := |beats| - 1;
      PacketFlag(perPacket, beats[..n], flag);
      HasOr(PacketErrors(perPacket, beats[..n]), CurrentErrors(perPacket, n, beats[n]), flag);
      SomeBeatSplit(perPacket, beats, flag);
    }
  }

  lemma SomeBeatSplit(perPacket: bool, beats: seq<Beat>, flag: bv8)
    requires 0 < |beats| <= 8
    ensures SomeBeatHas(perPacket, beats, flag)
       <==> || SomeBeatHas(perPacket, beats[..|beats| - 1], flag)
            || Has(CurrentErrors(perPacket, |beats| - 1, beats[|beats| - 1]), flag)
  {
    var n := |beats| - 1;
    assert forall j :: 0 <= j < n ==> beats[..n][j] == beats[j];
  }

  lemma {:induction false} PacketClean(perPacket: bool, beats: seq<Beat>)
    requires |beats| <= 8
    ensures PacketErrors(perPacket, beats) == 0
       <==> forall j :: 0 <= j < |beats| ==> CurrentErrors(perPacket, j, beats[j]) == 0
  {
    if beats != [] {
      var n := |beats| - 1;
      PacketClean(perPacket, beats[..n]);
      var a, b := PacketErrors(perPacket, beats[..n]), CurrentErrors(perPacket, n, beats[n]);
      assert a | b == 0 <==> a == 0 && b == 0;
      assert forall j :: 0 <= j < n ==> beats[..n][j] == beats[j];
    }
  }

  predicate FullKeep(b: Beats8) { forall j :: 0 <= j < 8 ==> b[j].keep == 0xF }

  predicate NoEarlyLast(b: Beats8) { forall j :: 0 <= j < 7 ==> !b[j].last }

  predicate LegalLast(perPacket: bool, b: Beats8) {
    NoEarlyLast(b) && (perPacket ==> b[7].last)
  }

  /** A quote has side 0 or 1, START and END have side 0. */
  predicate SideLegal(messageType: byte, side: byte) {
    if messageType == 1 then side <= 1 else side == 0
  }

  predicate TypeSupported(messageType: byte) { messageType in {1, 4, 5} }

  /** What one beat can contribute to each bit. */
  lemma BeatFlags(perPacket: bool, j: uint3, b: Beat)
    requires j < 8
    ensures var e, d := CurrentErrors(perPacket, j, b), b.data;
            && (Has(e, 0x01) <==> j == 0 && d != Word(0x48, 0x46, 0x54, 0x31))
            && (Has(e, 0x02) <==> j == 1 && d.lane0 != 1)
            && (Has(e, 0x04) <==> j == 1 && !TypeSupported(d.lane1))
            && (Has(e, 0x08) <==> j == 1 && TypeSupported(d.lane1) && !SideLegal(d.lane1, d.lane2))
            && (Has(e, 0x10) <==> j == 1 && d.lane3 != 0)
            && (Has(e, 0x20) <==> b.keep != 0xF)
            && (Has(e, 0x40) <==> j < 7 && b.last)
            && (Has(e, 0x80) <==> j == 7 && perPacket && !b.last)
  {
    SwappedMagic(b.data);
  }

  lemma SwappedMagic(d: Word)
    ensures ByteSwap32(d) == 0x48465431 <==> d == Word(0x48, 0x46, 0x54, 0x31)
  {
    StoreJoin(d.lane0, d.lane1, d.lane2, d.lane3);
    MagicBytes();
    if ByteSwap32(d) == 0x48465431 {
      assert [d.lane0, d.lane1, d.lane2, d.lane3][3] == [0x48, 0x46, 0x54, 0x31][3];
    }
  }

  /** Every bit of the mask, for any eight beats and both modes. */
  lemma ErrorFlagsMeaning(perPacket: bool, b: Beats8)
    ensures var e := PacketErrors(perPacket, b);
            && (Has(e, 0x01) <==> b[0].data != Word(0x48, 0x46, 0x54, 0x31))
            && (Has(e, 0x02) <==> b[1].data.lane0 != 1)
            && (Has(e, 0x04) <==> !TypeSupported(b[1].data.lane1))
            && (Has(e, 0x08) <==> TypeSupported(b[1].data.lane1) && !SideLegal(b[1].data.lane1, b[1].data.lane2))
            && (Has(e, 0x10) <==> b[1].data.lane3 != 0)
            && (Has(e, 0x20) <==> !FullKeep(b))
            && (Has(e, 0x40) <==> !NoEarlyLast(b))
            && (Has(e, 0x80) <==> perPacket && !b[7].last)
  {
    forall j | 0 <= j < 8 { BeatFlags(perPacket, j, b[j]); }
    PacketFlag(perPacket, b, 0x01);
    PacketFlag(perPacket, b, 0x02);
    PacketFlag(perPacket, b, 0x04);
    PacketFlag(perPacket, b, 0x08);
    PacketFlag(perPacket, b, 0x10);
    PacketFlag(perPacket, b, 0x20);
    PacketFlag(perPacket, b, 0x40);
    PacketFlag(perPacket, b, 0x80);
  }

  /** Agreement of the two validators.  For any eight beats, `packet_valid` is
      signalled exactly when TKEEP is full, TLAST is where the mode allows it, and
      the software check accepts the decoded fields. */
  lemma ValidatorsAgree(perPacket: bool, b: Beats8)
    ensures PacketErrors(perPacket, b) == 0
       <==> FullKeep(b) && LegalLast(perPacket, b) && ProtocolIsValid(Decode(b))
  {
    PacketClean(perPacket, b);
    forall j | 0 <= j < 8
      ensures CurrentErrors(perPacket, j, b[j]) == 0 <==>
                && b[j].keep == 0xF && (j < 7 ==> !b[j].last) && (j == 7 && perPacket ==> b[j].last)
                && (j == 0 ==> Decode(b).magic == MAGIC)
                && (j == 1 ==> ProtocolIsValid(Decode(b).(magic := MAGIC)))
    {
    }
  }

  // ---------------------------------------------------------------- Packets on the bus

  /** The eight beats of a packet in memory. */
  function BeatsOf(b: Packet, last: bool): Beats8 {
    seq(8, j requires 0 <= j < 8 => Beat(WordOf(b, j), 0xF, last && j == 7))
  }

  /** The parser decodes what the software unpacks, for any 32 bytes. */
  lemma DecodeIsUnpack(b: Packet, last: bool)
    ensures Decode(BeatsOf(b, last)) == Unpack(b)
  {
  }

  /** The parser accepts the beats of a packet in batch mode exactly when its bytes are
      sound. */
  lemma CleanMeansSound(b: Packet, last: bool)
    ensures PacketErrors(false, BeatsOf(b, last)) == 0 <==> Sound(b)
  {
    ValidatorsAgree(false, BeatsOf(b, last));
    DecodeIsUnpack(b, last);
    ValidMeansSound(b);
  }

  /** Packing, laying the bytes on the lanes and parsing returns the same fields. */
  lemma PacketRoundTrip(f: Fields, last: bool)
    ensures Decode(BeatsOf(Pack(f), last)) == f
  {
    UnpackPack(f);
    DecodeIsUnpack(Pack(f), last);
  }

  /** A DMA batch: TLAST only on the last beat of the last packet. */
  function BatchBeats(packets: seq<Packet>): (beats: seq<Beat>)
    ensures |beats| == 8 * |packets|
  {
    if packets == [] then []
    else OpenBatch(packets[..|packets| - 1]) + BeatsOf(packets[|packets| - 1], true)
  }

  function OpenBatch(packets: seq<Packet>): (beats: seq<Beat>)
    ensures |beats| == 8 * |packets|
  {
    if packets == [] then []
    else OpenBatch(packets[..|packets| - 1]) + BeatsOf(packets[|packets| - 1], false)
  }

  lemma {:induction false} OpenBatchPacket(packets: seq<Packet>, k: nat)
    requires k < |packets|
    ensures PacketBeats(OpenBatch(packets), k) == BeatsOf(packets[k], false)
  {
    var n := |packets| - 1;
    if k < n {
      OpenBatchPacket(packets[..n], k);
      assert PacketBeats(OpenBatch(packets), k) == PacketBeats(OpenBatch(packets[..n]), k);
    }
  }

  lemma BatchPacket(packets: seq<Packet>, k: nat)
    requires k < |packets|
    ensures PacketBeats(BatchBeats(packets), k) == BeatsOf(packets[k], k == |packets| - 1)
  {
    var n := |packets| - 1;
    if k < n {
      OpenBatchPacket(packets[..n], k);
      assert PacketBeats(BatchBeats(packets), k) == PacketBeats(OpenBatch(packets[..n]), k);
    }
  }

  /** In batch mode a batch of k packets gives k verdicts; packet j is valid exactly
      when the software check accepts it, and its fields are the unpacked ones. */
  lemma BatchVerdicts(packets: seq<Packet>)
    ensures var v := Verdicts(false, BatchBeats(packets));
            |v| == |packets| && forall j :: 0 <= j < |packets| ==>
              && v[j].fields == Unpack(packets[j])
              && (v[j].Valid() <==> ProtocolIsValid(Unpack(packets[j])))
  {
    forall j | 0 <= j < |packets|
      ensures var v := Judge(false, PacketBeats(BatchBeats(packets), j));
              && v.fields == Unpack(packets[j])
              && (v.Valid() <==> ProtocolIsValid(Unpack(packets[j])))
    {
      BatchPacket(packets, j);
      var last := j == |packets| - 1;
      DecodeIsUnpack(packets[j], last);
      ValidatorsAgree(false, BeatsOf(packets[j], last));
    }
  }

  /** In per-packet mode the same batch is accepted only if it is a single packet:
      every earlier packet lacks its TLAST. */
  lemma BatchInPerPacketMode(packets: seq<Packet>, k: nat)
    requires k < |packets| && ProtocolIsValid(Unpack(packets[k]))
    ensures Verdicts(true, BatchBeats(packets))[k].Valid() <==> k == |packets| - 1
    ensures k < |packets| - 1 ==> Has(Verdicts(true, BatchBeats(packets))[k].errors, 0x80)
  {
    BatchPacket(packets, k);
    var last := k == |packets| - 1;
    DecodeIsUnpack(packets[k], last);
    ValidatorsAgree(true, BeatsOf(packets[k], last));
    ErrorFlagsMeaning(true, BeatsOf(packets[k], last));
  }
}

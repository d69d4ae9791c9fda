/** The two senders: what each of them puts on the wire, packet by packet. */
module Senders {
  import opened Words
  import opened Hft1
  import opened Pacing

  /** A packet with the constant magic, version and flags. */
  function Message(
    messageType: byte, side: byte, sequence: uint32, timestamp: uint64,
    instrumentId: uint32, priceTicks: uint32, quantity: uint32): Fields
  {
    Fields(MAGIC, VERSION, messageType, side, 0, sequence, timestamp, instrumentId, priceTicks, quantity)
  }

  // ---------------------------------------------------------------- Host stream sender

  const END_MARKER_REPEATS: int := 5
  const MAX_PPS: int := 100000
  const MAX_PLANNED: int := 10000000

  /** Settings that pass the argument checks of the sender. */
  datatype HostConfig = HostConfig(pps: uint32, durationMs: uint32, planned: uint32) {
    predicate Accepted() { 1 <= pps <= MAX_PPS && 1 <= planned <= MAX_PLANNED }
  }

  /** Rounds to the nearest whole number, and a tie to the even one. */
  function Round(x: real): int {
    var whole, rest := x.Floor, x - x.Floor as real;
    if rest < 0.5 || (rest == 0.5 && whole % 2 == 0) then whole else whole + 1
  }

  /** The settings that the sender derives from its arguments, if it accepts them. */
  function Configure(pps: int, duration: real): Option<HostConfig> {
    if !(1 <= pps <= MAX_PPS) || duration <= 0.0 then None else
      var planned, durationMs := Round(pps as real * duration), Round(duration * 1000.0);
      if !(1 <= planned <= MAX_PLANNED) || durationMs > 0xFFFF_FFFF then None
      else Some(HostConfig(pps, durationMs, planned))
  }

  /** Which arguments the sender accepts: rates from 1 to 100000 packets/s and durations
      that give 1 to 10000000 quotes and a 32-bit number of milliseconds. */
  lemma ConfigureAccepts(pps: int, duration: real)
    ensures Configure(pps, duration).Some?
       <==> && 1 <= pps <= 100000 && duration > 0.0
            && 0.5 < pps as real * duration <= 10000000.5
            && duration * 1000.0 < 4294967295.5
    ensures Configure(pps, duration).Some? ==>
              Configure(pps, duration).value
              == HostConfig(pps, Round(duration * 1000.0), Round(pps as real * duration))
  {
    if 1 <= pps <= 100000 && duration > 0.0 {
      RoundsBelow(pps as real * duration, 0);
      RoundsBelow(pps as real * duration, 10000000);
      RoundsBelow(duration * 1000.0, 4294967295);
    }
  }

  lemma RoundsBelow(x: real, n: nat)
    ensures Round(x) <= n <==> if n % 2 == 0 then x <= n as real + 0.5 else x < n as real + 0.5
  {
    var whole := x.Floor;
    assert whole as real <= x < whole as real + 1.0;
  }

  /** An accepted run is announced as 0 ms exactly when it lasts at most half a
      millisecond, which takes a rate above 1000 packets/s. */
  lemma AnnouncedAsZero(pps: int, duration: real)
    requires Configure(pps, duration).Some?
    ensures var c := Configure(pps, duration).value;
            && c.Accepted()
            && (c.durationMs == 0 <==> duration <= 0.0005)
            && (c.durationMs == 0 ==> c.pps > 1000)
  {
    RoundsToZero(duration * 1000.0);
    RoundsToZero(pps as real * duration);
    if duration <= 0.0005 {
      Scales(pps as real, duration, 0.0005);
      assert 0.5 < pps as real * duration <= pps as real * 0.0005;
    }
  }

  lemma Scales(k: real, x: real, y: real)
    requires k > 0.0 && x <= y
    ensures k * x <= k * y
  {
  }

  lemma RoundsToZero(x: real)
    requires x > 0.0
    ensures Round(x) == 0 <==> x <= 0.5
  {
    assert x.Floor as real <= x < x.Floor as real + 1.0;
    assert x.Floor >= 0;
  }

  function HostStart(c: HostConfig, timestamp: uint64): Fields {
    Message(STREAM_START, 0, 0, timestamp, c.pps, c.durationMs, c.planned)
  }

  function HostQuote(number: uint32, timestamp: uint64): Fields
    requires number >= 1
  {
    Message(QUOTE_UPDATE, number % 2, number, timestamp,
            1 + (number - 1) % 3, 18500 + number % 101, 1 + number * 10 % 1000)
  }

  function HostEnd(c: HostConfig, sent: uint32, timestamp: uint64): Fields {
    Message(STREAM_END, 0, sent, timestamp, c.pps, c.durationMs, sent)
  }

  function QuotePacket(number: uint32, clock: nat -> uint64): Packet
    requires number >= 1
  {
    Pack(HostQuote(number, clock(number)))
  }

  function EndPacket(c: HostConfig, sent: uint32, clock: nat -> uint64): Packet {
    Pack(HostEnd(c, sent, clock(sent + 1)))
  }

  /** Quotes 1 to m; `clock` gives the send time of each quote. */
  function HostQuotes(m: uint32, clock: nat -> uint64): (p: seq<Packet>)
    ensures |p| == m
  {
    seq(m, i requires 0 <= i < m => QuotePacket(i + 1, clock))
  }

  /** Everything sent when the run stops after m of the planned quotes. */
  function HostStream(c: HostConfig, m: uint32, clock: nat -> uint64): seq<Packet> {
    [Pack(HostStart(c, clock(0)))] + HostQuotes(m, clock)
      + seq(END_MARKER_REPEATS, _ => EndPacket(c, m, clock))
  }

  /** `pack_packet_into`: overwrites the whole reused buffer. */
  method PackInto(buffer: array<byte>, f: Fields)
    requires buffer.Length == PACKET_SIZE
    modifies buffer
    ensures buffer[..] == Pack(f)
  {
    var packed := Pack(f);
    var i := 0;
    while i < PACKET_SIZE
      invariant 0 <= i <= PACKET_SIZE
      invariant buffer[..i] == packed[..i]
    {
      buffer[i] := packed[i];
      i := i + 1;
    }
    assert buffer[..] == buffer[..i];
  }

  /** The paced quotes, up to the one after which the run is interrupted, and the
      deadline that each of them waited for. */
  method SendQuotes(c: HostConfig, startTime: int, stopAfter: uint32, clock: nat -> uint64, buffer: array<byte>)
    returns (wire: seq<Packet>, deadlines: seq<int>)
    requires c.Accepted() && buffer.Length == PACKET_SIZE
    modifies buffer
    ensures wire == HostQuotes(Min(stopAfter, c.planned), clock)
    ensures |deadlines| == Min(stopAfter, c.planned)
    ensures forall i :: 0 <= i < |deadlines| ==> deadlines[i] == Deadline(startTime, i + 1, c.pps)
  {
    wire, deadlines := [], [];
    var sentPackets := 0;
    while sentPackets < c.planned && sentPackets < stopAfter
      invariant 0 <= sentPackets <= Min(stopAfter, c.planned)
      invariant wire == HostQuotes(sentPackets, clock)
      invariant |deadlines| == sentPackets
      invariant forall i :: 0 <= i < |deadlines| ==> deadlines[i] == Deadline(startTime, i + 1, c.pps)
    {
      var sequence := sentPackets + 1;
      deadlines := deadlines + [startTime + (sequence - 1) * SECOND / c.pps];
      PackInto(buffer, HostQuote(sequence, clock(sequence)));
      wire := wire + [buffer[..]];
      sentPackets := sequence;
    }
  }

  /** The END marker, repeated. */
  method SendEndMarkers(c: HostConfig, sentPackets: uint32, clock: nat -> uint64, buffer: array<byte>)
    returns (wire: seq<Packet>)
    requires buffer.Length == PACKET_SIZE
    modifies buffer
    ensures wire == seq(END_MARKER_REPEATS, _ => EndPacket(c, sentPackets, clock))
  {
    PackInto(buffer, HostEnd(c, sentPackets, clock(sentPackets + 1)));
    wire := [];
    var k := 0;
    while k < END_MARKER_REPEATS
      invariant 0 <= k <= END_MARKER_REPEATS
      invariant buffer[..] == EndPacket(c, sentPackets, clock)
      invariant wire == seq(k, _ => EndPacket(c, sentPackets, clock))
    {
      wire := wire + [buffer[..]];
      k := k + 1;
    }
  }

  /** START, the quotes up to the one after which the run is interrupted (or all of
      them), and the repeated END marker, all through one reused buffer; and the
      deadline that each quote waited for. */
  method SendHostStream(c: HostConfig, startTime: int, stopAfter: uint32, clock: nat -> uint64)
    returns (wire: seq<Packet>, deadlines: seq<int>)
    requires c.Accepted()
    ensures wire == HostStream(c, Min(stopAfter, c.planned), clock)
    ensures |deadlines| == Min(stopAfter, c.planned)
    ensures forall i :: 0 <= i < |deadlines| ==> deadlines[i] == Deadline(startTime, i + 1, c.pps)
  {
    var buffer := new byte[PACKET_SIZE];
    PackInto(buffer, HostStart(c, clock(0)));
    var start: Packet := buffer[..];
    var quotes;
    quotes, deadlines := SendQuotes(c, startTime, stopAfter, clock, buffer);
    var end := SendEndMarkers(c, |quotes|, clock, buffer);
    wire := [start] + quotes + end;
  }

  // ---------------------------------------------------------------- Live FPGA sender

  datatype LiveConfig = LiveConfig(total: uint32, pps: uint32, durationMs: uint32)

  /** `build_packet`: START first, END last, quotes between, numbered from 1. */
  function LiveFields(c: LiveConfig, index: nat, timestamp: uint64): Fields
    requires index < c.total
  {
    var sequence := index + 1;
    if index == 0 then
      Message(STREAM_START, 0, sequence, timestamp, c.pps, c.durationMs, c.total)
    else if index == c.total - 1 then
      Message(STREAM_END, 0, sequence, timestamp, 0, 0, 0)
    else
      Message(QUOTE_UPDATE, sequence % 2, sequence, timestamp,
              1 + index % 4, 100000 + index % 1000, 1 + index % 100)
  }

  function LivePacket(c: LiveConfig, index: nat, clock: nat -> uint64): Packet
    requires index < c.total
  {
    Pack(LiveFields(c, index, clock(index)))
  }

  function LiveStream(c: LiveConfig, clock: nat -> uint64): (wire: seq<Packet>)
    ensures |wire| == c.total
  {
    seq(c.total, i requires 0 <= i < c.total => LivePacket(c, i, clock))
  }

  /** The live send loop, with the fixed-interval deadline of each packet. */
  method SendLiveStream(c: LiveConfig, startTime: int, clock: nat -> uint64)
    returns (wire: seq<Packet>, deadlines: seq<int>)
    requires c.pps >= 1
    ensures wire == LiveStream(c, clock)
    ensures |deadlines| == c.total
    ensures forall i :: 0 <= i < c.total ==> deadlines[i] == FixedDeadline(startTime, i, c.pps)
  {
    wire, deadlines := [], [];
    var packetInterval := SECOND / c.pps;
    var packetIndex := 0;
    while packetIndex < c.total
      invariant 0 <= packetIndex <= c.total
      invariant wire == LiveStream(c, clock)[..packetIndex]
      invariant |deadlines| == packetIndex
      invariant forall i :: 0 <= i < packetIndex ==> deadlines[i] == FixedDeadline(startTime, i, c.pps)
    {
      deadlines := deadlines + [startTime + packetIndex * packetInterval];
      wire := wire + [LivePacket(c, packetIndex, clock)];
      packetIndex := packetIndex + 1;
    }
  }

  // ---------------------------------------------------------------- The bytes sent

  /** A packet of either sender, byte by byte. */
  ghost predicate Says(p: Packet, messageType: byte, side: byte, sequence: uint32, timestamp: uint64,
                       instrumentId: uint32, priceTicks: uint32, quantity: uint32)
  {
    && p[0..4] == [0x48, 0x46, 0x54, 0x31]
    && p[4] == 1 && p[5] == messageType && p[6] == side && p[7] == 0
    && Number(p[8..12]) == sequence
    && Number(p[12..20]) == timestamp
    && Number(p[20..24]) == instrumentId
    && Number(p[24..28]) == priceTicks
    && Number(p[28..32]) == quantity
  }

  lemma MessageSays(f: Fields)
    requires f.magic == 0x48465431 && f.version == 1 && f.reserved == 0
    ensures Says(Pack(f), f.messageType, f.side, f.sequence, f.timestamp, f.instrumentId, f.priceTicks, f.quantity)
  {
    UnpackPack(f);
    FieldOffsets(Pack(f));
    PackCarries(f);
  }

  /** Quote `s` of the host sender: its side is s mod 2, and its instrument, price and
      quantity follow from s. */
  ghost predicate SaysQuote(p: Packet, s: uint32, timestamp: uint64) {
    Says(p, 1, s % 2, s, timestamp, 1 + (s - 1) % 3, 18500 + s % 101, 1 + s * 10 % 1000)
  }

  lemma QuoteSays(s: uint32, clock: nat -> uint64)
    requires s >= 1
    ensures SaysQuote(QuotePacket(s, clock), s, clock(s))
  {
    MessageSays(HostQuote(s, clock(s)));
  }

  /** The order of the packets on the wire. */
  lemma HostStreamAt(c: HostConfig, m: uint32, clock: nat -> uint64)
    ensures var wire := HostStream(c, m, clock);
            && |wire| == m + 6
            && wire[0] == Pack(HostStart(c, clock(0)))
            && (forall s :: 1 <= s <= m ==> wire[s] == QuotePacket(s, clock))
            && (forall k :: m < k < m + 6 ==> wire[k] == EndPacket(c, m, clock))
  {
  }

  /** What the host sender puts on the wire when it stops after `m` quotes: START with
      rate, duration and planned count; quotes 1 to m; and five END markers that
      announce m. */
  lemma HostStreamSays(c: HostConfig, m: uint32, clock: nat -> uint64)
    ensures var wire := HostStream(c, m, clock);
            && |wire| == m + 6
            && Says(wire[0], 4, 0, 0, clock(0), c.pps, c.durationMs, c.planned)
            && (forall s :: 1 <= s <= m ==> SaysQuote(wire[s], s, clock(s)))
            && (forall k :: m < k < m + 6 ==> Says(wire[k], 5, 0, m, clock(m + 1), c.pps, c.durationMs, m))
  {
    HostStreamAt(c, m, clock);
    MessageSays(HostStart(c, clock(0)));
    MessageSays(HostEnd(c, m, clock(m + 1)));
    forall s | 1 <= s <= m
      ensures SaysQuote(QuotePacket(s, clock), s, clock(s))
    {
      QuoteSays(s, clock);
    }
  }

  /** What the live sender puts on the wire: START first, END last and quotes between,
      numbered from 1. */
  lemma LiveStreamSays(c: LiveConfig, clock: nat -> uint64, i: nat)
    requires c.total >= 2 && i < c.total
    ensures var p := LiveStream(c, clock)[i];
            && (i == 0 ==> Says(p, 4, 0, 1, clock(0), c.pps, c.durationMs, c.total))
            && (i == c.total - 1 ==> Says(p, 5, 0, c.total, clock(i), 0, 0, 0))
            && (0 < i < c.total - 1 ==>
                  Says(p, 1, (i + 1) % 2, i + 1, clock(i), 1 + i % 4, 100000 + i % 1000, 1 + i % 100))
  {
    MessageSays(LiveFields(c, i, clock(i)));
  }

  /** Everything either sender emits passes the protocol check of the receivers. */
  lemma SentIsValid(c: HostConfig, number: uint32, sent: uint32, l: LiveConfig, index: nat, timestamp: uint64)
    requires number >= 1 && index < l.total
    ensures ProtocolIsValid(HostStart(c, timestamp))
    ensures ProtocolIsValid(HostQuote(number, timestamp))
    ensures ProtocolIsValid(HostEnd(c, sent, timestamp))
    ensures ProtocolIsValid(LiveFields(l, index, timestamp))
  {
  }
}

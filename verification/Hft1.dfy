/** The 32-byte HFT1 packet: its fields, its network byte order, the checks of the
    software receiver, and its layout on 32-bit little-lane AXI words. */
module Hft1 {
  import opened Words

  const PACKET_SIZE: int := 32
  const MAGIC: uint32 := 0x48465431
  const VERSION: byte := 1
  const QUOTE_UPDATE: byte := 1
  const STREAM_START: byte := 4
  const STREAM_END: byte := 5

  datatype Fields = Fields(
    magic: uint32,
    version: byte,
    messageType: byte,
    side: byte,
    reserved: byte,
    sequence: uint32,
    timestamp: uint64,
    instrumentId: uint32,
    priceTicks: uint32,
    quantity: uint32)

  type Packet = b: seq<byte> | |b| == PACKET_SIZE
    witness seq(32, _ => 0)

  // ---------------------------------------------------------------- Network byte order

  function Join(b0: byte, b1: byte, b2: byte, b3: byte): uint32 {
    ((b0 * 0x100 + b1) * 0x100 + b2) * 0x100 + b3
  }

  /** Four bytes, most significant first. */
  function Store32(x: uint32): (b: seq<byte>)
    ensures |b| == 4
  {
    [x / 0x100 / 0x100 / 0x100, x / 0x100 / 0x100 % 0x100, x / 0x100 % 0x100, x % 0x100]
  }

  /** `load_be32` at an offset. */
  function Load32(b: seq<byte>, at: nat): uint32
    requires at + 4 <= |b|
  {
    Join(b[at], b[at + 1], b[at + 2], b[at + 3])
  }

  /** The struct format "!4sBBBBIQIII". */
  function Pack(f: Fields): Packet {
    Store32(f.magic) + [f.version, f.messageType, f.side, f.reserved] +
    Store32(f.sequence) + Store32(f.timestamp / TWO32) + Store32(f.timestamp % TWO32) +
    Store32(f.instrumentId) + Store32(f.priceTicks) + Store32(f.quantity)
  }

  function Unpack(b: Packet): Fields {
    Fields(Load32(b, 0), b[4], b[5], b[6], b[7], Load32(b, 8),
           Load32(b, 12) * TWO32 + Load32(b, 16),
           Load32(b, 20), Load32(b, 24), Load32(b, 28))
  }

  /** The number that bytes stand for, most significant first. */
  function Number(b: seq<byte>): nat {
    if b == [] then 0 else Number(b[..|b| - 1]) * 256 + b[|b| - 1]
  }

  lemma NumberPush(b: seq<byte>, x: byte)
    ensures Number(b + [x]) == Number(b) * 256 + x
  {
    assert (b + [x])[..|b|] == b;
  }

  lemma NumberOfFour(b: seq<byte>, at: nat)
    requires at + 4 <= |b|
    ensures Number(b[at..at + 4]) == Load32(b, at)
  {
    NumberAfter([], b, at);
    assert [] + b[at..at + 4] == b[at..at + 4];
  }

  /** Four more bytes. */
  lemma NumberAfter(a: seq<byte>, b: seq<byte>, at: nat)
    requires at + 4 <= |b|
    ensures Number(a + b[at..at + 4]) == Number(a) * TWO32 + Load32(b, at)
  {
    NumberPush(a, b[at]);
    NumberPush(a + [b[at]], b[at + 1]);
    NumberPush(a + [b[at]] + [b[at + 1]], b[at + 2]);
    NumberPush(a + [b[at]] + [b[at + 1]] + [b[at + 2]], b[at + 3]);
    assert a + b[at..at + 4] == a + [b[at]] + [b[at + 1]] + [b[at + 2]] + [b[at + 3]];
  }

  /** Where the fields of 32 received bytes are. */
  lemma FieldOffsets(b: Packet)
    ensures var f := Unpack(b);
            && f.magic == Number(b[0..4])
            && f.version == b[4] && f.messageType == b[5] && f.side == b[6] && f.reserved == b[7]
            && f.sequence == Number(b[8..12])
            && f.timestamp == Number(b[12..20])
            && f.instrumentId == Number(b[20..24])
            && f.priceTicks == Number(b[24..28])
            && f.quantity == Number(b[28..32])
  {
    NumberOfFour(b, 0);
    NumberOfFour(b, 8);
    NumberOfFour(b, 12);
    NumberAfter(b[12..16], b, 16);
    assert b[12..16] + b[16..20] == b[12..20];
    NumberOfFour(b, 20);
    NumberOfFour(b, 24);
    NumberOfFour(b, 28);
  }

  lemma LoadStore(x: uint32)
    ensures var b := Store32(x); Join(b[0], b[1], b[2], b[3]) == x
  {
  }

  lemma StoreJoin(b0: byte, b1: byte, b2: byte, b3: byte)
    ensures Store32(Join(b0, b1, b2, b3)) == [b0, b1, b2, b3]
  {
    Peel(b0 * 0x100 + b1, b2);
    Peel((b0 * 0x100 + b1) * 0x100 + b2, b3);
    Peel(b0, b1);
  }

  lemma Peel(q: nat, r: byte)
    ensures (q * 0x100 + r) / 0x100 == q && (q * 0x100 + r) % 0x100 == r
  {
  }

  lemma StoreLoad(b: seq<byte>, at: nat)
    requires at + 4 <= |b|
    ensures Store32(Load32(b, at)) == b[at..at + 4]
  {
    StoreJoin(b[at], b[at + 1], b[at + 2], b[at + 3]);
  }

  lemma HalvesOf64(high: uint32, low: uint32)
    ensures (high * TWO32 + low) / TWO32 == high
    ensures (high * TWO32 + low) % TWO32 == low
  {
  }

  /** Every field survives packing. */
  lemma UnpackPack(f: Fields)
    ensures Unpack(Pack(f)) == f
  {
    LoadStore(f.magic);
    LoadStore(f.sequence);
    LoadStore(f.timestamp / TWO32);
    LoadStore(f.timestamp % TWO32);
    LoadStore(f.instrumentId);
    LoadStore(f.priceTicks);
    LoadStore(f.quantity);
  }

  /** Every 32 bytes are the packing of what they unpack to. */
  lemma PackUnpack(b: Packet)
    ensures Pack(Unpack(b)) == b
  {
    var f := Unpack(b);
    assert f.timestamp / TWO32 == Load32(b, 12) && f.timestamp % TWO32 == Load32(b, 16) by {
      HalvesOf64(Load32(b, 12), Load32(b, 16));
    }
    assert Store32(f.magic) == b[0..4] by { StoreLoad(b, 0); }
    assert Store32(f.sequence) == b[8..12] by { StoreLoad(b, 8); }
    assert Store32(f.timestamp / TWO32) == b[12..16] by { StoreLoad(b, 12); }
    assert Store32(f.timestamp % TWO32) == b[16..20] by { StoreLoad(b, 16); }
    assert Store32(f.instrumentId) == b[20..24] by { StoreLoad(b, 20); }
    assert Store32(f.priceTicks) == b[24..28] by { StoreLoad(b, 24); }
    assert Store32(f.quantity) == b[28..32] by { StoreLoad(b, 28); }
    WordsOfPacket(b);
  }

  lemma WordsOfPacket(b: Packet)
    ensures b[0..4] + [b[4], b[5], b[6], b[7]] + b[8..12] + b[12..16] + b[16..20]
          + b[20..24] + b[24..28] + b[28..32] == b
  {
  }

  /** Where the fields of a packet lie in its bytes. */
  ghost predicate Carries(p: Packet, f: Fields) {
    && (f.magic == MAGIC ==> p[0..4] == [0x48, 0x46, 0x54, 0x31])
    && p[4] == f.version && p[5] == f.messageType && p[6] == f.side && p[7] == f.reserved
    && Load32(p, 8) == f.sequence
    && Load32(p, 12) == f.timestamp / TWO32 && Load32(p, 16) == f.timestamp % TWO32
    && Load32(p, 20) == f.instrumentId
    && Load32(p, 24) == f.priceTicks && Load32(p, 28) == f.quantity
  }

  lemma PackCarries(f: Fields)
    ensures Carries(Pack(f), f)
  {
    UnpackPack(f);
    MagicBytes();
    assert Pack(f)[0..4] == Store32(f.magic);
    HalvesOf64(Load32(Pack(f), 12), Load32(Pack(f), 16));
  }

  lemma MagicBytes()
    ensures Store32(MAGIC) == [0x48, 0x46, 0x54, 0x31]
  {
  }

  // ---------------------------------------------------------------- Software validation

  /** `protocol_is_valid` of the live receiver. */
  predicate ProtocolIsValid(f: Fields) {
    && f.magic == MAGIC && f.version == VERSION && f.reserved == 0
    && f.messageType in {QUOTE_UPDATE, STREAM_START, STREAM_END}
    && (if f.messageType == QUOTE_UPDATE then f.side in {0, 1} else f.side == 0)
  }

  /** The software check on the received bytes. */
  predicate Sound(b: Packet) {
    && b[0..4] == [0x48, 0x46, 0x54, 0x31] && b[4] == 1 && b[7] == 0
    && ((b[5] == 1 && b[6] <= 1) || ((b[5] == 4 || b[5] == 5) && b[6] == 0))
  }

  lemma MagicIsHft1(b: Packet)
    ensures Load32(b, 0) == 0x48465431 <==> b[0..4] == [0x48, 0x46, 0x54, 0x31]
  {
    StoreLoad(b, 0);
    MagicBytes();
  }

  lemma ValidMeansSound(b: Packet)
    ensures ProtocolIsValid(Unpack(b)) <==> Sound(b)
  {
    MagicIsHft1(b);
  }

  // ---------------------------------------------------------------- AXI words

  /** A 32-bit TDATA word as its byte lanes data[7:0], data[15:8], data[23:16] and
      data[31:24]. */
  datatype Word = Word(lane0: byte, lane1: byte, lane2: byte, lane3: byte)

  datatype Beat = Beat(data: Word, keep: uint4, last: bool)

  /** `byte_swap32`: {data[7:0], data[15:8], data[23:16], data[31:24]} as a number. */
  function ByteSwap32(d: Word): uint32 {
    Join(d.lane0, d.lane1, d.lane2, d.lane3)
  }

  /** Word `j` of a packet in memory, as the DMA puts it on the bus: ascending
      addresses on ascending lanes. */
  function WordOf(b: Packet, j: nat): Word
    requires j < 8
  {
    Word(b[4 * j], b[4 * j + 1], b[4 * j + 2], b[4 * j + 3])
  }
}

/** The HFT1 packet parser behind a one-beat elastic AXI4-Stream register.

    The specification of a packet is a function of its eight beats.  `Parser` is
    the clocked form; its invariant ties every register to the list of all beats
    accepted since reset, so that nothing in it depends on the stall pattern. */
module PacketParser {
  import opened Words
  import opened Hft1

  const ERROR_MAGIC: bv8 := 0x01
  const ERROR_VERSION: bv8 := 0x02
  const ERROR_MESSAGE_TYPE: bv8 := 0x04
  const ERROR_SIDE: bv8 := 0x08
  const ERROR_RESERVED: bv8 := 0x10
  const ERROR_KEEP: bv8 := 0x20
  const ERROR_EARLY_TLAST: bv8 := 0x40
  const ERROR_MISSING_TLAST: bv8 := 0x80

  // ---------------------------------------------------------------- One beat

  function LastErrors(tlastPerPacket: bool, wordIndex: uint3, last: bool): bv8 {
    if tlastPerPacket && wordIndex == 7 && !last then ERROR_MISSING_TLAST
    else if wordIndex != 7 && last then ERROR_EARLY_TLAST
    else 0
  }

  function SideErrors(messageType: byte, side: byte): bv8 {
    if messageType == 1 then (if side != 0 && side != 1 then ERROR_SIDE else 0)
    else if messageType == 4 || messageType == 5 then (if side != 0 then ERROR_SIDE else 0)
    else ERROR_MESSAGE_TYPE
  }

  /** The combinational `current_errors` of one beat. */
  function CurrentErrors(tlastPerPacket: bool, wordIndex: uint3, b: Beat): bv8 {
    (if b.keep != 0xF then ERROR_KEEP else 0)
    | LastErrors(tlastPerPacket, wordIndex, b.last)
    | (if wordIndex == 0 then
         (if ByteSwap32(b.data) != 0x48465431 then ERROR_MAGIC else 0)
       else if wordIndex == 1 then
         (if b.data.lane0 != 1 then ERROR_VERSION else 0)
         | SideErrors(b.data.lane1, b.data.lane2)
         | (if b.data.lane3 != 0 then ERROR_RESERVED else 0)
       else 0)
  }

  // ---------------------------------------------------------------- One packet

  type Beats8 = b: seq<Beat> | |b| == 8 witness seq(8, _ => Beat(Word(0, 0, 0, 0), 0, false))

  /** The errors of the first beats of a packet, or of all eight. */
  function PacketErrors(tlastPerPacket: bool, beats: seq<Beat>): bv8
    requires |beats| <= 8
  {
    if beats == [] then 0 else
      var n := |beats| - 1;
      PacketErrors(tlastPerPacket, beats[..n]) | CurrentErrors(tlastPerPacket, n, beats[n])
  }

  lemma ErrorsNext(tlastPerPacket: bool, packet: seq<Beat>, b: Beat)
    requires |packet| < 8
    ensures PacketErrors(tlastPerPacket, packet + [b])
         == PacketErrors(tlastPerPacket, packet) | CurrentErrors(tlastPerPacket, |packet|, b)
  {
    assert (packet + [b])[..|packet|] == packet;
  }

  function Decode(b: Beats8): Fields {
    Fields(ByteSwap32(b[0].data),
           b[1].data.lane0, b[1].data.lane1, b[1].data.lane2, b[1].data.lane3,
           ByteSwap32(b[2].data),
           ByteSwap32(b[3].data) * TWO32 + ByteSwap32(b[4].data),
           ByteSwap32(b[5].data), ByteSwap32(b[6].data), ByteSwap32(b[7].data))
  }

  datatype Verdict = Verdict(errors: bv8, fields: Fields) {
    predicate Valid() { errors == 0 }
  }

  function Judge(tlastPerPacket: bool, b: Beats8): Verdict {
    Verdict(PacketErrors(tlastPerPacket, b), Decode(b))
  }

  /** Packet `k` of a beat stream. */
  function PacketBeats(beats: seq<Beat>, k: nat): Beats8
    requires 8 * k + 8 <= |beats|
  {
    beats[8 * k..8 * k + 8]
  }

  /** The verdicts of all complete packets of a beat stream, in order. */
  function Verdicts(tlastPerPacket: bool, beats: seq<Beat>): (v: seq<Verdict>)
    ensures |v| == |beats| / 8
  {
    seq(|beats| / 8, k requires 0 <= k < |beats| / 8 => Judge(tlastPerPacket, PacketBeats(beats, k)))
  }

  // ---------------------------------------------------------------- The clocked parser

  /** Everything sampled on one rising edge. */
  datatype ParserInput = ParserInput(aresetn: bool, beat: Beat, valid: bool, mReady: bool)

  /** The field registers; the timestamp is written one half at a time. */
  datatype Registers = Registers(
    magic: uint32, version: byte, messageType: byte, side: byte, reserved: byte,
    sequence: uint32, timestampHigh: uint32, timestampLow: uint32,
    instrumentId: uint32, priceTicks: uint32, quantity: uint32)
  {
    /** The decoded outputs of the module. */
    function Output(): Fields {
      Fields(magic, version, messageType, side, reserved, sequence,
             timestampHigh * TWO32 + timestampLow, instrumentId, priceTicks, quantity)
    }
  }

  const CLEARED: Registers := Registers(0, 0, 0, 0, 0, 0, 0, 0, 0, 0, 0)

  /** The case statement that captures one accepted word. */
  function Capture(r: Registers, wordIndex: uint3, d: Word): Registers {
    match wordIndex
    case 0 => r.(magic := ByteSwap32(d))
    case 1 => r.(version := d.lane0, messageType := d.lane1, side := d.lane2, reserved := d.lane3)
    case 2 => r.(sequence := ByteSwap32(d))
    case 3 => r.(timestampHigh := ByteSwap32(d))
    case 4 => r.(timestampLow := ByteSwap32(d))
    case 5 => r.(instrumentId := ByteSwap32(d))
    case 6 => r.(priceTicks := ByteSwap32(d))
    case _ => r.(quantity := ByteSwap32(d))
  }

  /** One register (or register group) agrees with the word that feeds it. */
  ghost predicate FieldFrom(r: Registers, j: nat, d: Word) {
    match j
    case 0 => r.magic == ByteSwap32(d)
    case 1 => r.version == d.lane0 && r.messageType == d.lane1 && r.side == d.lane2 && r.reserved == d.lane3
    case 2 => r.sequence == ByteSwap32(d)
    case 3 => r.timestampHigh == ByteSwap32(d)
    case 4 => r.timestampLow == ByteSwap32(d)
    case 5 => r.instrumentId == ByteSwap32(d)
    case 6 => r.priceTicks == ByteSwap32(d)
    case 7 => r.quantity == ByteSwap32(d)
    case _ => true
  }

  /** The field registers hold the words of the first beats of a packet. */
  ghost predicate Captured(r: Registers, packet: seq<Beat>)
    requires |packet| <= 8
  {
    forall j :: 0 <= j < |packet| ==> FieldFrom(r, j, packet[j].data)
  }

  lemma CaptureNext(r: Registers, packet: seq<Beat>, b: Beat)
    requires |packet| < 8 && Captured(r, packet)
    ensures Captured(Capture(r, |packet|, b.data), packet + [b])
  {
    var next := Capture(r, |packet|, b.data);
    forall j | 0 <= j < |packet| ensures FieldFrom(next, j, packet[j].data) {
      assert FieldFrom(r, j, packet[j].data);
    }
    assert FieldFrom(next, |packet|, b.data);
  }

  lemma CapturedAll(r: Registers, packet: Beats8)
    requires Captured(r, packet)
    ensures r.Output() == Decode(packet)
  {
    assert FieldFrom(r, 0, packet[0].data) && FieldFrom(r, 1, packet[1].data);
    assert FieldFrom(r, 2, packet[2].data) && FieldFrom(r, 3, packet[3].data);
    assert FieldFrom(r, 4, packet[4].data) && FieldFrom(r, 5, packet[5].data);
    assert FieldFrom(r, 6, packet[6].data) && FieldFrom(r, 7, packet[7].data);
  }

  /** The beats of the packet that is being received. */
  function Partial(beats: seq<Beat>): (r: seq<Beat>)
    ensures |r| == |beats| % 8
  {
    beats[|beats| / 8 * 8..]
  }

  lemma PartialPush(beats: seq<Beat>, b: Beat)
    ensures |beats| % 8 < 7 ==> Partial(beats + [b]) == Partial(beats) + [b]
    ensures |beats| % 8 == 7 ==> Partial(beats + [b]) == []
    ensures |beats| % 8 == 7 ==> (beats + [b])[|beats| - 7..] == Partial(beats) + [b]
  {
  }

  /** The framing registers: position in the packet, errors so far, field registers. */
  datatype Frame = Frame(wordIndex: uint3, packetErrors: bv8, fields: Registers)

  const NO_FRAME: Frame := Frame(0, 0, CLEARED)

  /** The completion outputs. */
  datatype Completion = Completion(packetValid: bool, packetError: bool, errorFlags: bv8)

  const NO_COMPLETION: Completion := Completion(false, false, 0)

  /** The framing registers describe the packet that is being received. */
  ghost predicate Framed(perPacket: bool, f: Frame, beats: seq<Beat>) {
    && f.wordIndex == |Partial(beats)|
    && f.packetErrors == PacketErrors(perPacket, Partial(beats))
    && Captured(f.fields, Partial(beats))
  }

  /** The completion outputs, with the decoded fields, announce the last packet. */
  ghost predicate Announced(perPacket: bool, c: Completion, fields: Fields, beats: seq<Beat>)
    requires |beats| >= 8
  {
    var v := Judge(perPacket, beats[|beats| - 8..]);
    c == Completion(v.Valid(), !v.Valid(), v.errors) && fields == v.fields
  }

  /** The outcome of one edge on which a beat was accepted. */
  ghost predicate Accepted(perPacket: bool, f: Frame, c: Completion, beats: seq<Beat>) {
    && Framed(perPacket, f, beats)
    && if |beats| > 0 && |beats| % 8 == 0
       then Announced(perPacket, c, f.fields.Output(), beats)
       else c == NO_COMPLETION
  }

  /** The framing registers after an accepted beat. */
  function NextFrame(perPacket: bool, f: Frame, b: Beat): Frame {
    Frame(if f.wordIndex == 7 then 0 else f.wordIndex + 1,
          if f.wordIndex == 7 then 0 else f.packetErrors | CurrentErrors(perPacket, f.wordIndex, b),
          Capture(f.fields, f.wordIndex, b.data))
  }

  function NextCompletion(perPacket: bool, f: Frame, b: Beat): Completion {
    var all := f.packetErrors | CurrentErrors(perPacket, f.wordIndex, b);
    if f.wordIndex == 7 then Completion(all == 0, all != 0, all) else NO_COMPLETION
  }

  lemma FrameNext(perPacket: bool, f: Frame, beats: seq<Beat>, b: Beat)
    requires Framed(perPacket, f, beats)
    ensures Accepted(perPacket, NextFrame(perPacket, f, b), NextCompletion(perPacket, f, b), beats + [b])
  {
    PartialPush(beats, b);
    CaptureNext(f.fields, Partial(beats), b);
    ErrorsNext(perPacket, Partial(beats), b);
    if f.wordIndex == 7 {
      CapturedAll(Capture(f.fields, 7, b.data), Partial(beats) + [b]);
    }
  }

  class Parser {
    const tlastPerPacket: bool
    var frame: Frame
    var completion: Completion
    var mValid: bool
    var held: Beat
    // Beats taken from upstream, and beats handed downstream, since reset.
    ghost var accepted: seq<Beat>
    ghost var emitted: seq<Beat>

    /** Nothing is lost, duplicated or reordered by the elastic register. */
    ghost predicate Conserved()
      reads this
    {
      accepted == emitted + (if mValid then [held] else [])
    }

    ghost predicate Valid()
      reads this
    {
      Framed(tlastPerPacket, frame, accepted) && Conserved()
    }

    constructor (perPacket: bool)
      ensures tlastPerPacket == perPacket
    {
      tlastPerPacket := perPacket;
    }

    /** `s_axis_tready`: the register is empty or is being emptied on this edge. */
    predicate Ready(mReady: bool)
      reads this
    {
      !mValid || mReady
    }

    /** One rising edge. */
    method Clock(i: ParserInput)
      requires i.aresetn ==> Valid()
      modifies this
      ensures Valid()
      ensures !i.aresetn ==> accepted == [] && emitted == [] && frame == NO_FRAME && completion == NO_COMPLETION
      ensures i.aresetn ==>
                && accepted == old(accepted) + (if i.valid && old(Ready(i.mReady)) then [i.beat] else [])
                && emitted == old(emitted) + (if old(mValid) && i.mReady then [old(held)] else [])
      ensures i.aresetn && old(mValid) && !i.mReady ==> mValid && held == old(held)
      ensures i.aresetn ==>
                if |accepted| > |old(accepted)|
                then Accepted(tlastPerPacket, frame, completion, accepted)
                else completion == NO_COMPLETION
    {
      if !i.aresetn {
        mValid, held := false, Beat(Word(0, 0, 0, 0), 0, false);
        frame, completion := NO_FRAME, NO_COMPLETION;
        accepted, emitted := [], [];
      } else {
        completion := NO_COMPLETION;
        if i.valid && Ready(i.mReady) {
          AcceptBeat(i.beat);
        }
        Forward(i);
      }
    }

    /** The elastic output register; reads the registers as they were before the edge. */
    method Forward(i: ParserInput)
      modifies this`mValid, this`held, this`emitted
      ensures emitted == old(emitted) + (if old(mValid) && i.mReady then [old(held)] else [])
      ensures old(Ready(i.mReady)) ==> mValid == i.valid && (i.valid ==> held == i.beat)
      ensures !old(Ready(i.mReady)) ==> mValid && held == old(held)
    {
      if mValid && i.mReady {
        emitted := emitted + [held];
      }
      if Ready(i.mReady) {
        mValid := i.valid;
        if i.valid {
          held := i.beat;
        }
      }
    }

    /** Framing, field capture and error accumulation for one accepted beat. */
    method AcceptBeat(b: Beat)
      requires Framed(tlastPerPacket, frame, accepted) && completion == NO_COMPLETION
      modifies this`frame, this`completion, this`accepted
      ensures accepted == old(accepted) + [b]
      ensures Accepted(tlastPerPacket, frame, completion, accepted)
    {
      FrameNext(tlastPerPacket, frame, accepted, b);
      accepted := accepted + [b];
      frame, completion :=
        NextFrame(tlastPerPacket, frame, b), NextCompletion(tlastPerPacket, frame, b);
    }
  }
}

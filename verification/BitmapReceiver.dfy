/** The bitmap receiver: one bit per planned sequence number and a handful of
    counters decide whether a stream arrived intact.

    The specification remembers the list of quotes counted since STREAM_START; the
    class keeps only the bitmap and the counters, and is proved to report what the
    list determines. */
module BitmapReceiver {
  import opened Words
  import opened Hft1
  import opened Sequences

  const MAX_PLANNED_PACKETS: int := 10000000

  datatype Address = Address(family: uint16, port: uint16, ip: uint32)

  datatype Datagram = Datagram(payload: seq<byte>, sender: Address)

  // ---------------------------------------------------------------- Specification

  datatype Stream =
    | Idle
    | Active(sender: Address, targetPps: uint32, planned: uint32, quotes: seq<nat>, invalid: nat)

  datatype Event =
    | Ignore
    | CountInvalid
    | Start(sender: Address, targetPps: uint32, planned: uint32)
    | End(sequence: uint32, quantity: uint32)
    | Quote(number: uint32)

  datatype Report = Report(
    actualSent: uint32, valid: nat, missing: nat, invalid: nat,
    duplicates: nat, outOfOrder: nat, highest: nat, integrityOk: bool)

  predicate HeaderOk(p: Packet) {
    p[0..4] == [0x48, 0x46, 0x54, 0x31] && p[4] == VERSION
  }

  predicate StartOk(p: Packet) {
    && Load32(p, 20) >= 1 && Load32(p, 24) >= 1
    && 1 <= Load32(p, 28) <= MAX_PLANNED_PACKETS
  }

  predicate QuoteOk(p: Packet, planned: uint32) {
    p[5] == QUOTE_UPDATE && p[6] <= 1 && p[7] == 0 && 1 <= Load32(p, 8) <= planned
  }

  /** What a datagram means to a receiver in a given state. */
  function Classify(s: Stream, d: Datagram): Event {
    if |d.payload| != PACKET_SIZE || !HeaderOk(d.payload) then
      (if s.Active? then CountInvalid else Ignore)
    else if d.payload[5] == STREAM_START then
      (if StartOk(d.payload)
       then Start(d.sender, Load32(d.payload, 20), Load32(d.payload, 28)) else Ignore)
    else if d.payload[5] == STREAM_END then
      (if s.Active? && d.sender == s.sender
       then End(Load32(d.payload, 8), Load32(d.payload, 28)) else Ignore)
    else if s.Idle? then Ignore
    else if d.sender == s.sender && QuoteOk(d.payload, s.planned) then Quote(Load32(d.payload, 8))
    else CountInvalid
  }

  /** How many packets the sender is taken to have sent. */
  function ActualSent(planned: uint32, sequence: uint32, quantity: uint32): (r: uint32)
    ensures planned >= 1 ==> 1 <= r <= planned
  {
    if 1 <= quantity <= planned then quantity
    else if 1 <= sequence <= planned then sequence
    else planned
  }

  function ReportFor(s: Stream, sequence: uint32, quantity: uint32): Report
    requires s.Active?
  {
    var actual := ActualSent(s.planned, sequence, quantity);
    var unique := |SetOf(s.quotes)|;
    Report(actual, unique, Max(0, actual - unique), s.invalid,
           Duplicates(s.quotes), OutOfOrder(s.quotes), Highest(s.quotes),
           && actual == s.planned
           && actual <= unique
           && s.invalid == 0
           && Duplicates(s.quotes) == 0
           && OutOfOrder(s.quotes) == 0)
  }

  function WithQuote(s: Stream, number: nat): Stream
    requires s.Active?
  {
    s.(quotes := s.quotes + [number])
  }

  function WithInvalid(s: Stream): Stream
    requires s.Active?
  {
    s.(invalid := s.invalid + 1)
  }

  function Step(s: Stream, e: Event): (Stream, Option<Report>)
    requires e.CountInvalid? || e.End? || e.Quote? ==> s.Active?
  {
    match e
    case Ignore => (s, None)
    case CountInvalid => (WithInvalid(s), None)
    case Start(sender, pps, planned) => (Active(sender, pps, planned, [], 0), None)
    case End(sequence, quantity) => (Idle, Some(ReportFor(s, sequence, quantity)))
    case Quote(number) => (WithQuote(s, number), None)
  }

  function Handle(s: Stream, d: Datagram): (Stream, Option<Report>) {
    Step(s, Classify(s, d))
  }

  /** The state of a run together with every report printed so far. */
  datatype Progress = Progress(stream: Stream, reports: seq<Report>)

  function Advance(p: Progress, d: Datagram): Progress {
    var (stream, report) := Handle(p.stream, d);
    Progress(stream, if report.Some? then p.reports + [report.value] else p.reports)
  }

  function RunAll(p: Progress, ds: seq<Datagram>): Progress {
    if ds == [] then p else Advance(RunAll(p, ds[..|ds| - 1]), ds[|ds| - 1])
  }

  lemma RunPush(p: Progress, ds: seq<Datagram>, d: Datagram)
    ensures RunAll(p, ds + [d]) == Advance(RunAll(p, ds), d)
  {
    assert (ds + [d])[..|ds|] == ds;
  }

  /** How the datagrams are cut into receive calls makes no difference. */
  lemma {:induction false} RunConcat(p: Progress, a: seq<Datagram>, b: seq<Datagram>)
    ensures RunAll(p, a + b) == RunAll(RunAll(p, a), b)
  {
    if b == [] {
      assert a + b == a;
    } else {
      var c, d := b[..|b| - 1], b[|b| - 1];
      RunConcat(p, a, c);
      RunPush(p, a + c, d);
      assert a + b == a + c + [d];
    }
  }

  // ---------------------------------------------------------------- The receiver

  class Receiver {
    var active: bool
    var sender: Address
    var targetPps: uint32
    var plannedPackets: uint32
    var seenSequences: array?<byte>
    var validPackets: nat
    var invalidPackets: nat
    var duplicatePackets: nat
    var outOfOrderPackets: nat
    var highestSequence: uint32
    ghost var progress: Progress

    /** The bitmap marks exactly the numbers that were counted. */
    ghost predicate BitmapHolds()
      requires progress.stream.Active?
      reads this, seenSequences
    {
      && seenSequences != null
      && seenSequences.Length == plannedPackets + 1
      && (forall x :: x in progress.stream.quotes ==> 1 <= x <= plannedPackets)
      && (forall i :: 0 <= i < seenSequences.Length ==> (seenSequences[i] != 0 <==> i in progress.stream.quotes))
    }

    /** The set bits of the bitmap. */
    ghost function Marked(): set<nat>
      requires seenSequences != null
      reads this, seenSequences
    {
      set i: nat | i < seenSequences.Length && seenSequences[i] != 0
    }

    /** The unique count is the number of set bits, and the highest sequence is the
        largest index set. */
    lemma BitmapCounts()
      requires Valid() && active
      ensures validPackets == |Marked()| <= highestSequence <= plannedPackets
      ensures highestSequence == 0 || highestSequence in Marked()
      ensures forall i :: i in Marked() ==> i <= highestSequence
    {
      var q := progress.stream.quotes;
      assert Marked() == SetOf(q);
      HighestBounds(q);
      assert SetOf(q) <= Range(1, Highest(q));
      SubsetDifference(Range(1, Highest(q)), SetOf(q));
    }

    ghost predicate CountersHold()
      requires progress.stream.Active?
      reads this
    {
      && validPackets == |SetOf(progress.stream.quotes)|
      && invalidPackets == progress.stream.invalid
      && duplicatePackets == Duplicates(progress.stream.quotes)
      && outOfOrderPackets == OutOfOrder(progress.stream.quotes)
      && highestSequence == Highest(progress.stream.quotes)
    }

    ghost predicate Valid()
      reads this, seenSequences
    {
      && active == progress.stream.Active?
      && (active ==>
            && sender == progress.stream.sender && targetPps == progress.stream.targetPps
            && plannedPackets == progress.stream.planned
            && CountersHold() && BitmapHolds())
    }

    constructor ()
      ensures Valid() && progress == Progress(Idle, []) && seenSequences == null
    {
      active, seenSequences, progress := false, null, Progress(Idle, []);
    }

    method ResetStream(from: Address, pps: uint32, planned: uint32)
      requires planned <= MAX_PLANNED_PACKETS
      modifies this
      ensures Valid() && progress == old(progress).(stream := Active(from, pps, planned, [], 0))
      ensures fresh(seenSequences)
    {
      seenSequences := new byte[planned + 1](_ => 0);
      active, sender, targetPps, plannedPackets := true, from, pps, planned;
      validPackets, invalidPackets := 0, 0;
      duplicatePackets, outOfOrderPackets, highestSequence := 0, 0, 0;
      progress := progress.(stream := Active(from, pps, planned, [], 0));
    }

    method FinishStream(sequence: uint32, quantity: uint32) returns (report: Report)
      requires Valid() && active
      modifies this
      ensures Valid() && seenSequences == null
      ensures progress == Progress(Idle, old(progress).reports + [report])
      ensures report == ReportFor(old(progress).stream, sequence, quantity)
    {
      var actualSent := quantity;
      if actualSent < 1 || actualSent > plannedPackets {
        actualSent := sequence;
      }
      if actualSent < 1 || actualSent > plannedPackets {
        actualSent := plannedPackets;
      }
      var missing := if actualSent > validPackets then actualSent - validPackets else 0;
      report := Report(actualSent, validPackets, missing, invalidPackets,
                       duplicatePackets, outOfOrderPackets, highestSequence,
                       && actualSent == plannedPackets && missing == 0
                       && invalidPackets == 0 && duplicatePackets == 0 && outOfOrderPackets == 0);
      active, seenSequences := false, null;
      progress := Progress(Idle, progress.reports + [report]);
    }

    /** A well-formed quote of the active stream: new or repeated. */
    method CountQuote(number: uint32)
      requires Valid() && active && 1 <= number <= plannedPackets
      modifies this`validPackets, this`duplicatePackets, this`outOfOrderPackets,
               this`highestSequence, this`progress, seenSequences
      ensures Valid() && progress == old(progress).(stream := WithQuote(old(progress).stream, number))
    {
      if seenSequences[number] != 0 {
        CountDuplicate(number);
      } else {
        CountUnique(number);
      }
    }

    method CountDuplicate(number: uint32)
      requires Valid() && active && number in progress.stream.quotes
      modifies this`duplicatePackets, this`progress
      ensures Valid() && progress == old(progress).(stream := WithQuote(old(progress).stream, number))
    {
      Push(progress.stream.quotes, number);
      duplicatePackets := duplicatePackets + 1;
      progress := progress.(stream := WithQuote(progress.stream, number));
    }

    /** A quote not seen before, in order or late. */
    method CountUnique(number: uint32)
      requires Valid() && active && 1 <= number <= plannedPackets && number !in progress.stream.quotes
      modifies this`validPackets, this`outOfOrderPackets, this`highestSequence, this`progress, seenSequences
      ensures Valid() && progress == old(progress).(stream := WithQuote(old(progress).stream, number))
    {
      Push(progress.stream.quotes, number);
      seenSequences[number] := 1;
      validPackets := validPackets + 1;
      if number < highestSequence {
        outOfOrderPackets := outOfOrderPackets + 1;
      } else if number > highestSequence {
        highestSequence := number;
      }
      progress := progress.(stream := WithQuote(progress.stream, number));
    }

    method ProcessDatagram(d: Datagram) returns (report: Option<Report>)
      requires Valid()
      modifies this, seenSequences
      ensures Valid()
      ensures seenSequences == null || seenSequences == old(seenSequences) || fresh(seenSequences)
      ensures progress == Advance(old(progress), d)
      ensures report == Handle(old(progress).stream, d).1
    {
      var p := d.payload;
      if |p| != PACKET_SIZE {
        report := None;
        if active { CountInvalidPacket(); }
        return;
      }
      if p[0..4] != [0x48, 0x46, 0x54, 0x31] || p[4] != VERSION {
        report := None;
        if active { CountInvalidPacket(); }
        return;
      }
      report := ProcessMessage(d);
    }

    /** A datagram of the right size, magic and version. */
    method ProcessMessage(d: Datagram) returns (report: Option<Report>)
      requires Valid() && |d.payload| == PACKET_SIZE && HeaderOk(d.payload)
      modifies this, seenSequences
      ensures Valid()
      ensures seenSequences == null || seenSequences == old(seenSequences) || fresh(seenSequences)
      ensures progress == Advance(old(progress), d)
      ensures report == Handle(old(progress).stream, d).1
    {
      report := None;
      var p := d.payload;
      var sequence := Load32(p, 8);
      if p[5] == STREAM_START {
        ProcessStart(d);
        return;
      }
      if p[5] == STREAM_END {
        if !active || d.sender != sender {
          return;
        }
        var r := FinishStream(sequence, Load32(p, 28));
        report := Some(r);
        return;
      }
      if !active {
        return;
      }
      if d.sender != sender {
        CountInvalidPacket();
        return;
      }
      if p[5] != QUOTE_UPDATE || p[6] > 1 || p[7] != 0 || sequence < 1 || sequence > plannedPackets {
        CountInvalidPacket();
        return;
      }
      CountQuote(sequence);
    }

    method ProcessStart(d: Datagram)
      requires Valid() && |d.payload| == PACKET_SIZE && HeaderOk(d.payload) && d.payload[5] == STREAM_START
      modifies this
      ensures Valid()
      ensures seenSequences == old(seenSequences) || fresh(seenSequences)
      ensures progress == Advance(old(progress), d) && Handle(old(progress).stream, d).1 == None
    {
      var p := d.payload;
      var pps, durationMs, planned := Load32(p, 20), Load32(p, 24), Load32(p, 28);
      if pps < 1 || durationMs < 1 || planned < 1 || planned > MAX_PLANNED_PACKETS {
        return;
      }
      ResetStream(d.sender, pps, planned);
    }

    method CountInvalidPacket()
      requires Valid() && active
      modifies this`invalidPackets, this`progress
      ensures Valid() && progress == old(progress).(stream := WithInvalid(old(progress).stream))
    {
      invalidPackets := invalidPackets + 1;
      progress := progress.(stream := WithInvalid(progress.stream));
    }

    /** The datagrams of one receive call, in slot order. */
    method ProcessBatch(batch: seq<Datagram>)
      requires Valid()
      modifies this, seenSequences
      ensures Valid()
      ensures seenSequences == null || seenSequences == old(seenSequences) || fresh(seenSequences)
      ensures progress == RunAll(old(progress), batch)
    {
      var index := 0;
      while index < |batch|
        invariant 0 <= index <= |batch|
        invariant Valid()
        invariant seenSequences == null || seenSequences == old(seenSequences) || fresh(seenSequences)
        invariant progress == RunTo(old(progress), batch, index)
      {
        var _ := ProcessDatagram(batch[index]);
        index := index + 1;
      }
      RunToIsRun(old(progress), batch, index);
      assert batch[..index] == batch;
    }

    /** The receive loop: whatever the calls return, the outcome is that of the
        datagrams one after another. */
    method ReceiveLoop(calls: seq<seq<Datagram>>)
      requires Valid()
      modifies this, seenSequences
      ensures Valid()
      ensures progress == RunAll(old(progress), Flatten(calls))
    {
      var n := 0;
      while n < |calls|
        invariant 0 <= n <= |calls|
        invariant Valid()
        invariant seenSequences == null || seenSequences == old(seenSequences) || fresh(seenSequences)
        invariant progress == CallsTo(old(progress), calls, n)
      {
        ProcessBatch(calls[n]);
        n := n + 1;
      }
      CallsToIsRun(old(progress), calls, n);
      assert calls[..n] == calls;
    }
  }

  /** The run after the first `k` datagrams. */
  function RunTo(p: Progress, ds: seq<Datagram>, k: nat): Progress
    requires k <= |ds|
  {
    if k == 0 then p else Advance(RunTo(p, ds, k - 1), ds[k - 1])
  }

  /** The run after the datagrams of the first `k` calls. */
  function CallsTo(p: Progress, calls: seq<seq<Datagram>>, k: nat): Progress
    requires k <= |calls|
  {
    if k == 0 then p else RunAll(CallsTo(p, calls, k - 1), calls[k - 1])
  }

  lemma {:induction false} RunToIsRun(p: Progress, ds: seq<Datagram>, k: nat)
    requires k <= |ds|
    ensures RunTo(p, ds, k) == RunAll(p, ds[..k])
  {
    if k > 0 {
      RunToIsRun(p, ds, k - 1);
      assert ds[..k][..k - 1] == ds[..k - 1];
    }
  }

  lemma {:induction false} CallsToIsRun(p: Progress, calls: seq<seq<Datagram>>, k: nat)
    requires k <= |calls|
    ensures CallsTo(p, calls, k) == RunAll(p, Flatten(calls[..k]))
  {
    if k > 0 {
      CallsToIsRun(p, calls, k - 1);
      assert calls[..k][..k - 1] == calls[..k - 1];
      RunConcat(p, Flatten(calls[..k - 1]), calls[k - 1]);
    }
  }

  function Flatten(calls: seq<seq<Datagram>>): seq<Datagram> {
    if calls == [] then [] else Flatten(calls[..|calls| - 1]) + calls[|calls| - 1]
  }
}

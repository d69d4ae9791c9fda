/** What the bitmap receiver reports about any list of datagrams from any senders, stated
    on their bytes: which datagrams start and end a stream, which ones count as quotes,
    and which ones count as invalid. */
module BitmapRuns {
  import opened Words
  import opened Hft1
  import opened Sequences
  import opened BitmapReceiver
  import opened BitmapTheorems

  // ---------------------------------------------------------------- Bytes

  /** 32 bytes that begin with "HFT1" and version 1. */
  predicate Headed(d: Datagram) {
    |d.payload| == 32 && d.payload[0..4] == [0x48, 0x46, 0x54, 0x31] && d.payload[4] == 1
  }

  /** A type-4 datagram with a rate, a duration and a count from 1 to 10000000. */
  predicate Starts(d: Datagram) {
    && Headed(d) && d.payload[5] == 4
    && Load32(d.payload, 20) >= 1 && Load32(d.payload, 24) >= 1
    && 1 <= Load32(d.payload, 28) <= 10000000
  }

  /** A type-5 datagram from the sender of the stream. */
  predicate Ends(d: Datagram, from: Address) { Headed(d) && d.payload[5] == 5 && d.sender == from }

  /** A type-1 datagram from the sender of the stream with side 0 or 1, no flags and a
      number from 1 to the planned count. */
  predicate Counts(d: Datagram, from: Address, planned: uint32) {
    && Headed(d) && d.sender == from
    && d.payload[5] == 1 && d.payload[6] <= 1 && d.payload[7] == 0
    && 1 <= Load32(d.payload, 8) <= planned
  }

  /** Neither a headed packet of type 4 or 5, from whatever sender, nor a quote that
      counts. */
  predicate Invalid(d: Datagram, from: Address, planned: uint32) {
    !Headed(d) || (d.payload[5] != 4 && d.payload[5] != 5 && !Counts(d, from, planned))
  }

  /** The sender's address: family, port and IP address. */
  lemma SameSender(a: Address, b: Address)
    ensures a == b <==> a.family == b.family && a.port == b.port && a.ip == b.ip
  {
  }

  // ---------------------------------------------------------------- Streams

  type Datagrams = seq<Datagram>

  /** The stream started at `s` is still open before position `e`: no other START has
      come since, and no END from its sender. */
  predicate Open(ds: Datagrams, s: nat, e: nat)
    requires e <= |ds|
  {
    && s < e && Starts(ds[s])
    && forall k :: s < k < e ==> !Starts(ds[k]) && !Ends(ds[k], ds[s].sender)
  }

  function Planned(ds: Datagrams, s: nat): uint32
    requires s < |ds| && Starts(ds[s])
  {
    Load32(ds[s].payload, 28)
  }

  /** The numbers of the quotes counted after START and before `e`, in order. */
  function QuotesIn(ds: Datagrams, s: nat, e: nat): seq<nat>
    requires s < e <= |ds| && Starts(ds[s])
    decreases e
  {
    if e == s + 1 then []
    else if Counts(ds[e - 1], ds[s].sender, Planned(ds, s)) then QuotesIn(ds, s, e - 1) + [Load32(ds[e - 1].payload, 8)]
    else QuotesIn(ds, s, e - 1)
  }

  /** The positions after START and before `e` that hold an invalid datagram. */
  function InvalidIn(ds: Datagrams, s: nat, e: nat): set<nat>
    requires s < e <= |ds| && Starts(ds[s])
  {
    set k: nat | s < k < e && Invalid(ds[k], ds[s].sender, Planned(ds, s))
  }

  /** A START at one position and an END at a later one. */
  datatype Closing = Closing(start: nat, end: nat)

  /** The END closes the stream of the START. */
  predicate Closes(ds: Datagrams, c: Closing) {
    c.end < |ds| && Open(ds, c.start, c.end) && Ends(ds[c.end], ds[c.start].sender)
  }

  /** Where the open stream started, if one is open. */
  function OpenAt(ds: Datagrams): (s: Option<nat>)
    ensures s.Some? ==> Open(ds, s.value, |ds|)
  {
    if ds == [] then None else
      var n := |ds| - 1;
      var before := OpenAt(ds[..n]);
      if Starts(ds[n]) then Some(n)
      else if before.Some? && Ends(ds[n], ds[before.value].sender) then None
      else before
  }

  /** Every stream that an END closed, in order of arrival. */
  function Closings(ds: Datagrams): seq<Closing> {
    if ds == [] then [] else
      var n := |ds| - 1;
      var before := OpenAt(ds[..n]);
      Closings(ds[..n])
      + if before.Some? && Ends(ds[n], ds[before.value].sender) then [Closing(before.value, n)] else []
  }

  lemma OpenPush(ds: Datagrams, s: nat)
    requires ds != []
    ensures var n := |ds| - 1;
            Open(ds, s, |ds|) <==>
              || (s == n && Starts(ds[n]))
              || (s < n && Open(ds[..n], s, n) && !Starts(ds[n]) && !Ends(ds[n], ds[s].sender))
  {
    var n := |ds| - 1;
    assert forall k :: 0 <= k < n ==> ds[..n][k] == ds[k];
  }

  /** At most one stream is open, and `OpenAt` finds it. */
  lemma {:induction false} OpenExact(ds: Datagrams, s: nat)
    ensures Open(ds, s, |ds|) <==> OpenAt(ds) == Some(s)
  {
    if ds != [] {
      OpenExact(ds[..|ds| - 1], s);
      OpenPush(ds, s);
    }
  }

  /** The closed streams are listed completely, once each, by the position of their END. */
  lemma {:induction false} ClosingsExact(ds: Datagrams)
    ensures forall c :: c in Closings(ds) <==> Closes(ds, c)
    ensures forall i, j :: 0 <= i < j < |Closings(ds)| ==> Closings(ds)[i].end < Closings(ds)[j].end
  {
    if ds != [] {
      var n := |ds| - 1;
      var b := ds[..n];
      ClosingsExact(b);
      forall c: Closing
        ensures c in Closings(ds) <==> Closes(ds, c)
      {
        LastCloses(ds, c);
      }
      forall i | 0 <= i < |Closings(b)|
        ensures Closings(b)[i].end < n
      {
        assert Closings(b)[i] in Closings(b);
      }
    }
  }

  /** Without a START nothing is open and nothing was closed. */
  lemma {:induction false} NothingStarts(ds: Datagrams)
    requires forall k :: 0 <= k < |ds| ==> !Starts(ds[k])
    ensures OpenAt(ds) == None && Closings(ds) == []
  {
    if ds != [] {
      NothingStarts(ds[..|ds| - 1]);
    }
  }

  lemma LastCloses(ds: Datagrams, c: Closing)
    requires ds != []
    ensures var n := |ds| - 1;
            && (c.end < n ==> (Closes(ds, c) <==> Closes(ds[..n], c)))
            && (c.end == n ==> (Closes(ds, c) <==> OpenAt(ds[..n]) == Some(c.start) && Ends(ds[n], ds[c.start].sender)))
            && (c.end > n ==> !Closes(ds, c))
            && (c.end >= n ==> !Closes(ds[..n], c))
  {
    var n := |ds| - 1;
    var b := ds[..n];
    assert forall k :: 0 <= k < n ==> b[k] == ds[k];
    OpenExact(b, c.start);
    if c.end == n {
      assert Open(ds, c.start, n) <==> Open(b, c.start, n);
    }
  }

  // ---------------------------------------------------------------- Reports

  function SentCount(planned: uint32, sequence: uint32, quantity: uint32): uint32 {
    if 1 <= quantity <= planned then quantity
    else if 1 <= sequence <= planned then sequence
    else planned
  }

  /** The report on a closed stream, from the bytes of its datagrams: the verdict is
      positive exactly when the announced count is the planned one, nothing invalid came
      between START and END, and the quotes that count are 1, 2, ..., planned in order. */
  function ReportIn(ds: Datagrams, c: Closing): Report
    requires Closes(ds, c)
  {
    var end := ds[c.end].payload;
    var planned := Planned(ds, c.start);
    var sent := SentCount(planned, Load32(end, 8), Load32(end, 28));
    var q := QuotesIn(ds, c.start, c.end);
    var invalid := |InvalidIn(ds, c.start, c.end)|;
    Report(sent, |SetOf(q)|, Max(0, sent - |SetOf(q)|), invalid,
           |RepeatPositions(q)|, |LatePositions(q)|, Highest(q),
           sent == planned && invalid == 0 && q == Counting(1, planned))
  }

  ghost predicate AllClose(ds: Datagrams, closings: seq<Closing>) {
    forall i :: 0 <= i < |closings| ==> Closes(ds, closings[i])
  }

  function ReportsIn(ds: Datagrams, closings: seq<Closing>): (reports: seq<Report>)
    requires AllClose(ds, closings)
    ensures |reports| == |closings|
  {
    seq(|closings|, i requires 0 <= i < |closings| => ReportIn(ds, closings[i]))
  }

  /** The stream that is open, with what has been counted of it. */
  function StreamOf(ds: Datagrams): Stream {
    var open := OpenAt(ds);
    if open.None? then Idle else
      var s := open.value;
      Active(ds[s].sender, Load32(ds[s].payload, 20), Planned(ds, s), QuotesIn(ds, s, |ds|), |InvalidIn(ds, s, |ds|)|)
  }

  // ---------------------------------------------------------------- One more datagram

  /** What the receiver makes of a datagram, by its bytes. */
  lemma EventIs(s: Stream, d: Datagram)
    ensures Classify(s, d)
         == if Starts(d) then Start(d.sender, Load32(d.payload, 20), Load32(d.payload, 28))
            else if s.Idle? then Ignore
            else if Ends(d, s.sender) then End(Load32(d.payload, 8), Load32(d.payload, 28))
            else if Counts(d, s.sender, s.planned) then Quote(Load32(d.payload, 8))
            else if Invalid(d, s.sender, s.planned) then CountInvalid
            else Ignore
  {
  }

  lemma {:induction false} QuotesInPrefix(ds: Datagrams, n: nat, s: nat, e: nat)
    requires s < e <= n <= |ds| && Starts(ds[s])
    ensures QuotesIn(ds[..n], s, e) == QuotesIn(ds, s, e)
    decreases e
  {
    if e > s + 1 {
      QuotesInPrefix(ds, n, s, e - 1);
    }
  }

  lemma InvalidInPrefix(ds: Datagrams, n: nat, s: nat, e: nat)
    requires s < e <= n <= |ds| && Starts(ds[s])
    ensures InvalidIn(ds[..n], s, e) == InvalidIn(ds, s, e)
  {
  }

  lemma InvalidInPush(ds: Datagrams, s: nat, e: nat)
    requires s < e < |ds| && Starts(ds[s])
    ensures |InvalidIn(ds, s, e + 1)|
         == |InvalidIn(ds, s, e)| + if Invalid(ds[e], ds[s].sender, Planned(ds, s)) then 1 else 0
  {
    Grows(InvalidIn(ds, s, e), InvalidIn(ds, s, e + 1), e, Invalid(ds[e], ds[s].sender, Planned(ds, s)));
  }

  /** How the open stream moves. */
  lemma StreamPush(ds: Datagrams, d: Datagram)
    ensures StreamOf(ds + [d]) == Step(StreamOf(ds), Classify(StreamOf(ds), d)).0
  {
    var b := ds + [d];
    var n := |ds|;
    assert b[..n] == ds && b[n] == d;
    EventIs(StreamOf(ds), d);
    var open := OpenAt(ds);
    if Starts(d) {
      assert InvalidIn(b, n, n + 1) == {};
    } else if open.Some? && !Ends(d, ds[open.value].sender) {
      var s := open.value;
      assert b[s] == ds[s];
      QuotesInPrefix(b, n, s, n);
      InvalidInPrefix(b, n, s, n);
      InvalidInPush(b, s, n);
    }
  }

  /** An END reports what its stream counted. */
  lemma ReportIs(ds: Datagrams, c: Closing)
    requires Closes(ds, c) && OpenAt(ds[..c.end]) == Some(c.start)
    ensures ReportIn(ds, c)
         == ReportFor(StreamOf(ds[..c.end]), Load32(ds[c.end].payload, 8), Load32(ds[c.end].payload, 28))
  {
    var s, e := c.start, c.end;
    assert ds[..e][s] == ds[s];
    QuotesInPrefix(ds, e, s, e);
    InvalidInPrefix(ds, e, s, e);
    CountersByPosition(QuotesIn(ds, s, e));
    QuotesInRange(ds, s, e);
    PassMeansPerfect(StreamOf(ds[..e]), Load32(ds[e].payload, 8), Load32(ds[e].payload, 28));
  }

  lemma {:induction false} QuotesInRange(ds: Datagrams, s: nat, e: nat)
    requires s < e <= |ds| && Starts(ds[s])
    ensures forall x :: x in QuotesIn(ds, s, e) ==> 1 <= x <= Planned(ds, s)
    decreases e
  {
    if e > s + 1 {
      QuotesInRange(ds, s, e - 1);
    }
  }

  lemma ReportPrefix(ds: Datagrams, d: Datagram, c: Closing)
    requires Closes(ds, c)
    ensures Closes(ds + [d], c) && ReportIn(ds + [d], c) == ReportIn(ds, c)
  {
    var b := ds + [d];
    assert b[..|ds|] == ds;
    assert forall k :: 0 <= k < |ds| ==> b[k] == ds[k];
    QuotesInPrefix(b, |ds|, c.start, c.end);
    InvalidInPrefix(b, |ds|, c.start, c.end);
  }

  lemma OldReports(ds: Datagrams, d: Datagram)
    requires AllClose(ds, Closings(ds))
    ensures AllClose(ds + [d], Closings(ds))
    ensures ReportsIn(ds + [d], Closings(ds)) == ReportsIn(ds, Closings(ds))
  {
    forall i | 0 <= i < |Closings(ds)|
      ensures Closes(ds + [d], Closings(ds)[i])
      ensures ReportIn(ds + [d], Closings(ds)[i]) == ReportIn(ds, Closings(ds)[i])
    {
      assert Closes(ds, Closings(ds)[i]);
      ReportPrefix(ds, d, Closings(ds)[i]);
    }
  }

  /** The stream that a datagram closes when it arrives now. */
  function NewClosing(ds: Datagrams, d: Datagram): Option<Closing> {
    var open := OpenAt(ds);
    if open.Some? && Ends(d, ds[open.value].sender) then Some(Closing(open.value, |ds|)) else None
  }

  lemma ClosingsPush(ds: Datagrams, d: Datagram)
    ensures var c := NewClosing(ds, d);
            Closings(ds + [d]) == if c.Some? then Closings(ds) + [c.value] else Closings(ds)
  {
    assert (ds + [d])[..|ds|] == ds;
  }

  lemma NewReport(ds: Datagrams, d: Datagram)
    ensures var c := NewClosing(ds, d);
            var report := Step(StreamOf(ds), Classify(StreamOf(ds), d)).1;
            if c.Some? then report == Some(ReportFor(StreamOf(ds), Load32(d.payload, 8), Load32(d.payload, 28)))
            else report == None
  {
    EventIs(StreamOf(ds), d);
  }

  lemma NewReportIs(ds: Datagrams, d: Datagram, c: Closing)
    requires NewClosing(ds, d) == Some(c)
    ensures Closes(ds + [d], c)
    ensures ReportIn(ds + [d], c) == ReportFor(StreamOf(ds), Load32(d.payload, 8), Load32(d.payload, 28))
  {
    var b := ds + [d];
    assert b[..|ds|] == ds && b[|ds|] == d && b[c.start] == ds[c.start];
    LastCloses(b, c);
    ReportIs(b, c);
  }

  lemma ReportsAppend(ds: Datagrams, closings: seq<Closing>, c: Closing)
    requires AllClose(ds, closings) && Closes(ds, c)
    ensures AllClose(ds, closings + [c])
    ensures ReportsIn(ds, closings + [c]) == ReportsIn(ds, closings) + [ReportIn(ds, c)]
  {
  }

  /** How the reports grow. */
  lemma ReportsPush(ds: Datagrams, d: Datagram)
    requires AllClose(ds, Closings(ds))
    ensures AllClose(ds + [d], Closings(ds + [d]))
    ensures var report := Step(StreamOf(ds), Classify(StreamOf(ds), d)).1;
            var before := ReportsIn(ds, Closings(ds));
            ReportsIn(ds + [d], Closings(ds + [d])) == if report.Some? then before + [report.value] else before
  {
    OldReports(ds, d);
    ClosingsPush(ds, d);
    NewReport(ds, d);
    var c := NewClosing(ds, d);
    if c.Some? {
      NewReportIs(ds, d, c.value);
      ReportsAppend(ds + [d], Closings(ds), c.value);
    }
  }

  // ---------------------------------------------------------------- Every run

  /** For every list of datagrams, whatever their bytes, lengths and senders: the open
      stream has counted the quotes and the invalid datagrams since its START, and there
      is one report for each END that closed a stream. */
  lemma {:induction false} RunExact(ds: Datagrams)
    ensures AllClose(ds, Closings(ds))
    ensures RunAll(Progress(Idle, []), ds) == Progress(StreamOf(ds), ReportsIn(ds, Closings(ds)))
  {
    if ds != [] {
      var b, d := ds[..|ds| - 1], ds[|ds| - 1];
      assert ds == b + [d];
      RunExact(b);
      StreamPush(b, d);
      ReportsPush(b, d);
    }
  }

  /** A closed stream passes exactly when the announced count is the planned one, no
      datagram between START and END is invalid, and the numbers of those that count are
      1, 2, ..., planned in that order. */
  lemma PassExact(ds: Datagrams, c: Closing)
    requires Closes(ds, c)
    ensures var planned, end := Planned(ds, c.start), ds[c.end].payload;
            var allSent := SentCount(planned, Load32(end, 8), Load32(end, 28)) == planned;
            var noneInvalid := forall k :: c.start < k < c.end ==> !Invalid(ds[k], ds[c.start].sender, planned);
            ReportIn(ds, c).integrityOk <==> allSent && noneInvalid && QuotesIn(ds, c.start, c.end) == Counting(1, planned)
  {
    var invalid := InvalidIn(ds, c.start, c.end);
    assert |invalid| == 0 <==> invalid == {};
    if forall k :: c.start < k < c.end ==> !Invalid(ds[k], ds[c.start].sender, Planned(ds, c.start)) {
      assert invalid == {};
    }
    if invalid == {} {
      forall k | c.start < k < c.end
        ensures !Invalid(ds[k], ds[c.start].sender, Planned(ds, c.start))
      {
        assert k !in invalid;
      }
    }
  }
}

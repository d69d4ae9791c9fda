/** The bitmap receiver behind a network that loses, repeats and reorders what one run of
    the host sender puts on the wire. */
module LossyNetwork {
  import opened Words
  import opened Hft1
  import opened Sequences
  import opened Senders
  import opened BitmapReceiver
  import opened BitmapTheorems
  import opened BitmapRuns

  // ---------------------------------------------------------------- A lossy network

  /** What the network delivers of a run: copies of START, of the quotes and of the END
      marker, any number of each, lost or repeated, in any order. */
  datatype Arrival = StartCopy | QuoteCopy(number: uint32) | EndCopy

  type Arrivals = seq<Arrival>

  /** Only quotes 1..m were sent. */
  predicate FromSent(a: Arrivals, m: uint32) {
    forall i :: 0 <= i < |a| && a[i].QuoteCopy? ==> 1 <= a[i].number <= m
  }

  /** A run of the sender that was stopped after `m` quotes, as one receiver sees it. */
  datatype Sent = Sent(c: HostConfig, m: uint32, from: Address, clock: nat -> uint64) {
    predicate Possible() { c.Accepted() && m <= c.planned }

    function Window(quotes: seq<nat>): Stream { Active(from, c.pps, c.planned, quotes, 0) }

    function Arriving(x: Arrival): Datagram
      requires x.QuoteCopy? ==> x.number >= 1
    {
      match x
      case StartCopy => Datagram(Pack(HostStart(c, clock(0))), from)
      case QuoteCopy(number) => Datagram(QuotePacket(number, clock), from)
      case EndCopy => Datagram(EndPacket(c, m, clock), from)
    }

    function Delivered(a: Arrivals): (ds: seq<Datagram>)
      requires FromSent(a, m)
      ensures |ds| == |a|
    {
      seq(|a|, i requires 0 <= i < |a| => Arriving(a[i]))
    }

    function Received(a: Arrivals): Progress
      requires FromSent(a, m)
    {
      RunAll(Progress(Idle, []), Delivered(a))
    }
  }

  /** What the bytes of an arrival are to a receiver. */
  lemma ArrivalIs(r: Sent, x: Arrival)
    requires r.Possible() && (x.QuoteCopy? ==> 1 <= x.number <= r.m)
    ensures var d := r.Arriving(x);
            && d.sender == r.from && |d.payload| == 32
            && (Starts(d) <==> x.StartCopy? && r.c.durationMs >= 1)
            && (x.StartCopy? ==> Load32(d.payload, 20) == r.c.pps && Load32(d.payload, 28) == r.c.planned)
            && (Ends(d, r.from) <==> x.EndCopy?)
            && (x.EndCopy? ==> Load32(d.payload, 8) == r.m && Load32(d.payload, 28) == r.m)
            && (Counts(d, r.from, r.c.planned) <==> x.QuoteCopy?)
            && (x.QuoteCopy? ==> Load32(d.payload, 8) == x.number)
            && !Invalid(d, r.from, r.c.planned)
  {
    var f := match x
      case StartCopy => HostStart(r.c, r.clock(0))
      case QuoteCopy(number) => HostQuote(number, r.clock(number))
      case EndCopy => HostEnd(r.c, r.m, r.clock(r.m + 1));
    PackCarries(f);
  }

  lemma ArrivalAt(r: Sent, a: Arrivals, k: nat)
    requires r.Possible() && FromSent(a, r.m) && k < |a|
    ensures var d := r.Delivered(a)[k];
            && d == r.Arriving(a[k]) && d.sender == r.from
            && (Starts(d) <==> a[k].StartCopy? && r.c.durationMs >= 1)
            && (Starts(d) ==> Planned(r.Delivered(a), k) == r.c.planned)
            && (Ends(d, r.from) <==> a[k].EndCopy?)
  {
    ArrivalIs(r, a[k]);
  }

  // ---------------------------------------------------------------- Windows of a run

  /** A START and the first END after it, and nothing but quotes between them. */
  predicate Brackets(a: Arrivals, c: Closing) {
    c.start < c.end < |a| && a[c.start].StartCopy? && a[c.end].EndCopy? && OnlyQuotes(a, c.start, c.end)
  }

  predicate OnlyQuotes(a: Arrivals, s: nat, e: nat)
    requires e <= |a|
  {
    forall k :: s < k < e ==> a[k].QuoteCopy?
  }

  /** The numbers of the quotes that arrived between two positions. */
  function Between(a: Arrivals, s: nat, e: nat): (q: seq<nat>)
    requires s < e <= |a| && OnlyQuotes(a, s, e)
    ensures |q| == e - s - 1
  {
    seq(e - s - 1, i requires 0 <= i < e - s - 1 => a[s + 1 + i].number)
  }

  /** A stream is open on the bytes exactly when it is open by the arrivals. */
  lemma OpenArrivals(r: Sent, a: Arrivals, s: nat, e: nat)
    requires r.Possible() && r.c.durationMs >= 1 && FromSent(a, r.m) && e <= |a|
    ensures Open(r.Delivered(a), s, e) <==> s < e && a[s].StartCopy? && OnlyQuotes(a, s, e)
  {
    var ds := r.Delivered(a);
    forall k: nat | k < |a|
      ensures ds[k].sender == r.from && (Starts(ds[k]) <==> a[k].StartCopy?) && (Ends(ds[k], r.from) <==> a[k].EndCopy?)
    {
      ArrivalAt(r, a, k);
    }
  }

  lemma ClosesArrivals(r: Sent, a: Arrivals, c: Closing)
    requires r.Possible() && r.c.durationMs >= 1 && FromSent(a, r.m)
    ensures Closes(r.Delivered(a), c) <==> Brackets(a, c)
  {
    if c.end < |a| {
      OpenArrivals(r, a, c.start, c.end);
      ArrivalAt(r, a, c.end);
      if c.start < c.end {
        ArrivalAt(r, a, c.start);
      }
    }
  }

  lemma QuoteArrival(r: Sent, a: Arrivals, s: nat, k: nat)
    requires r.Possible() && r.c.durationMs >= 1 && FromSent(a, r.m)
    requires s < k < |a| && a[s].StartCopy? && a[k].QuoteCopy?
    ensures var ds := r.Delivered(a);
            && Starts(ds[s])
            && Counts(ds[k], ds[s].sender, Planned(ds, s)) && Load32(ds[k].payload, 8) == a[k].number
  {
    ArrivalAt(r, a, s);
    ArrivalIs(r, a[k]);
  }

  lemma BetweenPush(a: Arrivals, s: nat, e: nat)
    requires s < e < |a| && OnlyQuotes(a, s, e + 1)
    ensures Between(a, s, e + 1) == Between(a, s, e) + [a[e].number]
  {
  }

  lemma {:induction false} QuotesArrivals(r: Sent, a: Arrivals, s: nat, e: nat)
    requires r.Possible() && r.c.durationMs >= 1 && FromSent(a, r.m)
    requires s < e <= |a| && a[s].StartCopy? && OnlyQuotes(a, s, e)
    ensures Starts(r.Delivered(a)[s])
    ensures QuotesIn(r.Delivered(a), s, e) == Between(a, s, e)
    decreases e
  {
    ArrivalAt(r, a, s);
    if e > s + 1 {
      QuotesArrivals(r, a, s, e - 1);
      QuoteArrival(r, a, s, e - 1);
      BetweenPush(a, s, e - 1);
    }
  }

  lemma NoneInvalid(r: Sent, a: Arrivals, s: nat, e: nat)
    requires r.Possible() && r.c.durationMs >= 1 && FromSent(a, r.m)
    requires s < e <= |a| && a[s].StartCopy?
    ensures Starts(r.Delivered(a)[s])
    ensures InvalidIn(r.Delivered(a), s, e) == {}
  {
    ArrivalAt(r, a, s);
    forall k | s < k < e
      ensures !Invalid(r.Delivered(a)[k], r.from, r.c.planned)
    {
      ArrivalIs(r, a[k]);
    }
  }

  // ---------------------------------------------------------------- Every run

  /** The report that an END makes on the window it closes. */
  function ReportOn(r: Sent, quotes: seq<nat>): Report { ReportFor(r.Window(quotes), r.m, r.m) }

  /** Just before its END a window has counted its quotes. */
  lemma WindowBefore(r: Sent, a: Arrivals, c: Closing)
    requires r.Possible() && r.c.durationMs >= 1 && FromSent(a, r.m) && Brackets(a, c)
    ensures OpenAt(r.Delivered(a)[..c.end]) == Some(c.start)
    ensures StreamOf(r.Delivered(a)[..c.end]) == r.Window(Between(a, c.start, c.end))
  {
    var ds, s, e := r.Delivered(a), c.start, c.end;
    var b := ds[..e];
    assert b[s] == ds[s] && forall k :: 0 <= k < e ==> b[k] == ds[k];
    OpenArrivals(r, a, s, e);
    assert Open(b, s, e);
    OpenExact(b, s);
    QuotesInPrefix(ds, e, s, e);
    InvalidInPrefix(ds, e, s, e);
    QuotesArrivals(r, a, s, e);
    NoneInvalid(r, a, s, e);
    ArrivalIs(r, a[s]);
  }

  lemma ReportArrivals(r: Sent, a: Arrivals, c: Closing)
    requires r.Possible() && r.c.durationMs >= 1 && FromSent(a, r.m) && Brackets(a, c)
    ensures Closes(r.Delivered(a), c)
    ensures ReportIn(r.Delivered(a), c) == ReportOn(r, Between(a, c.start, c.end))
  {
    ClosesArrivals(r, a, c);
    WindowBefore(r, a, c);
    ReportIs(r.Delivered(a), c);
    ArrivalIs(r, a[c.end]);
  }

  ghost predicate AllBracket(a: Arrivals, closings: seq<Closing>) {
    forall i :: 0 <= i < |closings| ==> Brackets(a, closings[i])
  }

  function ReportsOn(r: Sent, a: Arrivals, closings: seq<Closing>): (reports: seq<Report>)
    requires AllBracket(a, closings)
    ensures |reports| == |closings|
  {
    seq(|closings|, i requires 0 <= i < |closings| => ReportOn(r, Between(a, closings[i].start, closings[i].end)))
  }

  /** The START and END pairs of a run, in order. */
  function Windows(r: Sent, a: Arrivals): seq<Closing>
    requires FromSent(a, r.m)
  {
    Closings(r.Delivered(a))
  }

  lemma WindowsExact(r: Sent, a: Arrivals)
    requires r.Possible() && r.c.durationMs >= 1 && FromSent(a, r.m)
    ensures forall c :: c in Windows(r, a) <==> Brackets(a, c)
    ensures forall i, j :: 0 <= i < j < |Windows(r, a)| ==> Windows(r, a)[i].end < Windows(r, a)[j].end
  {
    ClosingsExact(r.Delivered(a));
    forall c: Closing
      ensures c in Windows(r, a) <==> Brackets(a, c)
    {
      ClosesArrivals(r, a, c);
    }
  }

  /** What is reported, for every list of arrivals: one report for each END that closes
      a START, about the quotes between the two, and nothing else. */
  lemma EveryRun(r: Sent, a: Arrivals)
    requires r.Possible() && r.c.durationMs >= 1 && FromSent(a, r.m)
    ensures AllBracket(a, Windows(r, a))
    ensures r.Received(a).reports == ReportsOn(r, a, Windows(r, a))
  {
    RunExact(r.Delivered(a));
    WindowsExact(r, a);
    var all := Windows(r, a);
    forall i | 0 <= i < |all|
      ensures Brackets(a, all[i])
    {
      assert all[i] in all;
    }
    SameReports(r, a, all);
  }

  lemma SameReports(r: Sent, a: Arrivals, all: seq<Closing>)
    requires r.Possible() && r.c.durationMs >= 1 && FromSent(a, r.m) && AllBracket(a, all)
    ensures AllClose(r.Delivered(a), all)
    ensures ReportsIn(r.Delivered(a), all) == ReportsOn(r, a, all)
  {
    forall i | 0 <= i < |all|
      ensures Closes(r.Delivered(a), all[i])
      ensures ReportIn(r.Delivered(a), all[i]) == ReportOn(r, Between(a, all[i].start, all[i].end))
    {
      ReportArrivals(r, a, all[i]);
    }
  }

  /** The sender accepts durations that it announces as 0 ms, and the receiver then
      ignores every START: whatever arrives, nothing is reported. */
  lemma SilentRun(r: Sent, a: Arrivals)
    requires r.Possible() && r.c.durationMs == 0 && FromSent(a, r.m)
    ensures r.Received(a) == Progress(Idle, [])
  {
    var ds := r.Delivered(a);
    RunExact(ds);
    forall k: nat | k < |ds|
      ensures !Starts(ds[k])
    {
      ArrivalAt(r, a, k);
    }
    NothingStarts(ds);
  }

  /** A run is reported exactly when it was announced with at least 1 ms and an END
      closes a START. */
  lemma WhenReported(r: Sent, a: Arrivals)
    requires r.Possible() && FromSent(a, r.m)
    ensures r.Received(a).reports != [] <==> r.c.durationMs >= 1 && exists c :: Brackets(a, c)
  {
    if r.c.durationMs == 0 {
      SilentRun(r, a);
    } else {
      EveryRun(r, a);
      WindowsExact(r, a);
      if Windows(r, a) != [] {
        assert Windows(r, a)[0] in Windows(r, a);
      }
    }
  }

  /** A run that the sender accepts and nobody reports: 40 quotes at 100000 packets/s. */
  lemma ShortRunGoesUnreported(from: Address, clock: nat -> uint64)
    ensures Configure(100000, 0.0004) == Some(HostConfig(100000, 0, 40))
    ensures var r := Sent(HostConfig(100000, 0, 40), 40, from, clock);
            forall a :: FromSent(a, 40) ==> r.Received(a).reports == []
  {
    assert 100000 as real * 0.0004 == 40.0 && (40.0).Floor == 40;
    assert 0.0004 * 1000.0 == 0.4 && (0.4).Floor == 0;
    var r := Sent(HostConfig(100000, 0, 40), 40, from, clock);
    forall a | FromSent(a, 40)
      ensures r.Received(a).reports == []
    {
      SilentRun(r, a);
    }
  }

  // ---------------------------------------------------------------- Exact loss

  /** How many quotes the receiver takes to have been sent: an announcement of none is
      read as all planned ones. */
  function Assumed(r: Sent): uint32 { if r.m == 0 then r.c.planned else r.m }

  /** What a window makes of its quotes: the missing count is exact for the window, and
      the verdict is positive exactly on quotes 1, 2, ..., planned in that order. */
  lemma ReportExact(r: Sent, q: seq<nat>)
    requires r.Possible() && forall x :: x in q ==> 1 <= x <= r.m
    ensures var p := ReportOn(r, q);
            && p.actualSent == Assumed(r) && p.invalid == 0
            && p.valid == |SetOf(q)| <= Assumed(r)
            && p.missing == Assumed(r) - |SetOf(q)|
            && (p.integrityOk <==> r.m == r.c.planned && q == Counting(1, r.m))
  {
    DistinctWithin(q, 1, r.m);
    PassMeansPerfect(r.Window(q), r.m, r.m);
    assert q != [] ==> q[0] in q;
  }

  /** The numbers of all quotes that arrived at all. */
  function Distinct(a: Arrivals): set<nat> { set x: Arrival | x in a && x.QuoteCopy? :: x.number }

  lemma WindowWithin(r: Sent, a: Arrivals, c: Closing)
    requires FromSent(a, r.m) && Brackets(a, c)
    ensures forall x :: x in Between(a, c.start, c.end) ==> 1 <= x <= r.m
    ensures SetOf(Between(a, c.start, c.end)) <= Distinct(a)
  {
    var q := Between(a, c.start, c.end);
    forall x | x in q
      ensures 1 <= x <= r.m && x in Distinct(a)
    {
      var i :| 0 <= i < |q| && q[i] == x;
      assert a[c.start + 1 + i].QuoteCopy? && a[c.start + 1 + i] in a;
    }
  }

  /** `c` is the only closing. */
  ghost predicate OnlyCloses(a: Arrivals, c: Closing) {
    Brackets(a, c) && forall d :: Brackets(a, d) ==> d == c
  }

  /** There is one END that closes a START, and every quote that arrived at all has a
      copy between the two. */
  ghost predicate OneWindow(a: Arrivals, c: Closing) {
    && OnlyCloses(a, c)
    && Distinct(a) <= SetOf(Between(a, c.start, c.end))
  }

  /** The missing count of a window is that of the run exactly when the window holds a
      copy of everything that arrived. */
  lemma WindowMissing(r: Sent, a: Arrivals, c: Closing)
    requires r.Possible() && FromSent(a, r.m) && Brackets(a, c)
    ensures var q := Between(a, c.start, c.end);
            ReportOn(r, q).missing == Assumed(r) - |Distinct(a)| <==> Distinct(a) <= SetOf(q)
  {
    var q := Between(a, c.start, c.end);
    WindowWithin(r, a, c);
    ReportExact(r, q);
    SameSize(SetOf(q), Distinct(a));
  }

  lemma ReportsAtOne(r: Sent, a: Arrivals, all: seq<Closing>, c: Closing)
    requires all == [c] && AllBracket(a, all)
    ensures Brackets(a, c) && ReportsOn(r, a, all) == [ReportOn(r, Between(a, c.start, c.end))]
  {
    assert Brackets(a, all[0]);
  }

  /** The report of a run in which `c` is the only closing. */
  lemma OneReport(r: Sent, a: Arrivals, c: Closing)
    requires r.Possible() && r.c.durationMs >= 1 && FromSent(a, r.m) && Windows(r, a) == [c]
    ensures Brackets(a, c) && r.Received(a).reports == [ReportOn(r, Between(a, c.start, c.end))]
  {
    EveryRun(r, a);
    ReportsAtOne(r, a, Windows(r, a), c);
  }

  lemma SameSize(s: set<nat>, t: set<nat>)
    requires s <= t
    ensures |s| <= |t|
    ensures |s| == |t| <==> t <= s
  {
    SubsetDifference(t, s);
  }

  lemma OneClosing(r: Sent, a: Arrivals, c: Closing)
    requires r.Possible() && r.c.durationMs >= 1 && FromSent(a, r.m)
    ensures OnlyCloses(a, c) <==> Windows(r, a) == [c]
  {
    WindowsExact(r, a);
    var all := Windows(r, a);
    if all == [c] {
      assert c in all;
    }
    if OnlyCloses(a, c) {
      assert c in all;
      assert all[0] in all && all[|all| - 1] in all;
    }
  }

  /** Exact loss.  A network that loses, repeats and reorders everything it carries,
      START and END included: the run is reported once, with as many packets missing as
      were sent and never delivered, exactly when one END closes one START and every
      delivered quote has a copy between them. */
  lemma LossyDelivery(r: Sent, a: Arrivals)
    requires r.Possible() && r.c.durationMs >= 1 && FromSent(a, r.m)
    ensures var reports := r.Received(a).reports;
            |reports| == 1 && reports[0].missing == Assumed(r) - |Distinct(a)|
            <==> exists c :: OneWindow(a, c)
  {
    EveryRun(r, a);
    var all := Windows(r, a);
    if |all| == 1 {
      var c := all[0];
      assert all == [c];
      OneReport(r, a, c);
      WindowMissing(r, a, c);
      OneClosing(r, a, c);
      assert Distinct(a) <= SetOf(Between(a, c.start, c.end)) <==> OneWindow(a, c);
    }
    forall d | OneWindow(a, d)
      ensures all == [d]
    {
      OneClosing(r, a, d);
    }
  }

  lemma NothingOpen(r: Sent, a: Arrivals, c: Closing)
    requires r.Possible() && r.c.durationMs >= 1 && FromSent(a, r.m)
    requires Brackets(a, c) && forall k :: 0 <= k < |a| && a[k].StartCopy? ==> k == c.start
    ensures r.Received(a).stream == Idle
  {
    var ds := r.Delivered(a);
    RunExact(ds);
    var open := OpenAt(ds);
    if open.Some? {
      OpenArrivals(r, a, open.value, |a|);
      assert false;
    }
  }

  /** In particular, when START arrives once and an END closes it: late quotes, early
      quotes and repeated END markers change nothing, and the one report passes exactly
      on complete delivery in order. */
  lemma SingleStart(r: Sent, a: Arrivals, c: Closing)
    requires r.Possible() && r.c.durationMs >= 1 && FromSent(a, r.m)
    requires Brackets(a, c) && forall k :: 0 <= k < |a| && a[k].StartCopy? ==> k == c.start
    ensures var q := Between(a, c.start, c.end);
            && r.Received(a) == Progress(Idle, [ReportOn(r, q)])
            && ReportOn(r, q).missing == Assumed(r) - |SetOf(q)|
            && (ReportOn(r, q).integrityOk <==> r.m == r.c.planned && q == Counting(1, r.m))
  {
    forall d | Brackets(a, d)
      ensures d == c
    {
      assert a[d.start].StartCopy?;
    }
    OneClosing(r, a, c);
    OneReport(r, a, c);
    NothingOpen(r, a, c);
    WindowWithin(r, a, c);
    ReportExact(r, Between(a, c.start, c.end));
  }

  /** START, quote 1, START again, quote 2, END. */
  const REPEATED: Arrivals := [StartCopy, QuoteCopy(1), StartCopy, QuoteCopy(2), EndCopy]

  lemma RepeatedWindow()
    ensures FromSent(REPEATED, 2) && Distinct(REPEATED) == {1, 2}
    ensures OnlyCloses(REPEATED, Closing(2, 4)) && Between(REPEATED, 2, 4) == [2]
  {
    assert REPEATED[1] in REPEATED && REPEATED[3] in REPEATED;
    assert REPEATED[2].StartCopy? && REPEATED[4].EndCopy?;
    assert Brackets(REPEATED, Closing(2, 4));
  }

  /** A repeated START loses what arrived before it: both quotes of a run of two arrive,
      and one is reported missing. */
  lemma RepeatedStart(r: Sent)
    requires r.c == HostConfig(1000, 2, 2) && r.m == 2
    ensures FromSent(REPEATED, 2) && Distinct(REPEATED) == {1, 2}
    ensures |r.Received(REPEATED).reports| == 1 && r.Received(REPEATED).reports[0].missing == 1
  {
    RepeatedWindow();
    OneClosing(r, REPEATED, Closing(2, 4));
    OneReport(r, REPEATED, Closing(2, 4));
    assert SetOf([2]) == {2};
    ReportExact(r, [2]);
  }
}

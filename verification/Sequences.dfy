/** Statistics of a list of sequence numbers in arrival order: what has been seen,
    what repeats, what arrives late, what is skipped. */
module Sequences {
  import opened Words

  function SetOf(q: seq<nat>): set<nat> { set x | x in q }

  /** The largest number so far, 0 before the first. */
  function Highest(q: seq<nat>): nat {
    if q == [] then 0 else Max(Highest(q[..|q| - 1]), q[|q| - 1])
  }

  /** The last number is new and larger than everything before it. */
  predicate Advances(q: seq<nat>)
    requires q != []
  {
    |q| == 1 || q[|q| - 1] > Highest(q[..|q| - 1])
  }

  predicate Repeats(q: seq<nat>)
    requires q != []
  {
    q[|q| - 1] in q[..|q| - 1]
  }

  /** The last number is new but arrives after a larger one. */
  predicate Late(q: seq<nat>)
    requires q != []
  {
    !Repeats(q) && !Advances(q)
  }

  /** The left-to-right maxima, in order. */
  function Records(q: seq<nat>): seq<nat> {
    if q == [] then []
    else if Advances(q) then Records(q[..|q| - 1]) + [q[|q| - 1]]
    else Records(q[..|q| - 1])
  }

  function Duplicates(q: seq<nat>): nat {
    if q == [] then 0
    else if Repeats(q) then Duplicates(q[..|q| - 1]) + 1
    else Duplicates(q[..|q| - 1])
  }

  function OutOfOrder(q: seq<nat>): nat {
    if q == [] then 0
    else if Late(q) then OutOfOrder(q[..|q| - 1]) + 1
    else OutOfOrder(q[..|q| - 1])
  }

  /** The numbers skipped at each advance, all together. */
  function Skipped(q: seq<nat>): nat {
    if |q| <= 1 then 0
    else if Advances(q) then Skipped(q[..|q| - 1]) + (q[|q| - 1] - Highest(q[..|q| - 1]) - 1)
    else Skipped(q[..|q| - 1])
  }

  /** Late numbers that are larger than the first one of all. */
  function LateAboveFirst(q: seq<nat>): nat {
    if q == [] then 0
    else if Late(q) && q[|q| - 1] > q[0] then LateAboveFirst(q[..|q| - 1]) + 1
    else LateAboveFirst(q[..|q| - 1])
  }

  function Range(lo: nat, hi: int): (r: set<nat>)
    ensures forall x: nat :: x in r <==> lo <= x <= hi
    ensures |r| == Max(0, hi - lo + 1)
    decreases hi - lo + 1
  {
    if hi < lo then {} else Range(lo, hi - 1) + {hi}
  }

  // ---------------------------------------------------------------- Basic facts

  lemma {:induction false} HighestBounds(q: seq<nat>)
    ensures forall x :: x in q ==> x <= Highest(q)
    ensures q != [] ==> Highest(q) in q
  {
    if q != [] {
      var n := |q| - 1;
      HighestBounds(q[..n]);
      assert q == q[..n] + [q[n]];
      assert q[n] in q && (n > 0 ==> Highest(q[..n]) in q);
    }
  }

  /** `Highest` and the set depend on which numbers arrived, not on their order. */
  lemma HighestOfSet(q: seq<nat>, r: seq<nat>)
    requires SetOf(q) == SetOf(r)
    ensures Highest(q) == Highest(r)
  {
    HighestBounds(q);
    HighestBounds(r);
    assert q != [] ==> q[0] in SetOf(q) && Highest(q) in SetOf(q);
    assert r != [] ==> r[0] in SetOf(r) && Highest(r) in SetOf(r);
  }

  lemma SetOfPush(q: seq<nat>)
    requires q != []
    ensures SetOf(q) == SetOf(q[..|q| - 1]) + {q[|q| - 1]}
  {
    assert q == q[..|q| - 1] + [q[|q| - 1]];
  }

  /** How every statistic moves when one more number arrives. */
  lemma Push(q: seq<nat>, x: nat)
    requires q == [] ==> x > 0
    ensures var r := q + [x];
            && (x in q ==>
                  && SetOf(r) == SetOf(q) && Duplicates(r) == Duplicates(q) + 1
                  && OutOfOrder(r) == OutOfOrder(q) && Highest(r) == Highest(q) && x <= Highest(q))
            && (x !in q ==>
                  && |SetOf(r)| == |SetOf(q)| + 1 && Duplicates(r) == Duplicates(q)
                  && OutOfOrder(r) == OutOfOrder(q) + (if x < Highest(q) then 1 else 0)
                  && Highest(r) == Max(Highest(q), x) && x != Highest(q))
  {
    var r := q + [x];
    assert r[..|r| - 1] == q;
    HighestBounds(q);
    SetOfPush(r);
  }

  /** The same for numbers that start anywhere: what is skipped on an advance. */
  lemma PushSkipped(q: seq<nat>, x: nat)
    ensures var r := q + [x];
            && (x in q || (q != [] && x < Highest(q)) ==> Skipped(r) == Skipped(q) && Highest(r) == Highest(q))
            && (x !in q && (q == [] || x >= Highest(q)) ==>
                  && Highest(r) == x
                  && (q != [] ==> x > Highest(q))
                  && Skipped(r) == Skipped(q) + (if q == [] then 0 else x - Highest(q) - 1))
            && Duplicates(r) == Duplicates(q) + (if x in q then 1 else 0)
            && OutOfOrder(r) == OutOfOrder(q) + (if x !in q && q != [] && x < Highest(q) then 1 else 0)
            && SetOf(r) == SetOf(q) + {x}
  {
    var r := q + [x];
    assert r[..|r| - 1] == q;
    HighestBounds(q);
    SetOfPush(r);
  }

  /** Every arrival is exactly one of: an advance, a repeat, a late number. */
  lemma {:induction false} Accounting(q: seq<nat>)
    ensures |q| == |Records(q)| + Duplicates(q) + OutOfOrder(q)
    ensures |SetOf(q)| == |Records(q)| + OutOfOrder(q)
  {
    if q != [] {
      Accounting(q[..|q| - 1]);
      SetOfPush(q);
      HighestBounds(q[..|q| - 1]);
    }
  }

  /** The advances walk from the first number to the highest, and skip the rest. */
  lemma {:induction false} SpanAccounting(q: seq<nat>)
    requires q != []
    ensures Highest(q) - q[0] + 1 == |Records(q)| + Skipped(q)
  {
    if |q| > 1 {
      SpanAccounting(q[..|q| - 1]);
    }
  }

  /** The seen numbers from the first one upwards. */
  function SeenFrom(q: seq<nat>, first: nat): set<nat> { set x | x in q && x >= first }

  lemma {:induction false} SeenFromFirst(q: seq<nat>)
    requires q != []
    ensures |SeenFrom(q, q[0])| == |Records(q)| + LateAboveFirst(q)
  {
    var n := |q| - 1;
    if n == 0 {
      assert SeenFrom(q, q[0]) == {q[0]};
      assert Records(q) == [q[0]];
    } else {
      SeenFromFirst(q[..n]);
      HighestBounds(q[..n]);
      var before := SeenFrom(q[..n], q[0]);
      assert q == q[..n] + [q[n]] && q[0] in q[..n];
      if Repeats(q) || q[n] < q[0] {
        assert SeenFrom(q, q[0]) == before;
      } else {
        assert SeenFrom(q, q[0]) == before + {q[n]};
        assert q[n] !in before;
      }
    }
  }

  /** Set-difference accounting: the numbers of the span that never arrived are the
      skipped ones less those that turned up late. */
  lemma MissingSet(q: seq<nat>)
    requires q != []
    ensures |Range(q[0], Highest(q)) - SetOf(q)| == Skipped(q) - LateAboveFirst(q)
  {
    HighestBounds(q);
    assert q[0] in q;
    SpanAccounting(q);
    SeenFromFirst(q);
    assert Range(q[0], Highest(q)) - SetOf(q) == Range(q[0], Highest(q)) - SeenFrom(q, q[0]);
    SubsetDifference(Range(q[0], Highest(q)), SeenFrom(q, q[0]));
  }

  lemma SubsetDifference(s: set<nat>, t: set<nat>)
    requires t <= s
    ensures |s - t| == |s| - |t|
  {
    assert s == (s - t) + t;
  }

  // ---------------------------------------------------------------- By position

  /** The arrival repeats an earlier number. */
  predicate RepeatsAt(q: seq<nat>, i: nat) { i < |q| && exists j :: 0 <= j < i && q[j] == q[i] }

  /** The arrival is new and comes after a larger number. */
  predicate LateAt(q: seq<nat>, i: nat) {
    && i < |q| && !RepeatsAt(q, i)
    && exists j :: 0 <= j < i && q[j] > q[i]
  }

  function RepeatPositions(q: seq<nat>): set<nat> { set i: nat | i < |q| && RepeatsAt(q, i) }

  function LatePositions(q: seq<nat>): set<nat> { set i: nat | i < |q| && LateAt(q, i) }

  lemma LastPosition(q: seq<nat>)
    requires q != []
    ensures Repeats(q) <==> RepeatsAt(q, |q| - 1)
    ensures Late(q) <==> LateAt(q, |q| - 1)
  {
    var n := |q| - 1;
    HighestBounds(q[..n]);
    assert forall j :: 0 <= j < n ==> q[..n][j] == q[j] && q[j] in q[..n];
    if n > 0 && Highest(q[..n]) > q[n] {
      var j :| 0 <= j < n && q[..n][j] == Highest(q[..n]);
      assert q[j] > q[n];
    }
  }

  lemma SamePositions(q: seq<nat>)
    requires q != []
    ensures var n := |q| - 1;
            forall i: nat :: i < n ==> (RepeatsAt(q, i) <==> RepeatsAt(q[..n], i)) && (LateAt(q, i) <==> LateAt(q[..n], i))
  {
    var n := |q| - 1;
    assert forall j :: 0 <= j < n ==> q[..n][j] == q[j];
  }

  /** A set of positions below n that gains at most n itself. */
  lemma Grows(small: set<nat>, big: set<nat>, n: nat, last: bool)
    requires forall i :: i in small ==> i < n
    requires forall i :: i in big <==> i in small || (last && i == n)
    ensures |big| == |small| + if last then 1 else 0
  {
    assert big == small + if last then {n} else {};
  }

  lemma PositionsPush(q: seq<nat>)
    requires q != []
    ensures var n := |q| - 1;
            && |RepeatPositions(q)| == |RepeatPositions(q[..n])| + (if RepeatsAt(q, n) then 1 else 0)
            && |LatePositions(q)| == |LatePositions(q[..n])| + (if LateAt(q, n) then 1 else 0)
  {
    var n := |q| - 1;
    SamePositions(q);
    Grows(RepeatPositions(q[..n]), RepeatPositions(q), n, RepeatsAt(q, n));
    Grows(LatePositions(q[..n]), LatePositions(q), n, LateAt(q, n));
  }

  /** The two counters, by position. */
  lemma {:induction false} CountersByPosition(q: seq<nat>)
    ensures Duplicates(q) == |RepeatPositions(q)|
    ensures OutOfOrder(q) == |LatePositions(q)|
  {
    if q != [] {
      CountersByPosition(q[..|q| - 1]);
      LastPosition(q);
      PositionsPush(q);
    }
  }

  /** What is largest: an arrival that nothing exceeds. */
  lemma HighestIs(q: seq<nat>, h: nat)
    requires q != []
    ensures Highest(q) == h <==> h in q && forall x :: x in q ==> x <= h
  {
    HighestBounds(q);
  }

  // ---------------------------------------------------------------- Perfect delivery

  predicate Increasing(q: seq<nat>) { forall i, j :: 0 <= i < j < |q| ==> q[i] < q[j] }

  lemma IncreasingPush(q: seq<nat>)
    requires q != []
    ensures Increasing(q) <==> Increasing(q[..|q| - 1]) && (|q| == 1 || q[|q| - 1] > Highest(q[..|q| - 1]))
  {
    var n := |q| - 1;
    HighestBounds(q[..n]);
    if n > 0 {
      var i :| 0 <= i < n && q[..n][i] == Highest(q[..n]);
      assert forall j :: 0 <= j < n ==> q[..n][j] == q[j];
      assert forall j :: 0 <= j < n ==> q[j] in q[..n];
    }
  }

  /** No repeats and no late arrivals means strictly increasing. */
  lemma {:induction false} CleanIsIncreasing(q: seq<nat>)
    ensures Duplicates(q) == 0 && OutOfOrder(q) == 0 <==> Increasing(q)
  {
    if q != [] {
      CleanIsIncreasing(q[..|q| - 1]);
      IncreasingPush(q);
      HighestBounds(q[..|q| - 1]);
    }
  }

  /** The numbers lo, lo + 1, ..., hi. */
  function Counting(lo: nat, hi: int): (q: seq<nat>)
    ensures |q| == Max(0, hi - lo + 1)
  {
    seq(Max(0, hi - lo + 1), i requires 0 <= i => lo + i)
  }

  /** Strictly increasing numbers from lo..hi that fill the range are the range. */
  lemma FillsRange(q: seq<nat>, lo: nat, hi: int)
    requires Increasing(q) && |q| == Max(0, hi - lo + 1)
    requires forall x :: x in q ==> lo <= x <= hi
    ensures q == Counting(lo, hi)
  {
    forall i | 0 <= i < |q| ensures q[i] == lo + i {
      assert q[0] in q && q[|q| - 1] in q;
      AtLeast(q, lo, i);
      AtMost(q, hi, i);
    }
  }

  lemma {:induction false} AtLeast(q: seq<nat>, lo: nat, i: nat)
    requires Increasing(q) && i < |q| && lo <= q[0]
    ensures q[i] >= lo + i
  {
    if i > 0 {
      AtLeast(q, lo, i - 1);
    }
  }

  lemma {:induction false} AtMost(q: seq<nat>, hi: int, i: nat)
    requires Increasing(q) && i < |q| && q[|q| - 1] <= hi
    ensures q[i] <= hi - (|q| - 1 - i)
    decreases |q| - i
  {
    if i < |q| - 1 {
      AtMost(q, hi, i + 1);
    }
  }

  /** Each number is one more than the one before. */
  predicate Consecutive(q: seq<nat>) { forall i :: 0 <= i < |q| ==> q[i] == q[0] + i }

  lemma ConsecutivePush(q: seq<nat>)
    requires |q| > 1
    ensures Consecutive(q) <==> Consecutive(q[..|q| - 1]) && q[|q| - 1] == Highest(q[..|q| - 1]) + 1
  {
    var n := |q| - 1;
    if Consecutive(q[..n]) {
      HighestBounds(q[..n]);
      var i :| 0 <= i < n && q[..n][i] == Highest(q[..n]);
      assert q[..n][n - 1] in q[..n];
    }
    assert Consecutive(q) ==> Consecutive(q[..n]);
  }

  /** Nothing is skipped, repeated or late exactly when the numbers are consecutive. */
  lemma {:induction false} CleanIsConsecutive(q: seq<nat>)
    ensures Skipped(q) == 0 && Duplicates(q) == 0 && OutOfOrder(q) == 0 <==> Consecutive(q)
  {
    if |q| > 1 {
      CleanIsConsecutive(q[..|q| - 1]);
      ConsecutivePush(q);
      HighestBounds(q[..|q| - 1]);
    }
  }
}

/** Sliding windows over a growing list of samples, and how their sums move. */
module Windows {
  import opened Words

  function Sum(s: seq<int>): int {
    if s == [] then 0 else Sum(s[..|s| - 1]) + s[|s| - 1]
  }

  /** The last `n` samples, or all of them while there are fewer. */
  function LastN<T>(s: seq<T>, n: nat): (r: seq<T>)
    ensures |r| == Min(|s|, n)
  {
    if |s| <= n then s else s[|s| - n..]
  }

  lemma {:induction false} SumCons(x: int, s: seq<int>)
    ensures Sum([x] + s) == x + Sum(s)
  {
    if s == [] {
      assert [x] + s == [x];
      assert [x][..0] == [];
    } else {
      SumCons(x, s[..|s| - 1]);
      assert ([x] + s)[..|s|] == [x] + s[..|s| - 1];
    }
  }

  /** Pushing a sample into a full window drops exactly the sample that is
      `n` positions back; pushing into a filling window drops nothing. */
  lemma SlideSum(h: seq<int>, m: int, n: nat)
    requires n > 0
    ensures Sum(LastN(h + [m], n))
         == Sum(LastN(h, n)) + m - (if |h| >= n then h[|h| - n] else 0)
  {
    var w := LastN(h, n);
    assert (w + [m])[..|w|] == w;
    if |h| < n {
      assert LastN(h + [m], n) == w + [m];
    } else {
      assert w == [h[|h| - n]] + w[1..];
      SumCons(h[|h| - n], w[1..]);
      assert LastN(h + [m], n) == w[1..] + [m];
      assert (w[1..] + [m])[..|w| - 1] == w[1..];
    }
  }

  lemma {:induction false} SumBounds(s: seq<int>, lo: int, hi: int)
    requires forall i :: 0 <= i < |s| ==> lo <= s[i] <= hi
    ensures |s| * lo <= Sum(s) <= |s| * hi
  {
    if s != [] {
      SumBounds(s[..|s| - 1], lo, hi);
      assert |s| * lo == (|s| - 1) * lo + lo;
      assert |s| * hi == (|s| - 1) * hi + hi;
    }
  }

  /** Every sample moved by the same amount. */
  function Shift(s: seq<int>, c: int): (r: seq<int>)
    ensures |r| == |s|
  {
    seq(|s|, i requires 0 <= i < |s| => s[i] + c)
  }

  lemma {:induction false} SumShift(s: seq<int>, c: int)
    ensures Sum(Shift(s, c)) == Sum(s) + |s| * c
  {
    if s != [] {
      SumShift(s[..|s| - 1], c);
      assert Shift(s, c)[..|s| - 1] == Shift(s[..|s| - 1], c);
      assert |s| * c == (|s| - 1) * c + c;
    }
  }
}

/** Send deadlines of the two senders: the host sender divides the elapsed packet
    count afresh for every packet, the live sender adds a fixed interval. */
module Pacing {
  import opened Words

  const SECOND: int := 1_000_000_000

  /** Deadline of quote `s`, counted from 1. */
  function Deadline(start: int, s: nat, pps: nat): int
    requires s >= 1 && pps >= 1
  {
    start + (s - 1) * SECOND / pps
  }

  /** Deadline of packet `i`, counted from 0, at a fixed whole-nanosecond interval. */
  function FixedDeadline(start: int, i: nat, pps: nat): int
    requires pps >= 1
  {
    start + i * (SECOND / pps)
  }

  /** A deadline never lags the exact time by a full nanosecond, and never leads it. */
  lemma NeverLags(start: int, s: nat, pps: nat)
    requires s >= 1 && pps >= 1
    ensures var d := Deadline(start, s, pps) - start;
            pps * d <= (s - 1) * 1_000_000_000 < pps * (d + 1)
  {
    var x := (s - 1) * SECOND;
    assert x == pps * (x / pps) + x % pps;
    assert pps * (x / pps + 1) == pps * (x / pps) + pps;
  }

  /** Consecutive deadlines are one whole-nanosecond period apart, or one more. */
  lemma Gaps(start: int, s: nat, pps: nat)
    requires s >= 1 && pps >= 1
    ensures var period := 1_000_000_000 / pps;
            period <= Deadline(start, s + 1, pps) - Deadline(start, s, pps) <= period + 1
  {
    var x := (s - 1) * SECOND;
    var a, p := x / pps, SECOND / pps;
    var r, t := x % pps, SECOND % pps;
    assert x == pps * a + r && SECOND == pps * p + t;
    assert s * SECOND == pps * a + pps * p + r + t;
    assert pps * (a + p) == pps * a + pps * p;
    assert pps * (a + p + 1) == pps * (a + p) + pps;
    if r + t < pps {
      Quotient(s * SECOND, pps, a + p);
    } else {
      Quotient(s * SECOND, pps, a + p + 1);
    }
  }

  /** Deadlines never go back. */
  lemma {:induction false} Nondecreasing(start: int, s: nat, u: nat, pps: nat)
    requires 1 <= s <= u && pps >= 1
    ensures Deadline(start, s, pps) <= Deadline(start, u, pps)
    decreases u - s
  {
    if s < u {
      Gaps(start, s, pps);
      Quotient(SECOND, pps, SECOND / pps) by {
        assert SECOND == pps * (SECOND / pps) + SECOND % pps;
      }
      assert SECOND / pps >= 0;
      Nondecreasing(start, s + 1, u, pps);
    }
  }

  /** Every `pps` packets take exactly one second. */
  lemma EverySecond(start: int, s: nat, pps: nat)
    requires s >= 1 && pps >= 1
    ensures Deadline(start, s + pps, pps) == Deadline(start, s, pps) + 1_000_000_000
  {
    var x := (s - 1) * SECOND;
    var a := x / pps;
    assert x == pps * a + x % pps;
    assert (s + pps - 1) * SECOND == x + pps * SECOND;
    assert pps * (a + SECOND) == pps * a + pps * SECOND;
    Quotient((s + pps - 1) * SECOND, pps, a + SECOND);
  }

  /** By packet `i` the fixed interval has run ahead of the exact schedule by exactly
      the remainders it dropped. */
  lemma Drift(start: int, i: nat, pps: nat)
    requires pps >= 1
    ensures Deadline(start, i + 1, pps) - FixedDeadline(start, i, pps) == i * (1_000_000_000 % pps) / pps
  {
    var p, t := SECOND / pps, SECOND % pps;
    var y := i * t;
    assert SECOND == pps * p + t;
    assert i * SECOND == i * (pps * p) + i * t;
    assert i * (pps * p) == pps * (i * p);
    assert y == pps * (y / pps) + y % pps;
    assert pps * (i * p + y / pps) == pps * (i * p) + pps * (y / pps);
    Quotient(i * SECOND, pps, i * p + y / pps);
  }

  /** The two schedules agree at every packet exactly when the rate divides a second. */
  lemma SchedulesAgree(start: int, pps: nat)
    requires pps >= 1
    ensures (forall i: nat :: Deadline(start, i + 1, pps) == FixedDeadline(start, i, pps)) <==> 1_000_000_000 % pps == 0
  {
    forall i: nat | SECOND % pps == 0
      ensures Deadline(start, i + 1, pps) == FixedDeadline(start, i, pps)
    {
      Drift(start, i, pps);
      assert i * (SECOND % pps) == 0;
    }
    Drift(start, pps, pps);
    var t := SECOND % pps;
    Quotient(pps * t, pps, t);
    if forall i: nat :: Deadline(start, i + 1, pps) == FixedDeadline(start, i, pps) {
      assert Deadline(start, pps + 1, pps) == FixedDeadline(start, pps, pps);
    }
  }
}

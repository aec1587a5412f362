/** Round-half-to-even to a whole number and to three decimals, as the engine and the metrics
    apply it to simulation times. */
module Rounding {
  function RoundEven(x: real): int {
    var floor := x.Floor;
    var rest := x - floor as real;
    if rest < 0.5 then floor
    else if rest > 0.5 then floor + 1
    else if floor % 2 == 0 then floor else floor + 1
  }

  function Round3(t: real): real {
    RoundEven(t * 1000.0) as real / 1000.0
  }

  /** A time that is a whole number of milliseconds. */
  predicate OnGrid(t: real) {
    (t * 1000.0).Floor as real == t * 1000.0
  }

  lemma RoundEvenNearest(x: real)
    ensures -0.5 <= x - RoundEven(x) as real <= 0.5
  {
  }

  lemma RoundEvenMonotone(x: real, y: real)
    requires x <= y
    ensures RoundEven(x) <= RoundEven(y)
  {
    assert x.Floor <= y.Floor;
  }

  /** Rounding commutes with whole offsets except at ties, which go to the even neighbour. */
  lemma RoundEvenShift(n: int, e: real)
    requires -1.0 <= e <= 1.0
    ensures RoundEven(n as real + e) == n <==> (-0.5 < e < 0.5 || ((e == 0.5 || e == -0.5) && n % 2 == 0))
  {
    var x := n as real + e;
    if e == -1.0 {
      assert x.Floor == n - 1;
    } else if e < 0.0 {
      assert x.Floor == n - 1;
    } else if e < 1.0 {
      assert x.Floor == n;
    } else {
      assert x.Floor == n + 1;
    }
  }

  lemma Round3Monotone(a: real, b: real)
    requires a <= b
    ensures Round3(a) <= Round3(b)
  {
    RoundEvenMonotone(a * 1000.0, b * 1000.0);
  }

  lemma Round3Near(t: real)
    ensures -0.0005 <= t - Round3(t) <= 0.0005
  {
    RoundEvenNearest(t * 1000.0);
  }

  lemma Round3OnGrid(t: real)
    ensures OnGrid(t) <==> Round3(t) == t
    ensures OnGrid(Round3(t))
  {
    var n := RoundEven(t * 1000.0);
    assert Round3(t) * 1000.0 == n as real;
    assert (n as real).Floor == n;
  }

  /** Milliseconds by which rounding moved a time. */
  function Shift(t: real): real {
    t * 1000.0 - RoundEven(t * 1000.0) as real
  }

  /** The guard under which rounding a difference and differencing rounded times agree: the two
      rounding shifts differ by less than half a millisecond, or by exactly half a millisecond
      when the rounded distance is an even number of milliseconds. */
  predicate ShiftsAgree(a: real, b: real) {
    var e := Shift(b) - Shift(a);
    -0.5 < e < 0.5
    || ((e == 0.5 || e == -0.5) && (RoundEven(b * 1000.0) - RoundEven(a * 1000.0)) % 2 == 0)
  }

  /** Whole milliseconds are not moved. */
  lemma GridShiftsAgree(a: real, b: real)
    requires OnGrid(a) && OnGrid(b)
    ensures ShiftsAgree(a, b)
  {
    Round3OnGrid(a);
    Round3OnGrid(b);
  }

  /** The duration stamped from raw times and the duration recomputed from rounded times differ
      by at most one millisecond, and are equal exactly under `ShiftsAgree`. */
  lemma RoundedDifference(a: real, b: real)
    ensures Round3(b - a) == Round3(Round3(b) - Round3(a)) <==> ShiftsAgree(a, b)
    ensures -0.001 <= Round3(b - a) - Round3(Round3(b) - Round3(a)) <= 0.001
  {
    var m, n := RoundEven(a * 1000.0), RoundEven(b * 1000.0);
    var e := Shift(b) - Shift(a);
    RoundEvenNearest(a * 1000.0);
    RoundEvenNearest(b * 1000.0);
    assert (b - a) * 1000.0 == (n - m) as real + e;
    assert (Round3(b) - Round3(a)) * 1000.0 == (n - m) as real;
    assert ((n - m) as real).Floor == n - m;
    assert RoundEven((n - m) as real) == n - m;
    RoundEvenShift(n - m, e);
    RoundEvenMonotone((n - m) as real - 1.0, (n - m) as real + e);
    RoundEvenMonotone((n - m) as real + e, (n - m) as real + 1.0);
    assert ((n - m) as real - 1.0).Floor == n - m - 1;
    assert ((n - m) as real + 1.0).Floor == n - m + 1;
  }
}

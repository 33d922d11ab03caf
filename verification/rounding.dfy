/** The display rounding applied to the response: Math.round on exact reals. */
module Rounding {

  /** Math.round: the nearest integer, a tie going to the larger one. */
  function Round(x: real): (n: int)
    ensures x - 0.5 < n as real <= x + 0.5
  {
    (x + 0.5).Floor
  }

  /** Only one integer lies in the half-open window that Round promises. */
  lemma RoundUnique(x: real, m: int)
    requires x - 0.5 < m as real <= x + 0.5
    ensures m == Round(x)
  {
    var n := Round(x);
    assert n as real - 1.0 < m as real < n as real + 1.0;
  }

  /** A whole number of hundredths. */
  predicate WholeHundredths(r: real) {
    r * 100.0 == (r * 100.0).Floor as real
  }

  /** `Math.round(x * 100) / 100`: x to the nearest hundredth. */
  function RoundCents(x: real): (r: real)
    ensures WholeHundredths(r)
    ensures x - 0.005 < r <= x + 0.005
    ensures 0.0 <= x <= 1.0 ==> 0.0 <= r <= 1.0
  {
    var n := Round(x * 100.0);
    assert 0.0 <= x <= 1.0 ==> 0 <= n <= 100;
    assert (n as real / 100.0) * 100.0 == n as real;
    n as real / 100.0
  }

  /** No other whole hundredth lies in the window RoundCents promises, so the two ensures pin it down. */
  lemma RoundCentsUnique(x: real, r: real)
    requires WholeHundredths(r) && x - 0.005 < r <= x + 0.005
    ensures r == RoundCents(x)
  {
    var m := (r * 100.0).Floor;
    RoundUnique(x * 100.0, m);
    assert r == m as real / 100.0;
  }

  /** Rounding a whole trace keeps its length and rounds each element on its own. */
  function RoundTrace(trace: seq<real>): (r: seq<real>)
    ensures |r| == |trace|
    ensures forall i :: 0 <= i < |r| ==> WholeHundredths(r[i])
    ensures forall i :: 0 <= i < |r| ==> trace[i] - 0.005 < r[i] <= trace[i] + 0.005
    ensures (forall i :: 0 <= i < |trace| ==> 0.0 <= trace[i] <= 1.0) ==> forall i :: 0 <= i < |r| ==> 0.0 <= r[i] <= 1.0
  {
    seq(|trace|, i requires 0 <= i < |trace| => RoundCents(trace[i]))
  }
}

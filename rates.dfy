/** The rounded percentages and letter grades shared by the record models
    and the step planner. */
module Rates {

  lemma DivBounds(x: nat, d: nat)
    requires d > 0
    ensures d * (x / d) <= x < d * (x / d) + d
  {
  }

  lemma MulMonotone(c: nat, a: nat, b: nat)
    requires a <= b
    ensures c * a <= c * b
  {
  }

  lemma {:induction false} PercentBounds(part: nat, whole: nat)
    requires whole > 0
    ensures var r := (200 * part + whole) / (2 * whole);
      && (part <= whole ==> r <= 100)
      && (part == whole ==> r == 100)
      && (part == 0 ==> r == 0)
  {
    var d := 2 * whole;
    var x := 200 * part + whole;
    var r := x / d;
    DivBounds(x, d);
    if part <= whole && r > 100 {
      MulMonotone(d, 101, r);
      assert false;
    }
    if part == whole && r < 100 {
      MulMonotone(d, r + 1, 100);
      assert false;
    }
  }

  /** `Math.round(part / whole * 100)`, computed on exact rationals: the
      nearest integer, halves rounded up. */
  function RoundedPercent(part: nat, whole: nat): (r: nat)
    requires whole > 0
    ensures 2 * whole * r <= 200 * part + whole < 2 * whole * r + 2 * whole
    ensures part <= whole ==> r <= 100
    ensures part == whole ==> r == 100
    ensures part == 0 ==> r == 0
  {
    DivBounds(200 * part + whole, 2 * whole);
    PercentBounds(part, whole);
    (200 * part + whole) / (2 * whole)
  }

  /** The `successRate` virtuals: 0 before any attempt, otherwise the
      rounded percentage of successful attempts. */
  function SuccessRate(successes: nat, attempts: nat): (r: nat)
    ensures attempts == 0 ==> r == 0
    ensures successes <= attempts ==> r <= 100
    ensures 0 < attempts && successes == attempts ==> r == 100
    ensures successes == 0 ==> r == 0
  {
    if attempts == 0 then 0 else RoundedPercent(successes, attempts)
  }

  lemma MulCancel(c: nat, a: nat, b: nat)
    requires c > 0 && c * a <= c * b
    ensures a <= b
  {
    if a > b {
      MulMonotone(c, b + 1, a);
      assert false;
    }
  }

  /** The cross-multiplied comparison behind monotonicity, with each
      product named so that every step is linear in them. */
  lemma CrossScale(p1: nat, w1: nat, p2: nat, w2: nat, r1: nat)
    requires w1 > 0 && w2 > 0
    requires p1 * w2 <= p2 * w1
    requires 2 * w1 * r1 <= 200 * p1 + w1
    ensures 2 * w2 * r1 <= 200 * p2 + w2
  {
    MulMonotone(w2, 2 * w1 * r1, 200 * p1 + w1);
    assert w2 * (200 * p1 + w1) == 200 * (p1 * w2) + w1 * w2;
    assert w1 * (200 * p2 + w2) == 200 * (p2 * w1) + w1 * w2;
    assert w2 * (2 * w1 * r1) == w1 * (2 * w2 * r1);
    MulCancel(w1, 2 * w2 * r1, 200 * p2 + w2);
  }

  /** A larger fraction never rounds to a smaller percentage:
      p1/w1 <= p2/w2 implies round(100 p1/w1) <= round(100 p2/w2). */
  lemma RoundedPercentMonotone(p1: nat, w1: nat, p2: nat, w2: nat)
    requires w1 > 0 && w2 > 0
    requires p1 * w2 <= p2 * w1
    ensures RoundedPercent(p1, w1) <= RoundedPercent(p2, w2)
  {
    var r1 := RoundedPercent(p1, w1);
    var r2 := RoundedPercent(p2, w2);
    CrossScale(p1, w1, p2, w2, r1);
    assert 2 * w2 * r2 + 2 * w2 == (2 * w2) * (r2 + 1);
    assert (2 * w2) * r1 == 2 * w2 * r1;
    MulCancel(2 * w2, r1, r2 + 1);
    if r1 == r2 + 1 {
      assert false;
    }
  }

  /** One more successful attempt never lowers the success rate. */
  lemma SuccessNeverLowersRate(successes: nat, attempts: nat)
    requires successes <= attempts
    ensures SuccessRate(successes + 1, attempts + 1) >= SuccessRate(successes, attempts)
  {
    if attempts > 0 {
      assert successes * (attempts + 1) <= (successes + 1) * attempts;
      RoundedPercentMonotone(successes, attempts, successes + 1, attempts + 1);
    }
  }

  /** One more failed attempt never raises the success rate. */
  lemma FailureNeverRaisesRate(successes: nat, attempts: nat)
    requires successes <= attempts
    ensures SuccessRate(successes, attempts + 1) <= SuccessRate(successes, attempts)
  {
    if attempts > 0 {
      MulMonotone(successes, attempts, attempts + 1);
      RoundedPercentMonotone(successes, attempts + 1, successes, attempts);
    }
  }

  /** Letter grades of the `performanceGrade` virtuals. */
  datatype Grade = A | B | C | D | F

  /** Grades in order, A best. */
  function Rank(g: Grade): nat {
    match g
    case A => 0
    case B => 1
    case C => 2
    case D => 3
    case F => 4
  }
}

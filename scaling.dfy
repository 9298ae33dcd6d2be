/**
 * Rounding and the linear scaling between the block scale [-8, +8] and the
 * device scale [-100, +100] of the two outputs.
 */
module Scaling {

  /**
   * JavaScript's Math.round: the nearest integer, halves rounded toward
   * +infinity (Math.round(-2.5) is -2, Math.round(2.5) is 3).
   */
  function Round(x: real): (r: int)
    ensures r as real - 0.5 <= x < r as real + 0.5
  {
    (x + 0.5).Floor
  }

  /** The unrounded device percent for a block value: val * 100 / 8. */
  function ValToPercent(val: real): real
  {
    val * 100.0 / 8.0
  }

  /** The block value of a device percent: Math.round(percent / 100 * 8). */
  function PercentToVal(percent: int): (v: int)
    ensures 25 * v - 12 <= 2 * percent < 25 * v + 13
  {
    Round(percent as real / 100.0 * 8.0)
  }

  /** The speed an integer block value is sent as. */
  function SentSpeed(val: int): int
  {
    Round(ValToPercent(val as real))
  }

  /** Two integers within half a unit of the same point (ties up) are equal. */
  lemma RoundUnique(x: real, n: int)
    requires n as real - 0.5 <= x < n as real + 0.5
    ensures Round(x) == n
  {
  }

  /** For an integer value, the sent speed is (25 * val + 1) / 2 under floor division. */
  lemma SentSpeedClosedForm(val: int)
    ensures SentSpeed(val) == (25 * val + 1) / 2
  {
    var n := (25 * val + 1) / 2;
    assert 2 * n <= 25 * val + 1 < 2 * n + 2;
    RoundUnique(ValToPercent(val as real), n);
  }

  /** For a device percent, the block value is (4 * percent + 25) / 50 under floor division. */
  lemma PercentToValClosedForm(percent: int)
    ensures PercentToVal(percent) == (4 * percent + 25) / 50
  {
    var n := (4 * percent + 25) / 50;
    assert 50 * n <= 4 * percent + 25 < 50 * n + 50;
    RoundUnique(percent as real / 100.0 * 8.0, n);
  }

  /** An even value is sent exactly (val * 100 / 8 is an integer); an odd one half a unit up. */
  lemma SentSpeedExact(val: int)
    ensures SentSpeed(val) as real == ValToPercent(val as real) + (if val % 2 == 0 then 0.0 else 0.5)
  {
    SentSpeedClosedForm(val);
    var k := val / 2;
    assert val == 2 * k + val % 2;
  }

  /** A block value in [-8, +8] is sent as a speed in [-100, +100]. */
  lemma SentSpeedBounds(val: int)
    requires -8 <= val <= 8
    ensures -100 <= SentSpeed(val) <= 100
    ensures (SentSpeed(val) < 0 <==> val < 0) && (SentSpeed(val) == 0 <==> val == 0)
  {
    SentSpeedClosedForm(val);
  }

  /** A device percent in [-100, +100] reads back as a block value in [-8, +8]. */
  lemma PercentToValBounds(percent: int)
    requires -100 <= percent <= 100
    ensures -8 <= PercentToVal(percent) <= 8
  {
  }

  /** Reading back the speed sent for any integer value gives that value again. */
  lemma ScaleRoundTrip(val: int)
    ensures PercentToVal(SentSpeed(val)) == val
  {
    SentSpeedClosedForm(val);
    var k := val / 2;
    if val % 2 == 0 {
      assert val == 2 * k;
      assert SentSpeed(val) == 25 * k;
    } else {
      assert val == 2 * k + 1;
      assert SentSpeed(val) == 25 * k + 13;
    }
    RoundUnique(SentSpeed(val) as real / 100.0 * 8.0, val);
  }

  /** Re-sending the block value read from a percent lands within 6 points of that percent. */
  lemma RescaleError(percent: int)
    ensures -6 <= SentSpeed(PercentToVal(percent)) - percent <= 6
  {
    var v := PercentToVal(percent);
    SentSpeedClosedForm(v);
  }

  /**
   * Math.round is not symmetric, because halves round toward +infinity:
   * negating an odd value raises its sent speed by one point over the
   * negated speed. For odd val > 0 the speed of -val is one point smaller in
   * magnitude (1 is sent as 13, -1 as -12); for odd val < 0 it is one point
   * larger.
   */
  lemma SentSpeedAsymmetry(val: int)
    ensures SentSpeed(-val) == -SentSpeed(val) + val % 2
  {
    SentSpeedClosedForm(val);
    SentSpeedClosedForm(-val);
    var k := val / 2;
    assert val == 2 * k + val % 2;
    if val % 2 == 0 {
      assert -val == 2 * (-k);
    } else {
      assert -val == 2 * (-k - 1) + 1;
    }
  }
}

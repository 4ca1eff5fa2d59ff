/**
 * The safe's dial: a position (0 to 99 once it has turned) and the number
 * of times the last rotation passed zero. Rotating builds a new dial; the
 * old one is a value and stays as it was.
 */
module Day1Dial {
  import opened Numbers
  import opened Day1RotationDirection

  datatype Dial = Dial(position: I32, timesPassedZero: I32)

  /** `Dial::new`: a dial at `position` that has not passed zero. */
  function NewDial(position: I32): (d: Dial)
    ensures d.position == position && d.timesPassedZero == 0
  {
    Dial(position, 0)
  }

  /** Division as Rust does it on integers: the quotient is rounded toward zero. */
  function TruncDiv(a: int, b: int): (q: int)
    requires b > 0
    ensures a >= 0 ==> q == a / b
    ensures a < 0 ==> q == -((-a) / b)
  {
    if a >= 0 then a / b else -((-a) / b)
  }

  /** Rust's `%` on integers: the remainder takes the sign of the dividend. */
  function TruncRem(a: int, b: int): (r: int)
    requires b > 0
    ensures a == b * TruncDiv(a, b) + r
    ensures a >= 0 ==> 0 <= r < b
    ensures a < 0 ==> -b < r <= 0
  {
    a - b * TruncDiv(a, b)
  }

  /** The position the dial would reach before it is reduced modulo 100. */
  function Target(dial: Dial, direction: RotationDirection): int {
    match direction
    case Left(amount) => dial.position - amount
    case Right(amount) => dial.position + amount
  }

  /** The rotation's `i32` arithmetic does not overflow (Rust panics when it does). */
  predicate CanRotate(dial: Dial, direction: RotationDirection) {
    I32_MIN <= Target(dial, direction) <= I32_MAX
  }

  /**
   * `rotate`: the new position is the target reduced modulo 100; the count
   * is the truncated number of hundreds in the target, plus one for a
   * negative target that is not a multiple of 100 when the dial did not
   * start at zero, plus one when the target is exactly zero.
   */
  function Rotate(dial: Dial, direction: RotationDirection): (r: Dial)
    requires CanRotate(dial, direction)
    ensures 0 <= r.position <= 99
    ensures r.position == Target(dial, direction) % 100
  {
    var temp := Target(dial, direction);
    var position := TruncRem(temp, 100);
    var revolutions := TruncDiv(temp, 100);
    var result :=
      if position < 0 then
        Dial(position + 100, if dial.position != 0 then revolutions + 1 else revolutions)
      else
        Dial(position, revolutions);
    if result.position == 0 && (temp == 0 || TruncRem(temp, 100) != 0) then
      Dial(result.position, result.timesPassedZero + 1)
    else
      result
  }

  /** `is_zero`. */
  predicate IsZero(dial: Dial) {
    dial.position == 0
  }

  /**
   * The count of a rotation, in terms of the target `t` and Euclidean
   * division: `t / 100` for a positive target or a negative multiple of
   * 100, one for a zero target, and for any other negative target one more
   * than `t / 100`, or two more when the dial did not start at zero.
   */
  lemma RotateCount(dial: Dial, direction: RotationDirection)
    requires CanRotate(dial, direction)
    ensures var t, n := Target(dial, direction), Rotate(dial, direction).timesPassedZero;
            && (t > 0 ==> n == t / 100)
            && (t == 0 ==> n == 1)
            && (t < 0 && t % 100 == 0 ==> n == t / 100)
            && (t < 0 && t % 100 != 0 ==> n == t / 100 + (if dial.position != 0 then 2 else 1))
  {
  }

  /**
   * A right turn by a non-negative amount from a non-negative position
   * counts the hundreds reached; a turn by 0 from 0 is the exception.
   */
  lemma RotateRightCount(dial: Dial, n: I32)
    requires CanRotate(dial, Right(n)) && dial.position >= 0 && n >= 0 && dial.position + n != 0
    ensures Rotate(dial, Right(n)).timesPassedZero == (dial.position + n) / 100
  {
  }

  /** The unit tests of single rotations. */
  lemma RotateOneClickExamples()
    ensures Rotate(NewDial(0), Left(1)) == Dial(99, 0)
    ensures Rotate(NewDial(99), Right(1)) == Dial(0, 1)
  {
  }

  /** The unit tests of whether zero is passed. */
  lemma RotatePassesZeroExamples()
    ensures Rotate(NewDial(0), Left(5)).timesPassedZero == 0
    ensures Rotate(NewDial(95), Right(60)).timesPassedZero == 1
  {
  }

  /** The unit tests of rotations landing on zero. */
  lemma RotateLandsOnZeroExamples()
    ensures Rotate(NewDial(55), Left(55)) == Dial(0, 1)
    ensures Rotate(NewDial(52), Right(48)) == Dial(0, 1)
  {
  }

  /** The unit tests of longer rotations. */
  lemma RotateLongExamples()
    ensures Rotate(NewDial(50), Right(1000)) == Dial(50, 10)
    ensures Rotate(NewDial(50), Left(68)) == Dial(82, 1)
  {
  }

  /** As written, a left turn that ends on a multiple of 100 below zero gives a negative count. */
  lemma RotateCountCanBeNegative()
    ensures Rotate(NewDial(50), Left(150)) == Dial(0, -1)
  {
  }

  /**
   * The number of clicks, among the first `n` of a turn that moves `step`
   * (1 to the right, -1 to the left) per click from `position`, after which
   * the dial shows zero.
   */
  function ZeroClicks(position: int, step: int, n: nat): (c: nat)
    ensures c <= n
  {
    if n == 0 then 0
    else ZeroClicks(position, step, n - 1) + (if (position + step * n) % 100 == 0 then 1 else 0)
  }

  /** Turning right from 0..99, zero is shown once per hundred reached. */
  lemma {:induction false} ZeroClicksRight(p: int, n: nat)
    requires 0 <= p <= 99
    ensures ZeroClicks(p, 1, n) == (p + n) / 100
  {
    if n > 0 {
      ZeroClicksRight(p, n - 1);
    }
  }

  /**
   * Turning left from 0..99, zero is first shown after `p` clicks (or after
   * 100 when starting at zero) and then every 100 clicks.
   */
  lemma {:induction false} ZeroClicksLeft(p: int, n: nat)
    requires 0 <= p <= 99
    ensures ZeroClicks(p, -1, n) == if p == 0 then n / 100 else if n >= p then (n - p) / 100 + 1 else 0
  {
    if n > 0 {
      ZeroClicksLeft(p, n - 1);
    }
  }

  /** A turn to the right by a positive amount from 0..99 counts exactly the clicks showing zero. */
  lemma RotateRightCountsZeroClicks(dial: Dial, n: I32)
    requires 0 <= dial.position <= 99 && n >= 1 && CanRotate(dial, Right(n))
    ensures Rotate(dial, Right(n)).timesPassedZero == ZeroClicks(dial.position, 1, n)
  {
    ZeroClicksRight(dial.position, n);
  }

  /**
   * A turn to the left by a positive amount from 0..99 counts the clicks
   * showing zero exactly when it is shorter than the position plus 100;
   * every longer turn is undercounted.
   */
  lemma RotateLeftCountsZeroClicks(dial: Dial, n: I32)
    requires 0 <= dial.position <= 99 && n >= 1 && CanRotate(dial, Left(n))
    ensures Rotate(dial, Left(n)).timesPassedZero == ZeroClicks(dial.position, -1, n) <==> n < dial.position + 100
    ensures n >= dial.position + 100 ==> Rotate(dial, Left(n)).timesPassedZero < ZeroClicks(dial.position, -1, n)
  {
    ZeroClicksLeft(dial.position, n);
  }

  /** From 50, a left turn by 168 shows zero twice (after 50 and 150 clicks) but counts none. */
  lemma RotateLeftUndercounts()
    ensures Rotate(NewDial(50), Left(168)) == Dial(82, 0)
    ensures ZeroClicks(50, -1, 168) == 2
  {
    ZeroClicksLeft(50, 168);
  }

  /** From 0, a turn by nothing shows zero after no click but counts one. */
  lemma RotateZeroTurnOvercounts()
    ensures Rotate(NewDial(0), Right(0)).timesPassedZero == 1
    ensures ZeroClicks(0, 1, 0) == 0
  {
    RotateCount(NewDial(0), Right(0));
  }

  /** The direction of travel of a rotation: a negative amount turns the other way. */
  function Step(direction: RotationDirection): (step: int)
    ensures step == 1 || step == -1
  {
    if direction.Right? == (direction.amount >= 0) then 1 else -1
  }

  /** The number of clicks of a rotation. */
  function Clicks(direction: RotationDirection): nat {
    if direction.amount >= 0 then direction.amount as nat else -(direction.amount as int)
  }

  /**
   * A rotation that counts every click leaving the dial at zero: the same
   * position as `Rotate`, and a count that is never negative.
   */
  function RotateCountingClicks(dial: Dial, direction: RotationDirection): (r: Dial)
    requires 0 <= dial.position <= 99 && CanRotate(dial, direction)
    ensures r.position == Rotate(dial, direction).position
    ensures r.timesPassedZero == ZeroClicks(dial.position, Step(direction), Clicks(direction))
  {
    var p, n := dial.position as int, Clicks(direction);
    if Step(direction) == 1 then
      ZeroClicksRight(p, n);
      Dial(Rotate(dial, direction).position, (p + n) / 100)
    else
      ZeroClicksLeft(p, n);
      var count := if p == 0 then n / 100 else if n >= p then (n - p) / 100 + 1 else 0;
      Dial(Rotate(dial, direction).position, count)
  }
}

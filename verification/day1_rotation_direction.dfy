/**
 * A rotation of the safe's dial: a direction and a signed 32-bit number of
 * clicks, read from text such as "L32" or "R1000".
 */
module Day1RotationDirection {
  import opened Wrappers
  import opened Numbers

  datatype RotationDirection = Right(amount: I32) | Left(amount: I32)

  /**
   * `from_str`: the first character picks the direction, the rest of the
   * text is parsed as an `i32`. An empty text, another first character or
   * a rest that is not an `i32` is an error.
   */
  function ParseRotationDirection(s: string): (r: Result<RotationDirection>)
    ensures r.Ok? <==> |s| > 0 && (s[0] == 'L' || s[0] == 'R') && ParseI32(s[1..]).Ok?
    ensures r.Ok? && s[0] == 'L' ==> r.value.Left? && r.value.amount == ParseI32(s[1..]).value
    ensures r.Ok? && s[0] == 'R' ==> r.value.Right? && r.value.amount == ParseI32(s[1..]).value
  {
    if |s| == 0 then Err
    else
      match ParseI32(s[1..])
      case Err => Err
      case Ok(amount) =>
        if s[0] == 'L' then Ok(Left(amount))
        else if s[0] == 'R' then Ok(Right(amount))
        else Err
  }

  /** The text a rotation is written as: its letter, then its amount in decimal. */
  function RotationText(d: RotationDirection): (s: string)
    ensures |s| >= 2 && (s[0] == 'L' <==> d.Left?)
  {
    (if d.Left? then "L" else "R") + I32ToString(d.amount)
  }

  /** Parsing the text of a rotation gives that rotation back. */
  lemma ParseRotationDirectionRoundTrip(d: RotationDirection)
    ensures ParseRotationDirection(RotationText(d)) == Ok(d)
  {
    var s := RotationText(d);
    assert s[1..] == I32ToString(d.amount);
    ParseI32RoundTrip(d.amount);
  }

  /** The unit test: "L32" is a left rotation by 32 clicks. */
  lemma ParseRotationDirectionExample()
    ensures ParseRotationDirection("L32") == Ok(Left(32))
  {
    var s := "L32";
    assert s[1..] == "32";
    assert DigitsValue("32") == 32 by {
      assert "32"[..1] == "3";
    }
  }
}

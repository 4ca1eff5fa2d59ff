/**
 * The day 1 solvers: the dial starts at 50 and turns through a list of
 * rotations; part 1 counts the positions at zero, part 2 sums the counts
 * of zero passes.
 */
module Day1 {
  import opened Wrappers
  import opened Numbers
  import opened Text
  import opened Day1RotationDirection
  import opened Day1Dial

  /** `parse_input`: one rotation per line; any line that does not parse fails the whole input. */
  function ParseInput(input: string): (r: Result<seq<RotationDirection>>)
    ensures r.Ok? ==> |r.value| == |Lines(input)|
    ensures r.Ok? ==> forall i :: 0 <= i < |r.value| ==> ParseRotationDirection(Lines(input)[i]) == Ok(r.value[i])
    ensures r.Err? ==> exists i :: 0 <= i < |Lines(input)| && ParseRotationDirection(Lines(input)[i]).Err?
  {
    var lines := Lines(input);
    ParseEach(lines, ParseRotationDirection)
  }

  /**
   * The dials the loop of both solvers collects: the start, then each
   * previous dial rotated by the next rotation.
   */
  function Dials(start: Dial, rotations: seq<RotationDirection>): (ds: seq<Dial>)
    requires RotationsFit(start, rotations)
    ensures |ds| == |rotations| + 1 && ds[0] == start
    decreases |rotations|, 1
  {
    if |rotations| == 0 then [start]
    else
      var previous := Dials(start, rotations[..|rotations| - 1]);
      previous + [Rotate(previous[|previous| - 1], rotations[|rotations| - 1])]
  }

  /** No rotation along the way overflows `i32`. */
  predicate RotationsFit(start: Dial, rotations: seq<RotationDirection>)
    decreases |rotations|, 0
  {
    |rotations| == 0 ||
    (RotationsFit(start, rotations[..|rotations| - 1]) &&
     var previous := Dials(start, rotations[..|rotations| - 1]);
     CanRotate(previous[|previous| - 1], rotations[|rotations| - 1]))
  }

  /** The rotations a prefix of the list goes through fit, and give a prefix of the dials. */
  lemma {:induction false} DialsPrefix(start: Dial, rotations: seq<RotationDirection>, k: nat)
    requires RotationsFit(start, rotations) && k <= |rotations|
    ensures RotationsFit(start, rotations[..k])
    ensures Dials(start, rotations[..k]) == Dials(start, rotations)[..k + 1]
    decreases |rotations|
  {
    if k < |rotations| {
      var shorter := rotations[..|rotations| - 1];
      DialsPrefix(start, shorter, k);
      assert shorter[..k] == rotations[..k];
    } else {
      assert rotations[..k] == rotations;
    }
  }

  /** Each dial after the first is the one before it rotated by the matching rotation. */
  lemma DialsStep(start: Dial, rotations: seq<RotationDirection>, i: nat)
    requires RotationsFit(start, rotations) && i < |rotations|
    ensures var ds := Dials(start, rotations);
            CanRotate(ds[i], rotations[i]) && ds[i + 1] == Rotate(ds[i], rotations[i])
  {
    DialsPrefix(start, rotations, i + 1);
    var prefix := rotations[..i + 1];
    assert prefix[..i] == rotations[..i];
  }

  /** The dials of the first i + 1 rotations: those of the first i, then the last of them rotated by rotation i. */
  lemma DialsSnoc(start: Dial, rotations: seq<RotationDirection>, i: nat)
    requires RotationsFit(start, rotations) && i < |rotations|
    ensures RotationsFit(start, rotations[..i]) && RotationsFit(start, rotations[..i + 1])
    ensures var previous := Dials(start, rotations[..i]);
            CanRotate(previous[i], rotations[i]) &&
            Dials(start, rotations[..i + 1]) == previous + [Rotate(previous[i], rotations[i])]
  {
    DialsPrefix(start, rotations, i);
    DialsPrefix(start, rotations, i + 1);
    assert rotations[..i + 1][..i] == rotations[..i];
  }

  /** The start position of both solvers. */
  const Start: Dial := NewDial(50)

  /** Shared loop of both solvers: the dial after every rotation, starting from 50. */
  method CollectDials(rotations: seq<RotationDirection>) returns (positions: seq<Dial>)
    requires RotationsFit(Start, rotations)
    ensures positions == Dials(Start, rotations)
  {
    positions := [Start];
    for i := 0 to |rotations|
      invariant RotationsFit(Start, rotations[..i])
      invariant positions == Dials(Start, rotations[..i])
    {
      DialsSnoc(Start, rotations, i);
      var previous := positions[|positions| - 1];
      positions := positions + [Rotate(previous, rotations[i])];
    }
    assert rotations[..|rotations|] == rotations;
  }

  /** The number of dials at zero. */
  function CountZeros(ds: seq<Dial>): (n: nat)
    ensures n <= |ds|
    ensures n == 0 <==> forall i :: 0 <= i < |ds| ==> !IsZero(ds[i])
    ensures |ds| > 0 && !IsZero(ds[0]) ==> n < |ds|
  {
    if |ds| == 0 then 0
    else
      assert forall i :: 1 <= i < |ds| ==> ds[i] == ds[1..][i - 1];
      (if IsZero(ds[0]) then 1 else 0) + CountZeros(ds[1..])
  }

  /**
   * `find_rotations_where_zero`: the number of positions at zero; as the
   * start 50 is not one, it is at most the number of rotations.
   */
  method FindRotationsWhereZero(rotations: seq<RotationDirection>) returns (n: nat)
    requires RotationsFit(Start, rotations)
    ensures n == CountZeros(Dials(Start, rotations))
    ensures n <= |rotations|
  {
    var positions := CollectDials(rotations);
    n := CountZeros(positions);
  }

  /** The sum of the counts of zero passes of the dials. */
  function SumCounts(ds: seq<Dial>): int {
    if |ds| == 0 then 0 else SumCounts(ds[..|ds| - 1]) + ds[|ds| - 1].timesPassedZero
  }

  /** Every partial sum stays within `i32` (Rust panics on overflow while summing). */
  predicate SumsFit(ds: seq<Dial>) {
    forall k :: 0 <= k <= |ds| ==> I32_MIN <= SumCounts(ds[..k]) <= I32_MAX
  }

  /** `find_rotations_where_zer0_has_passed`: the sum of the counts of all dials. */
  method FindRotationsWhereZeroHasPassed(rotations: seq<RotationDirection>) returns (total: I32)
    requires RotationsFit(Start, rotations) && SumsFit(Dials(Start, rotations))
    ensures total == SumCounts(Dials(Start, rotations))
  {
    var positions := CollectDials(rotations);
    total := 0;
    for i := 0 to |positions|
      invariant total == SumCounts(positions[..i])
    {
      assert positions[..i + 1][..i] == positions[..i];
      total := total + positions[i].timesPassedZero;
    }
    assert positions[..|positions|] == positions;
  }

  /** No left turn of the list is as long as the position it starts from plus 100. */
  predicate NoLongLeftTurn(start: Dial, rotations: seq<RotationDirection>)
    requires RotationsFit(start, rotations)
  {
    var ds := Dials(start, rotations);
    forall i :: 0 <= i < |rotations| ==>
      rotations[i].amount >= 1 && (rotations[i].Left? ==> rotations[i].amount < ds[i].position + 100)
  }

  /** The number of clicks showing zero, over every rotation of the list. */
  function TotalZeroClicks(ds: seq<Dial>, rotations: seq<RotationDirection>): int
    requires |ds| == |rotations| + 1
  {
    if |rotations| == 0 then 0
    else
      var k := |rotations| - 1;
      TotalZeroClicks(ds[..k + 1], rotations[..k]) + ZeroClicks(ds[k].position, Step(rotations[k]), Clicks(rotations[k]))
  }

  /** One more rotation adds the clicks of that rotation after which the dial shows zero. */
  lemma TotalZeroClicksStep(ds: seq<Dial>, rotations: seq<RotationDirection>, i: nat)
    requires |ds| == |rotations| + 1 && i < |rotations|
    ensures TotalZeroClicks(ds[..i + 2], rotations[..i + 1])
            == TotalZeroClicks(ds[..i + 1], rotations[..i]) + ZeroClicks(ds[i].position, Step(rotations[i]), Clicks(rotations[i]))
  {
    assert ds[..i + 2][..i + 1] == ds[..i + 1];
    assert rotations[..i + 1][..i] == rotations[..i];
  }

  /** Every dial from a start in 0..99 is in 0..99, and can take its next rotation. */
  lemma DialInRange(start: Dial, rotations: seq<RotationDirection>, i: nat)
    requires 0 <= start.position <= 99 && RotationsFit(start, rotations) && i < |rotations|
    ensures var ds := Dials(start, rotations);
            0 <= ds[i].position <= 99 && CanRotate(ds[i], rotations[i])
  {
    DialsStep(start, rotations, i);
    if i > 0 {
      DialsStep(start, rotations, i - 1);
    }
  }

  /**
   * Part 2 with the corrected rotation: the sum, over the rotations from
   * 50, of the clicks after which the dial shows zero.
   */
  method CountZeroClicks(rotations: seq<RotationDirection>) returns (total: int)
    requires RotationsFit(Start, rotations)
    ensures total == TotalZeroClicks(Dials(Start, rotations), rotations)
  {
    var positions := CollectDials(rotations);
    total := 0;
    for i := 0 to |rotations|
      invariant total == TotalZeroClicks(positions[..i + 1], rotations[..i])
    {
      DialInRange(Start, rotations, i);
      var counted := RotateCountingClicks(positions[i], rotations[i]);
      TotalZeroClicksStep(positions, rotations, i);
      total := total + counted.timesPassedZero;
    }
    assert positions[..|rotations| + 1] == positions;
    assert rotations[..|rotations|] == rotations;
  }

  /**
   * From a start in 0..99 with no count, and with no long left turn and no
   * rotation by less than one click, the part 2 answer is the number of
   * clicks after which the dial shows zero.
   */
  lemma {:induction false} SumCountsIsZeroClicks(start: Dial, rotations: seq<RotationDirection>)
    requires 0 <= start.position <= 99 && start.timesPassedZero == 0
    requires RotationsFit(start, rotations) && NoLongLeftTurn(start, rotations)
    ensures SumCounts(Dials(start, rotations)) == TotalZeroClicks(Dials(start, rotations), rotations)
    decreases |rotations|
  {
    if |rotations| > 0 {
      var k := |rotations| - 1;
      var ds := Dials(start, rotations);
      DialsPrefix(start, rotations, k);
      var prefix := rotations[..k];
      assert NoLongLeftTurn(start, prefix) by {
        forall i | 0 <= i < k
          ensures prefix[i] == rotations[i] && Dials(start, prefix)[i] == ds[i]
        {
        }
      }
      SumCountsIsZeroClicks(start, prefix);
      assert ds[..k + 1] == Dials(start, prefix);
      assert ds[..|ds| - 1] == ds[..k + 1];
      DialsStep(start, rotations, k);
      if k > 0 {
        DialsStep(start, rotations, k - 1);
      }
      var r := rotations[k];
      if r.Right? {
        RotateRightCountsZeroClicks(ds[k], r.amount);
      } else {
        RotateLeftCountsZeroClicks(ds[k], r.amount);
      }
    }
  }
}

/**
 * Day 5: a closed range of ingredient ids, Rust's `IngredientIdRange`.
 * Nothing forces `start <= end`: the parser accepts "5-3". Such a range is
 * called malformed here; it holds no id.
 */
module Day5IngredientIdRange {
  import opened Wrappers
  import opened Numbers
  import opened Text
  import opened Day5IngredientId

  datatype IngredientIdRange = IngredientIdRange(start: IngredientId, end: IngredientId)

  /** `new`: a range from two `u64` bounds, unchecked. */
  function New(start: U64, end: U64): (r: IngredientIdRange)
    ensures r.start as int == start && r.end as int == end
  {
    IngredientIdRange(FromU64(start), FromU64(end))
  }

  predicate WellFormed(r: IngredientIdRange) {
    r.start <= r.end
  }

  predicate Within(r: IngredientIdRange, id: IngredientId) {
    r.start <= id <= r.end
  }

  /** The ids a range covers. */
  ghost function Ids(r: IngredientIdRange): set<IngredientId> {
    set id: IngredientId | Within(r, id)
  }

  /** `is_ingredient_fresh`: the id lies between the bounds, both included. */
  predicate IsIngredientFresh(r: IngredientIdRange, id: IngredientId) {
    id >= r.start && id <= r.end
  }

  /** `is_ingredient_fresh` is membership in the covered ids. */
  lemma IsIngredientFreshIffCovered(r: IngredientIdRange, id: IngredientId)
    ensures IsIngredientFresh(r, id) <==> id in Ids(r)
  {
  }

  /** `overlaps`: the ranges share an id or touch at an end point. */
  predicate Overlaps(a: IngredientIdRange, b: IngredientIdRange) {
    a.start <= b.end && b.start <= a.end
  }

  /** Overlap is symmetric, and for well-formed ranges it means exactly a shared id. */
  lemma OverlapsMeansSharedId(a: IngredientIdRange, b: IngredientIdRange)
    ensures Overlaps(a, b) <==> Overlaps(b, a)
    ensures WellFormed(a) && WellFormed(b) ==> (Overlaps(a, b) <==> Ids(a) * Ids(b) != {})
  {
    if WellFormed(a) && WellFormed(b) && Overlaps(a, b) {
      var m := if a.start <= b.start then b.start else a.start;
      assert m in Ids(a) * Ids(b);
    }
    if Ids(a) * Ids(b) != {} {
      var m :| m in Ids(a) * Ids(b);
      assert Within(a, m) && Within(b, m);
    }
  }

  /** Two malformed ranges never overlap. */
  lemma MalformedNeverOverlap(a: IngredientIdRange, b: IngredientIdRange)
    requires !WellFormed(a) && !WellFormed(b)
    ensures !Overlaps(a, b)
  {
  }

  /** `overlaps_pair`: `overlaps` on a slice that must hold exactly two ranges (it asserts so). */
  function OverlapsPair(pair: seq<IngredientIdRange>): (r: bool)
    requires |pair| == 2
    ensures r == Overlaps(pair[0], pair[1])
  {
    pair[0].start <= pair[1].end && pair[1].start <= pair[0].end
  }

  function Min(a: IngredientId, b: IngredientId): IngredientId {
    if a <= b then a else b
  }

  function Max(a: IngredientId, b: IngredientId): IngredientId {
    if a >= b then a else b
  }

  /**
   * `merge`: the smaller start and the larger end. The bounds of the result
   * are bounds of the arguments, so merging never makes up a new end point.
   */
  function Merge(a: IngredientIdRange, b: IngredientIdRange): (m: IngredientIdRange)
    ensures m.start <= a.start && m.start <= b.start && (m.start == a.start || m.start == b.start)
    ensures m.end >= a.end && m.end >= b.end && (m.end == a.end || m.end == b.end)
  {
    IngredientIdRange(Min(a.start, b.start), Max(a.end, b.end))
  }

  /**
   * Merging overlapping ranges loses and adds nothing: the merge covers
   * exactly the ids of the two. This also holds when one of them is
   * malformed: the merge is then the other one.
   */
  lemma MergeCoversUnion(a: IngredientIdRange, b: IngredientIdRange)
    requires Overlaps(a, b)
    ensures Ids(Merge(a, b)) == Ids(a) + Ids(b)
    ensures WellFormed(Merge(a, b))
    ensures !WellFormed(a) ==> Merge(a, b) == b
    ensures !WellFormed(b) ==> Merge(a, b) == a
  {
    var m := Merge(a, b);
    forall id | id in Ids(m) ensures id in Ids(a) + Ids(b) {
      assert Within(m, id);
      if !Within(a, id) && !Within(b, id) {
        assert false;
      }
    }
    forall id | id in Ids(a) + Ids(b) ensures id in Ids(m) {
      assert Within(a, id) || Within(b, id);
      assert Within(m, id);
    }
  }

  /**
   * `merge_pair`: a slice shorter than two is returned as it is; otherwise
   * the first two ranges become their merge when they overlap and stay as
   * they are when they do not. Later elements are dropped.
   */
  function MergePair(pair: seq<IngredientIdRange>): (r: seq<IngredientIdRange>)
    ensures |pair| < 2 ==> r == pair
    ensures |pair| >= 2 ==> (|r| == 1 <==> Overlaps(pair[0], pair[1]))
    ensures |pair| >= 2 && !Overlaps(pair[0], pair[1]) ==> r == pair[..2]
  {
    if |pair| < 2 then pair
    else
      var first := pair[0];
      var second := pair[1];
      if Overlaps(first, second) then [Merge(first, second)]
      else [first, second]
  }

  /** The ids covered by any range of a sequence. */
  ghost function SeqIds(rs: seq<IngredientIdRange>): set<IngredientId> {
    set i, id | 0 <= i < |rs| && id in Ids(rs[i]) :: id
  }

  /** `merge_pair` on two or more ranges covers exactly the ids of the first two. */
  lemma MergePairCoverage(pair: seq<IngredientIdRange>)
    requires |pair| >= 2
    ensures SeqIds(MergePair(pair)) == Ids(pair[0]) + Ids(pair[1])
  {
    var r := MergePair(pair);
    if Overlaps(pair[0], pair[1]) {
      MergeCoversUnion(pair[0], pair[1]);
      assert r == [Merge(pair[0], pair[1])];
      forall id | id in Ids(r[0]) ensures id in SeqIds(r) {
        assert 0 < |r|;
      }
    } else {
      forall id | id in Ids(pair[0]) + Ids(pair[1]) ensures id in SeqIds(r) {
        if id in Ids(pair[0]) { assert id in Ids(r[0]); } else { assert id in Ids(r[1]); }
      }
    }
  }

  /** The number of ids between two bounds. */
  lemma {:induction false} IdsCount(r: IngredientIdRange)
    requires WellFormed(r)
    ensures |Ids(r)| == (r.end - r.start) as int + 1
    decreases r.end - r.start
  {
    if r.start == r.end {
      assert Ids(r) == {r.start};
    } else {
      var shorter := IngredientIdRange(r.start, r.end - 1);
      IdsCount(shorter);
      assert Ids(r) == Ids(shorter) + {r.end};
    }
  }

  /** The size of a range fits in a `u64` except for the full range 0..u64::MAX. */
  predicate SizeFits(r: IngredientIdRange) {
    WellFormed(r) && (r.end - r.start) as int < U64_MAX
  }

  /**
   * `size`: the number of ids the range covers. Rust panics on a malformed
   * range (the subtraction underflows) and on the full 64-bit range (the
   * `+ 1` overflows), hence the requires.
   */
  function Size(r: IngredientIdRange): (n: U64)
    requires SizeFits(r)
    ensures n == |Ids(r)|
  {
    IdsCount(r);
    Sub(r.end, r.start) + 1
  }

  /**
   * `FromStr`: the trimmed text is split at its first '-', and each side is
   * parsed as an `IngredientId` (which trims again). Without a '-' the parse
   * fails. Nothing checks that start <= end.
   */
  function ParseIngredientIdRange(s: string): (r: Result<IngredientIdRange>)
    ensures r.Ok? ==> '-' in Trim(s)
    ensures r.Ok? <==> && SplitOnce(Trim(s), '-').Some?
                       && ParseIngredientId(SplitOnce(Trim(s), '-').value.0).Ok?
                       && ParseIngredientId(SplitOnce(Trim(s), '-').value.1).Ok?
    ensures r.Ok? ==> r.value == IngredientIdRange(ParseIngredientId(SplitOnce(Trim(s), '-').value.0).value,
                                                   ParseIngredientId(SplitOnce(Trim(s), '-').value.1).value)
  {
    match SplitOnce(Trim(s), '-')
    case None => Err
    case Some((start, end)) =>
      match (ParseIngredientId(start), ParseIngredientId(end))
      case (Ok(a), Ok(b)) => Ok(IngredientIdRange(a, b))
      case _ => Err
  }

  /** A text whose trimmed form is two id literals around a '-' parses to the range of the two. */
  lemma ParseIngredientIdRangeOf(s: string, x: string, y: string)
    requires Trim(s) == x + ['-'] + y && '-' !in x
    requires ParseIngredientId(x).Ok? && ParseIngredientId(y).Ok?
    ensures ParseIngredientIdRange(s)
      == Ok(IngredientIdRange(ParseIngredientId(x).value, ParseIngredientId(y).value))
  {
    SplitOnceAt(x, '-', y);
  }

  /** A second '-' stays in the upper bound, which then does not parse: `1-2-3` is refused. */
  lemma ParseIngredientIdRangeExtraDash(s: string, x: string, y: string)
    requires Trim(s) == x + ['-'] + y && '-' !in x && '-' in y
    ensures ParseIngredientIdRange(s).Err?
  {
    SplitOnceAt(x, '-', y);
    TrimKeeps(y, '-');
    ParseU64RejectsDash(Trim(y));
  }

  /** Rendering both bounds around a '-' and parsing gives the range back, malformed or not. */
  lemma ParseIngredientIdRangeRoundTrip(r: IngredientIdRange, pre: string, post: string)
    requires AllWhitespace(pre) && AllWhitespace(post)
    ensures ParseIngredientIdRange(pre + DecimalString(r.start as int) + "-" + DecimalString(r.end as int) + post) == Ok(r)
  {
    var a := DecimalString(r.start as int);
    var b := DecimalString(r.end as int);
    var core := a + ['-'] + b;
    assert IsDigit(core[0]) && IsDigit(core[|core| - 1]);
    assert pre + a + "-" + b + post == pre + core + post;
    TrimPadded(pre, core, post);
    assert '-' !in a;
    ParseIngredientIdOfDecimal(r.start);
    ParseIngredientIdOfDecimal(r.end);
    ParseIngredientIdRangeOf(pre + core + post, a, b);
  }

  /** Examples of the unit tests: membership, overlap at an end point, merge and size. */
  lemma RangeExamples()
    ensures IsIngredientFresh(New(45, 55), 45) && !IsIngredientFresh(New(45, 55), 100)
    ensures Overlaps(New(45, 55), New(50, 100)) && Overlaps(New(45, 55), New(55, 100))
    ensures !Overlaps(New(45, 55), New(60, 100))
    ensures Merge(New(45, 55), New(50, 100)) == New(45, 100)
    ensures Size(New(3, 5)) == 3
  {
    IdsCount(New(3, 5));
  }
}

/**
 * Product ids and their ranges. An id is invalid when its decimal
 * rendering is some digit pattern repeated; the naive test looks only for a
 * pattern repeated exactly twice.
 */
module Day2ProductId {
  import opened Wrappers
  import opened Numbers
  import opened Text

  datatype ProductId = ProductId(value: U64)

  /** The id's `to_string`. */
  function IdText(id: ProductId): (s: string)
    ensures |s| >= 1 && AllDigits(s) && DigitsValue(s) == id.value
  {
    DecimalString(id.value)
  }

  /** `naive_is_invalid`: the first half of the rendering equals the second half. */
  function NaiveIsInvalid(id: ProductId): (r: bool)
    ensures r <==> exists h :: IdText(id) == h + h
    ensures r ==> |IdText(id)| % 2 == 0
  {
    var s := IdText(id);
    var half := s[..|s| / 2];
    if half == s[|s| / 2..] then
      assert s == half + half;
      true
    else
      assert forall h :: s == h + h ==> h == half;
      false
  }

  /** `str::repeat`: `n` copies of `pattern`, one after another. */
  function Repeat(pattern: string, n: nat): (r: string)
    ensures |r| == |pattern| * n
  {
    if n == 0 then [] else pattern + Repeat(pattern, n - 1)
  }

  /** The loop condition of `is_invalid`: some prefix of at most half the length, whose length divides it, repeats to the whole. */
  predicate RepeatsPrefix(s: string) {
    exists i :: 1 <= i <= |s| / 2 && |s| % i == 0 && Repeat(s[..i], |s| / i) == s
  }

  /** The intended meaning: the text is some non-empty pattern repeated at least twice. */
  ghost predicate IsRepetition(s: string) {
    exists pattern, n :: |pattern| >= 1 && n >= 2 && Repeat(pattern, n) == s
  }

  /** The id as `is_invalid` judges it. */
  predicate IsInvalidId(id: ProductId) {
    RepeatsPrefix(IdText(id))
  }

  /**
   * `is_invalid`: tries each prefix length from 1 to half the length that
   * divides the length, and answers as soon as the repeated prefix is the
   * whole rendering.
   */
  method IsInvalid(id: ProductId) returns (r: bool)
    ensures r <==> RepeatsPrefix(IdText(id))
    ensures r <==> IsRepetition(IdText(id))
  {
    var s := IdText(id);
    RepeatsPrefixIsRepetition(s);
    for i := 1 to |s| / 2 + 1
      invariant forall j :: 1 <= j < i && |s| % j == 0 ==> Repeat(s[..j], |s| / j) != s
    {
      if |s| % i != 0 {
        continue;
      }
      var pattern := s[..i];
      var times := |s| / |pattern|;
      if Repeat(pattern, times) == s {
        return true;
      }
    }
    return false;
  }

  /** The first copy of a repetition is its pattern. */
  lemma RepeatPrefix(pattern: string, n: nat)
    requires n >= 1
    ensures Repeat(pattern, n)[..|pattern|] == pattern
  {
  }

  lemma CancelLess(a: int, k: int, m: int)
    requires a >= 1 && a * k < a * m
    ensures k < m
  {
  }

  lemma QuotientOfProduct(a: int, b: int)
    requires a >= 1 && b >= 0
    ensures (a * b) / a == b && (a * b) % a == 0
  {
    var q, r := (a * b) / a, (a * b) % a;
    assert a * b == a * q + r && 0 <= r < a;
    assert a * (b - q) == r;
    CancelLess(a, b - q, 1);
    CancelLess(a, 0, b - q + 1);
  }

  lemma HalfBound(len: int, i: int)
    requires 1 <= i <= len / 2 && len % i == 0
    ensures len / i >= 2
  {
    var q := len / i;
    assert len == i * q;
    assert 2 * i <= len;
    CancelLess(i, 1, q);
  }

  /** The loop's test is exactly the intended one: a pattern repeated at least twice. */
  lemma RepeatsPrefixIsRepetition(s: string)
    ensures RepeatsPrefix(s) <==> IsRepetition(s)
  {
    if RepeatsPrefix(s) {
      var i :| 1 <= i <= |s| / 2 && |s| % i == 0 && Repeat(s[..i], |s| / i) == s;
      HalfBound(|s|, i);
    }
    if IsRepetition(s) {
      var pattern, n :| |pattern| >= 1 && n >= 2 && Repeat(pattern, n) == s;
      var i := |pattern|;
      QuotientOfProduct(i, n);
      RepeatPrefix(pattern, n);
      assert i * n >= i * 2;
      assert 1 <= i <= |s| / 2 && |s| % i == 0 && Repeat(s[..i], |s| / i) == s;
    }
  }

  /** An id whose halves are equal is invalid: its half, repeated twice. */
  lemma NaiveIsInvalidImpliesInvalid(id: ProductId)
    requires NaiveIsInvalid(id)
    ensures IsInvalidId(id)
  {
    var s := IdText(id);
    var h :| s == h + h;
    assert Repeat(h, 2) == h + h;
    RepeatsPrefixIsRepetition(s);
  }

  /** A single-digit id is invalid under neither test. */
  lemma SingleDigitIsValid(id: ProductId)
    requires id.value < 10
    ensures !NaiveIsInvalid(id) && !IsInvalidId(id)
  {
    var s := IdText(id);
    assert |s| == 1;
  }

  /** The unit tests of the naive test. */
  lemma NaiveIsInvalidExamples()
    ensures NaiveIsInvalid(ProductId(22))
    ensures NaiveIsInvalid(ProductId(38593859))
    ensures !NaiveIsInvalid(ProductId(38593856))
  {
    DecimalStringSnoc(2, 2);
    assert IdText(ProductId(22)) == "2" + "2";
    Render3859385();
    DecimalStringSnoc(3859385, 9);
    assert IdText(ProductId(38593859)) == "3859" + "3859";
    DecimalStringSnoc(3859385, 6);
    assert IdText(ProductId(38593856)) == "3859" + "3856";
  }

  lemma Render3859385()
    ensures DecimalString(3859385) == "3859385"
  {
    DecimalStringSnoc(3, 8);
    DecimalStringSnoc(38, 5);
    DecimalStringSnoc(385, 9);
    DecimalStringSnoc(3859, 3);
    DecimalStringSnoc(38593, 8);
    DecimalStringSnoc(385938, 5);
  }

  /** The unit test of `is_invalid`: 111 is "1" three times. */
  lemma IsInvalidExample()
    ensures IsInvalidId(ProductId(111))
  {
    DecimalStringSnoc(1, 1);
    DecimalStringSnoc(11, 1);
    assert IdText(ProductId(111)) == "111";
    assert Repeat("1", 3) == "111";
    assert IsRepetition("111");
    RepeatsPrefixIsRepetition("111");
  }

  /** A range of ids, both ends included; nothing checks that `from <= to`. */
  datatype ProductIdRange = ProductIdRange(from: U64, to: U64)

  /**
   * `from_str`: the trimmed text is cut at its first '-' and both sides are
   * parsed as `u64`, without further trimming.
   */
  function ParseProductIdRange(s: string): (r: Result<ProductIdRange>)
    ensures r.Ok? ==> '-' in Trim(s)
    ensures r.Ok? <==> && SplitOnce(Trim(s), '-').Some?
                       && ParseU64(SplitOnce(Trim(s), '-').value.0).Ok?
                       && ParseU64(SplitOnce(Trim(s), '-').value.1).Ok?
    ensures r.Ok? ==> r.value == ProductIdRange(ParseU64(SplitOnce(Trim(s), '-').value.0).value,
                                                ParseU64(SplitOnce(Trim(s), '-').value.1).value)
  {
    match SplitOnce(Trim(s), '-')
    case None => Err
    case Some((from, to)) =>
      match (ParseU64(from), ParseU64(to))
      case (Ok(a), Ok(b)) => Ok(ProductIdRange(a, b))
      case _ => Err
  }

  /** A text whose trimmed form is two `u64` literals around a '-' parses to the range of the two. */
  lemma ParseProductIdRangeOf(s: string, x: string, y: string)
    requires Trim(s) == x + ['-'] + y && '-' !in x
    requires ParseU64(x).Ok? && ParseU64(y).Ok?
    ensures ParseProductIdRange(s) == Ok(ProductIdRange(ParseU64(x).value, ParseU64(y).value))
  {
    SplitOnceAt(x, '-', y);
  }

  /** A second '-' stays in the upper bound, which then does not parse: `1-2-3` is refused. */
  lemma ParseProductIdRangeExtraDash(s: string, x: string, y: string)
    requires Trim(s) == x + ['-'] + y && '-' !in x && '-' in y
    ensures ParseProductIdRange(s).Err?
  {
    SplitOnceAt(x, '-', y);
    ParseU64RejectsDash(y);
  }

  /** Rendering both ends around a '-', with any whitespace around, and parsing gives the range back. */
  lemma ParseProductIdRangeRoundTrip(range: ProductIdRange, pre: string, post: string)
    requires AllWhitespace(pre) && AllWhitespace(post)
    ensures ParseProductIdRange(pre + DecimalString(range.from) + "-" + DecimalString(range.to) + post) == Ok(range)
  {
    var a := DecimalString(range.from);
    var b := DecimalString(range.to);
    var core := a + ['-'] + b;
    assert IsDigit(core[0]) && IsDigit(core[|core| - 1]);
    assert pre + a + "-" + b + post == pre + core + post;
    TrimPadded(pre, core, post);
    assert '-' !in a;
    SplitOnceAt(a, '-', b);
    ParseU64RoundTrip(range.from);
    ParseU64RoundTrip(range.to);
  }

  /** The unit test of range parsing. */
  lemma ParseProductIdRangeExample()
    ensures ParseProductIdRange("1188511880-1188511890") == Ok(ProductIdRange(1188511880, 1188511890))
  {
    Render118851188();
    DecimalStringSnoc(118851188, 0);
    DecimalStringSnoc(118851189, 0);
    DecimalStringSnoc(11885118, 9);
    assert "1188511880-1188511890" == [] + DecimalString(1188511880) + "-" + DecimalString(1188511890) + [];
    ParseProductIdRangeRoundTrip(ProductIdRange(1188511880, 1188511890), [], []);
  }

  lemma Render118851188()
    ensures DecimalString(118851188) == "118851188"
  {
    DecimalStringSnoc(1, 1);
    DecimalStringSnoc(11, 8);
    DecimalStringSnoc(118, 8);
    DecimalStringSnoc(1188, 5);
    DecimalStringSnoc(11885, 1);
    DecimalStringSnoc(118851, 1);
    DecimalStringSnoc(1188511, 8);
    DecimalStringSnoc(11885118, 8);
  }

  /** The ids of a range, from `from` up to `to`; none when `from > to`. */
  function RangeIds(first: int, last: int): (ids: seq<ProductId>)
    requires 0 <= first && last < U64_LIMIT
    ensures |ids| == (if first > last then 0 else last - first + 1)
    ensures forall i :: 0 <= i < |ids| ==> ids[i].value == first + i
    decreases last + 1 - first
  {
    if first > last then [] else [ProductId(first)] + RangeIds(first + 1, last)
  }

  /** Each id of the range occurs in it exactly once. */
  lemma RangeIdsCount(first: int, last: int, id: ProductId)
    requires 0 <= first && last < U64_LIMIT
    ensures multiset(RangeIds(first, last))[id] == (if first <= id.value <= last then 1 else 0)
    decreases last + 1 - first
  {
    if first <= last {
      RangeIdsCount(first + 1, last, id);
    }
  }

  /** The unit test of the iterator: 12-15 gives 12, 13, 14 and 15. */
  lemma RangeIdsExample()
    ensures RangeIds(12, 15) == [ProductId(12), ProductId(13), ProductId(14), ProductId(15)]
  {
  }

  /** `ProductIdIterator`: the next id to hand out and the last one. */
  class ProductIdIterator {
    var current: U64
    const to: U64

    /** `into_iter` on a range. */
    constructor(range: ProductIdRange)
      ensures current == range.from && to == range.to
    {
      current := range.from;
      to := range.to;
    }

    /** The ids still to come. */
    function Remaining(): (ids: seq<ProductId>)
      reads this
    {
      RangeIds(current, to)
    }

    /**
     * `next`: nothing once `current` is past `to`, otherwise `current`,
     * which then moves up by one. Adding one to `u64::MAX` would panic.
     */
    method Next() returns (r: Option<ProductId>)
      requires current <= to ==> current < U64_MAX
      modifies this
      ensures old(current) > to ==> r == None && current == old(current)
      ensures old(current) <= to ==> r == Some(ProductId(old(current))) && current == old(current) + 1
      ensures old(Remaining()) == (if r.Some? then [r.value] else []) + Remaining()
    {
      if current > to {
        return None;
      }
      var next := current;
      current := current + 1;
      return Some(ProductId(next));
    }
  }

  /** Collecting a range's iterator: every id from `from` to `to`, in order. */
  method CollectRange(range: ProductIdRange) returns (ids: seq<ProductId>)
    requires range.to < U64_MAX
    ensures ids == RangeIds(range.from, range.to)
  {
    var it := new ProductIdIterator(range);
    ids := [];
    while true
      invariant it.to == range.to && (it.current <= range.to + 1 || it.current == range.from)
      invariant ids + it.Remaining() == RangeIds(range.from, range.to)
      decreases range.to + 1 - it.current
    {
      var next := it.Next();
      match next
      case None =>
        assert it.Remaining() == [];
        return;
      case Some(id) =>
        ids := ids + [id];
    }
  }
}

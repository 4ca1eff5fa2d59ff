/**
 * Day 5: an ingredient id, Rust's `IngredientId(u64)`. As a newtype over the
 * 64-bit range, its equality and ordering are exactly those of the wrapped
 * integer, as the derived `PartialEq`/`Ord` make them.
 */
module Day5IngredientId {
  import opened Wrappers
  import opened Numbers
  import opened Text

  newtype IngredientId = x: int | 0 <= x < 0x1_0000_0000_0000_0000

  /** `From<u64>`: wraps the integer unchanged. */
  function FromU64(id: U64): (r: IngredientId)
    ensures r as int == id
  {
    id as IngredientId
  }

  /** `Sub`: the `u64` difference; Rust panics when it would go below zero, hence the requires. */
  function Sub(a: IngredientId, b: IngredientId): (d: U64)
    requires b <= a
    ensures d + b as int == a as int
  {
    (a - b) as int
  }

  /** `FromStr`: surrounding whitespace is trimmed, the rest must be a `u64` literal. */
  function ParseIngredientId(s: string): (r: Result<IngredientId>)
    ensures r.Ok? <==> ParseU64(Trim(s)).Ok?
    ensures r.Ok? ==> r.value as int == ParseU64(Trim(s)).value
  {
    match ParseU64(Trim(s))
    case Ok(v) => Ok(FromU64(v))
    case Err => Err
  }

  /** Whitespace around the decimal rendering of an id is ignored: parsing gives the id back. */
  lemma ParseIngredientIdRoundTrip(id: IngredientId, pre: string, post: string)
    requires AllWhitespace(pre) && AllWhitespace(post)
    ensures ParseIngredientId(pre + DecimalString(id as int) + post) == Ok(id)
  {
    var d := DecimalString(id as int);
    assert !IsWhitespace(d[0]) && !IsWhitespace(d[|d| - 1]) by {
      assert IsDigit(d[0]) && IsDigit(d[|d| - 1]);
    }
    TrimPadded(pre, d, post);
    ParseU64RoundTrip(id as int);
  }

  /** The decimal rendering of an id parses back to the id. */
  lemma ParseIngredientIdOfDecimal(id: IngredientId)
    ensures ParseIngredientId(DecimalString(id as int)) == Ok(id)
  {
    var d := DecimalString(id as int);
    assert [] + d + [] == d;
    ParseIngredientIdRoundTrip(id, [], []);
  }
}

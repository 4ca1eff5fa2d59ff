/**
 * The day 2 database: a comma-separated list of id ranges, and the
 * invalid ids found in them.
 */
module Day2Database {
  import opened Wrappers
  import opened Numbers
  import opened Text
  import opened Day2ProductId

  datatype Database = Database(productIdRanges: seq<ProductIdRange>)

  /** `from_str`: the text split at every ',', each piece a range. */
  function ParseDatabase(s: string): (r: Result<Database>)
    ensures r.Ok? ==> |r.value.productIdRanges| == |Split(s, ',')|
    ensures r.Ok? ==> forall i :: 0 <= i < |Split(s, ',')| ==> ParseProductIdRange(Split(s, ',')[i]) == Ok(r.value.productIdRanges[i])
    ensures r.Err? ==> exists i :: 0 <= i < |Split(s, ',')| && ParseProductIdRange(Split(s, ',')[i]).Err?
  {
    var pieces := Split(s, ',');
    match ParseEach(pieces, ParseProductIdRange)
    case Ok(ranges) => Ok(Database(ranges))
    case Err => Err
  }

  /** Strictly increasing ids. */
  predicate Ascending(ids: seq<ProductId>) {
    forall i, j :: 0 <= i < j < |ids| ==> ids[i].value < ids[j].value
  }

  /** The ids of `ids` that pass `test`, in order. */
  function Filter(ids: seq<ProductId>, test: ProductId -> bool): (r: seq<ProductId>)
    ensures forall id :: multiset(r)[id] == if test(id) then multiset(ids)[id] else 0
  {
    if |ids| == 0 then []
    else
      assert ids == ids[..|ids| - 1] + [ids[|ids| - 1]];
      var rest := Filter(ids[..|ids| - 1], test);
      if test(ids[|ids| - 1]) then rest + [ids[|ids| - 1]] else rest
  }

  /** Filtering keeps ascending ids ascending. */
  lemma {:induction false} FilterAscending(ids: seq<ProductId>, test: ProductId -> bool)
    requires Ascending(ids)
    ensures Ascending(Filter(ids, test))
  {
    if |ids| > 0 {
      var prefix, x := ids[..|ids| - 1], ids[|ids| - 1];
      var rest := Filter(prefix, test);
      FilterAscending(prefix, test);
      if test(x) {
        FilterBelow(prefix, test, x.value);
        var r := rest + [x];
        forall i, j | 0 <= i < j < |r|
          ensures r[i].value < r[j].value
        {
          if j < |rest| {
            assert r[i] == rest[i] && r[j] == rest[j];
          } else {
            assert r[i] == rest[i];
          }
        }
      }
    }
  }

  /** Filtering ids all below a bound leaves ids below it. */
  lemma {:induction false} FilterBelow(ids: seq<ProductId>, test: ProductId -> bool, bound: int)
    requires forall i :: 0 <= i < |ids| ==> ids[i].value < bound
    ensures forall i :: 0 <= i < |Filter(ids, test)| ==> Filter(ids, test)[i].value < bound
  {
    if |ids| > 0 {
      var prefix := ids[..|ids| - 1];
      FilterBelow(prefix, test, bound);
      var rest := Filter(prefix, test);
      assert forall i :: 0 <= i < |rest| ==> (rest + [ids[|ids| - 1]])[i] == rest[i];
    }
  }

  /** The number of ranges that hold `id`. */
  function RangesHolding(ranges: seq<ProductIdRange>, id: ProductId): (n: nat)
    ensures n <= |ranges|
  {
    if |ranges| == 0 then 0
    else
      var last := ranges[|ranges| - 1];
      RangesHolding(ranges[..|ranges| - 1], id) + (if last.from <= id.value <= last.to then 1 else 0)
  }

  /**
   * Every range can be walked to its end: the iterator adds one after
   * yielding `to`, so `to` must stay below `u64::MAX`, where that `u64`
   * addition would overflow.
   */
  predicate Drainable(ranges: seq<ProductIdRange>) {
    forall i :: 0 <= i < |ranges| ==> ranges[i].to < U64_MAX
  }

  /**
   * The ids of every range that pass `test`, range after range and
   * ascending within each. An id held by several ranges occurs once for
   * each of them.
   */
  function FindMatching(ranges: seq<ProductIdRange>, test: ProductId -> bool): (ids: seq<ProductId>)
    requires Drainable(ranges)
    ensures forall id :: multiset(ids)[id] == if test(id) then RangesHolding(ranges, id) else 0
  {
    if |ranges| == 0 then []
    else
      var last := ranges[|ranges| - 1];
      assert Drainable(ranges[..|ranges| - 1]);
      var found := Filter(RangeIds(last.from, last.to), test);
      forall id
        ensures multiset(found)[id] == if test(id) && last.from <= id.value <= last.to then 1 else 0
      {
        RangeIdsCount(last.from, last.to, id);
      }
      FindMatching(ranges[..|ranges| - 1], test) + found
  }

  /** Within one range the ids found are ascending. */
  lemma FindMatchingOneRange(range: ProductIdRange, test: ProductId -> bool)
    requires range.to < U64_MAX
    ensures Ascending(FindMatching([range], test))
  {
    assert [range][..0] == [];
    FilterAscending(RangeIds(range.from, range.to), test);
  }

  /** `find_naive_invalid_product_ids`. */
  function FindNaiveInvalidProductIds(db: Database): (ids: seq<ProductId>)
    requires Drainable(db.productIdRanges)
    ensures forall id :: multiset(ids)[id] == if NaiveIsInvalid(id) then RangesHolding(db.productIdRanges, id) else 0
  {
    FindMatching(db.productIdRanges, NaiveIsInvalid)
  }

  /** `find_invalid_product_id`. */
  function FindInvalidProductIds(db: Database): (ids: seq<ProductId>)
    requires Drainable(db.productIdRanges)
    ensures forall id :: multiset(ids)[id] == if IsInvalidId(id) then RangesHolding(db.productIdRanges, id) else 0
  {
    FindMatching(db.productIdRanges, IsInvalidId)
  }

  /** Every naively invalid id found is also found by the full test, as often. */
  lemma NaiveFindingsAreFindings(db: Database, id: ProductId)
    requires Drainable(db.productIdRanges)
    ensures multiset(FindNaiveInvalidProductIds(db))[id] <= multiset(FindInvalidProductIds(db))[id]
  {
    if NaiveIsInvalid(id) {
      NaiveIsInvalidImpliesInvalid(id);
    }
  }
}

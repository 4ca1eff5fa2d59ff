/**
 * Day 5: the freshness database. The ranges of fresh ingredient ids are
 * reduced, round after round, to a set of pairwise non-overlapping ranges
 * covering the same ids; the database then answers membership and counts.
 */
module Day5Database {
  import opened Wrappers
  import opened Numbers
  import opened Text
  import opened Sequences
  import opened Day5IngredientId
  import opened Day5IngredientIdRange

  /** Some other range of the set overlaps `a`. */
  predicate OverlapsAnother(ranges: set<IngredientIdRange>, a: IngredientIdRange) {
    exists b :: b in ranges && b != a && Overlaps(a, b)
  }

  /** Two distinct ranges of the set overlap: what `found_any_overlap` records for a round. */
  predicate AnyOverlap(ranges: set<IngredientIdRange>) {
    exists a :: a in ranges && OverlapsAnother(ranges, a)
  }

  /** The merges of `a` with every range of `others` (other than `a`) that it overlaps. */
  function MergesOf(a: IngredientIdRange, others: set<IngredientIdRange>): set<IngredientIdRange> {
    set b | b in others && b != a && Overlaps(a, b) :: Merge(a, b)
  }

  /**
   * What one round inserts into `new` once the outer loop has visited the
   * ranges of `visited`: every merge of a visited range with another range
   * it overlaps, and every visited range that overlaps none.
   */
  function RoundOf(ranges: set<IngredientIdRange>, visited: set<IngredientIdRange>): set<IngredientIdRange> {
    (set a, b | a in visited && b in ranges && a != b && Overlaps(a, b) :: Merge(a, b))
    + (set a | a in visited && !OverlapsAnother(ranges, a))
  }

  /** One full round of `reduce_fresh_ingredient_ranges`. */
  function Round(ranges: set<IngredientIdRange>): set<IngredientIdRange> {
    RoundOf(ranges, ranges)
  }

  // ---------------------------------------------------------------------
  // Termination. The number of ranges may grow in a round, but every range
  // of the next round encloses a range of this one and reuses its end
  // points, so the end-point pairs that enclose some well-formed range can
  // only disappear; when they do not, a malformed range disappears.

  /** The start and end values occurring in a set of ranges. */
  ghost function Endpoints(ranges: set<IngredientIdRange>): set<IngredientId> {
    (set r | r in ranges :: r.start) + (set r | r in ranges :: r.end)
  }

  predicate Encloses(outer: IngredientIdRange, inner: IngredientIdRange) {
    outer.start <= inner.start && inner.end <= outer.end
  }

  predicate EnclosesWellFormed(ranges: set<IngredientIdRange>, outer: IngredientIdRange) {
    exists r :: r in ranges && WellFormed(r) && Encloses(outer, r)
  }

  /** The ranges with bounds among the end points that enclose a well-formed range of the set. */
  ghost function Above(ranges: set<IngredientIdRange>): set<IngredientIdRange> {
    set s, e | s in Endpoints(ranges) && e in Endpoints(ranges)
               && EnclosesWellFormed(ranges, IngredientIdRange(s, e)) :: IngredientIdRange(s, e)
  }

  ghost function Malformed(ranges: set<IngredientIdRange>): set<IngredientIdRange> {
    set r | r in ranges && !WellFormed(r)
  }

  /** Every range of a round is an untouched range or the merge of two overlapping ones. */
  lemma RoundMember(ranges: set<IngredientIdRange>, x: IngredientIdRange)
    requires x in Round(ranges)
    ensures (x in ranges && !OverlapsAnother(ranges, x))
            || exists a, b :: a in ranges && b in ranges && a != b && Overlaps(a, b) && x == Merge(a, b)
  {
  }

  lemma EndpointsShrink(ranges: set<IngredientIdRange>)
    ensures Endpoints(Round(ranges)) <= Endpoints(ranges)
  {
    forall v | v in Endpoints(Round(ranges)) ensures v in Endpoints(ranges) {
      var x :| x in Round(ranges) && (v == x.start || v == x.end);
      RoundMember(ranges, x);
    }
  }

  lemma AboveShrinks(ranges: set<IngredientIdRange>)
    ensures Above(Round(ranges)) <= Above(ranges)
  {
    EndpointsShrink(ranges);
    forall p | p in Above(Round(ranges)) ensures p in Above(ranges) {
      var x :| x in Round(ranges) && WellFormed(x) && Encloses(p, x);
      RoundMember(ranges, x);
      if x in ranges && !OverlapsAnother(ranges, x) {
        assert EnclosesWellFormed(ranges, p);
      } else {
        var a, b :| a in ranges && b in ranges && a != b && Overlaps(a, b) && x == Merge(a, b);
        if WellFormed(a) {
          assert Encloses(p, a);
        } else {
          MergeCoversUnion(a, b);
          assert Encloses(p, b);
        }
        assert EnclosesWellFormed(ranges, p);
      }
    }
  }

  lemma MalformedShrinks(ranges: set<IngredientIdRange>)
    ensures Malformed(Round(ranges)) <= Malformed(ranges)
  {
    forall x | x in Malformed(Round(ranges)) ensures x in Malformed(ranges) {
      RoundMember(ranges, x);
    }
  }

  /** A well-formed range of the set encloses a well-formed range that encloses no other. */
  lemma {:induction false} MinimalBelow(ranges: set<IngredientIdRange>, a: IngredientIdRange)
    returns (m: IngredientIdRange)
    requires a in ranges && WellFormed(a)
    ensures m in ranges && WellFormed(m) && Encloses(a, m)
    ensures forall x :: x in ranges && WellFormed(x) && Encloses(m, x) ==> x == m
    decreases (a.end - a.start) as int
  {
    if forall x :: x in ranges && WellFormed(x) && Encloses(a, x) ==> x == a {
      m := a;
    } else {
      var x :| x in ranges && WellFormed(x) && Encloses(a, x) && x != a;
      m := MinimalBelow(ranges, x);
    }
  }

  /** When a malformed range overlaps another, it is gone from the next round. */
  lemma MalformedRangeAbsorbed(ranges: set<IngredientIdRange>, x: IngredientIdRange)
    requires x in ranges && !WellFormed(x) && OverlapsAnother(ranges, x)
    ensures x in Malformed(ranges) - Malformed(Round(ranges))
  {
    if x in Round(ranges) {
      RoundMember(ranges, x);
    }
  }

  /**
   * When no malformed range overlaps another, a minimal well-formed range
   * that overlaps another encloses no range of the next round.
   */
  lemma MinimalRangeLeavesAbove(ranges: set<IngredientIdRange>, a: IngredientIdRange)
    returns (m: IngredientIdRange)
    requires a in ranges && OverlapsAnother(ranges, a)
    requires forall x :: x in ranges && OverlapsAnother(ranges, x) ==> WellFormed(x)
    ensures m in Above(ranges) && m !in Above(Round(ranges))
  {
    m := MinimalBelow(ranges, a);
    assert OverlapsAnother(ranges, m) by {
      if m != a {
        assert Overlaps(m, a);
      }
    }
    WellFormedIsAbove(ranges, m);
    if m in Above(Round(ranges)) {
      var y :| y in Round(ranges) && WellFormed(y) && Encloses(m, y);
      NothingOfRoundBelow(ranges, m, y);
    }
  }

  lemma WellFormedIsAbove(ranges: set<IngredientIdRange>, m: IngredientIdRange)
    requires m in ranges && WellFormed(m)
    ensures m in Above(ranges)
  {
    assert m.start in Endpoints(ranges) && m.end in Endpoints(ranges);
    assert EnclosesWellFormed(ranges, IngredientIdRange(m.start, m.end));
  }

  lemma NothingOfRoundBelow(ranges: set<IngredientIdRange>, m: IngredientIdRange, y: IngredientIdRange)
    requires m in ranges && OverlapsAnother(ranges, m)
    requires forall x :: x in ranges && WellFormed(x) && Encloses(m, x) ==> x == m
    requires forall x :: x in ranges && OverlapsAnother(ranges, x) ==> WellFormed(x)
    requires y in Round(ranges) && WellFormed(y)
    ensures !Encloses(m, y)
  {
    RoundMember(ranges, y);
  }

  /** A round that found an overlap brings the termination measure down. */
  lemma RoundDecreases(ranges: set<IngredientIdRange>)
    requires AnyOverlap(ranges)
    ensures Above(Round(ranges)) < Above(ranges)
            || (Above(Round(ranges)) == Above(ranges) && Malformed(Round(ranges)) < Malformed(ranges))
  {
    AboveShrinks(ranges);
    MalformedShrinks(ranges);
    if exists x :: x in ranges && !WellFormed(x) && OverlapsAnother(ranges, x) {
      var x :| x in ranges && !WellFormed(x) && OverlapsAnother(ranges, x);
      MalformedRangeAbsorbed(ranges, x);
    } else {
      var a :| a in ranges && OverlapsAnother(ranges, a);
      var m := MinimalRangeLeavesAbove(ranges, a);
    }
  }

  // ---------------------------------------------------------------------
  // The reduction.

  /**
   * `reduce_fresh_ingredient_ranges`: repeat rounds until a round finds no
   * overlap, and return what that last round built.
   */
  function Reduce(ranges: set<IngredientIdRange>): set<IngredientIdRange>
    decreases Above(ranges), Malformed(ranges)
  {
    var next := Round(ranges);
    if !AnyOverlap(ranges) then next
    else
      RoundDecreases(ranges);
      Reduce(next)
  }

  /** A round without overlap carries every range forward unchanged. */
  lemma RoundWithoutOverlap(ranges: set<IngredientIdRange>)
    requires !AnyOverlap(ranges)
    ensures Round(ranges) == ranges
  {
    forall x | x in ranges ensures x in Round(ranges) {
      assert !OverlapsAnother(ranges, x);
    }
  }

  /** The reduced set has no two distinct ranges that overlap, touching ends included. */
  lemma {:induction false} ReduceNoOverlap(ranges: set<IngredientIdRange>)
    ensures !AnyOverlap(Reduce(ranges))
    decreases Above(ranges), Malformed(ranges)
  {
    if !AnyOverlap(ranges) {
      RoundWithoutOverlap(ranges);
    } else {
      RoundDecreases(ranges);
      ReduceNoOverlap(Round(ranges));
    }
  }

  /** A set that is already free of overlaps is returned unchanged. */
  lemma ReduceOfReduced(ranges: set<IngredientIdRange>)
    requires !AnyOverlap(ranges)
    ensures Reduce(ranges) == ranges
  {
    RoundWithoutOverlap(ranges);
  }

  /** Reducing twice is reducing once. */
  lemma ReduceIdempotent(ranges: set<IngredientIdRange>)
    ensures Reduce(Reduce(ranges)) == Reduce(ranges)
  {
    ReduceNoOverlap(ranges);
    ReduceOfReduced(Reduce(ranges));
  }

  /** The ids covered by some range of the set. */
  ghost function Covered(ranges: set<IngredientIdRange>): set<IngredientId> {
    set r, id | r in ranges && id in Ids(r) :: id
  }

  /** A round neither loses nor adds an id. */
  lemma RoundCoverage(ranges: set<IngredientIdRange>)
    ensures Covered(Round(ranges)) == Covered(ranges)
  {
    var next := Round(ranges);
    forall id | id in Covered(next) ensures id in Covered(ranges) {
      var x :| x in next && id in Ids(x);
      RoundMember(ranges, x);
      if !(x in ranges && !OverlapsAnother(ranges, x)) {
        var a, b :| a in ranges && b in ranges && a != b && Overlaps(a, b) && x == Merge(a, b);
        MergeCoversUnion(a, b);
      }
    }
    forall id | id in Covered(ranges) ensures id in Covered(next) {
      var a :| a in ranges && id in Ids(a);
      if OverlapsAnother(ranges, a) {
        var b :| b in ranges && b != a && Overlaps(a, b);
        MergeCoversUnion(a, b);
        assert Merge(a, b) in next;
      } else {
        assert a in next;
      }
    }
  }

  /** Reduction preserves the set of covered ids. */
  lemma {:induction false} ReduceCoverage(ranges: set<IngredientIdRange>)
    ensures Covered(Reduce(ranges)) == Covered(ranges)
    decreases Above(ranges), Malformed(ranges)
  {
    RoundCoverage(ranges);
    if AnyOverlap(ranges) {
      RoundDecreases(ranges);
      ReduceCoverage(Round(ranges));
    }
  }

  predicate AllWellFormed(ranges: set<IngredientIdRange>) {
    forall r :: r in ranges ==> WellFormed(r)
  }

  /** Reducing well-formed ranges gives well-formed ranges. */
  lemma {:induction false} ReduceWellFormed(ranges: set<IngredientIdRange>)
    requires AllWellFormed(ranges)
    ensures AllWellFormed(Reduce(ranges))
    decreases Above(ranges), Malformed(ranges)
  {
    forall x | x in Round(ranges) ensures WellFormed(x) {
      RoundMember(ranges, x);
      if !(x in ranges && !OverlapsAnother(ranges, x)) {
        var a, b :| a in ranges && b in ranges && a != b && Overlaps(a, b) && x == Merge(a, b);
        MergeCoversUnion(a, b);
      }
    }
    if AnyOverlap(ranges) {
      RoundDecreases(ranges);
      ReduceWellFormed(Round(ranges));
    }
  }

  // ---------------------------------------------------------------------
  // The reduction as the source runs it: two nested loops over the set
  // fill `new`, with a flag per range and one per round, then recurse.

  /** Visiting one more range `a` adds its merges, or `a` itself when it overlaps nothing. */
  lemma RoundOfVisit(ranges: set<IngredientIdRange>, visited: set<IngredientIdRange>, a: IngredientIdRange)
    ensures RoundOf(ranges, visited + {a})
            == RoundOf(ranges, visited) + MergesOf(a, ranges)
               + (if OverlapsAnother(ranges, a) then {} else {a})
  {
    var lhs := RoundOf(ranges, visited + {a});
    var rhs := RoundOf(ranges, visited) + MergesOf(a, ranges)
               + (if OverlapsAnother(ranges, a) then {} else {a});
    forall x | x in lhs ensures x in rhs {
      if x !in RoundOf(ranges, visited) {
        if x != a || OverlapsAnother(ranges, a) {
          var c, d :| c in visited + {a} && d in ranges && c != d && Overlaps(c, d) && x == Merge(c, d);
          assert c == a;
        }
      }
    }
  }

  /** Looking at one more partner `b` for `a` adds their merge when they overlap. */
  lemma MergesOfVisit(a: IngredientIdRange, others: set<IngredientIdRange>, b: IngredientIdRange)
    ensures MergesOf(a, others + {b})
            == MergesOf(a, others) + (if b != a && Overlaps(a, b) then {Merge(a, b)} else {})
  {
  }

  /**
   * `reduce_fresh_ingredient_ranges` as written: for each range `a`, scan
   * every other range `b`, insert `merge(a, b)` for each overlap, insert `a`
   * itself when none was found, and recurse unless no round found an overlap.
   */
  method ReduceFreshIngredientRanges(ingredientIds: set<IngredientIdRange>)
    returns (reduced: set<IngredientIdRange>)
    ensures reduced == Reduce(ingredientIds)
    ensures !AnyOverlap(reduced)
    ensures Covered(reduced) == Covered(ingredientIds)
    decreases Above(ingredientIds), Malformed(ingredientIds)
  {
    var next: set<IngredientIdRange> := {};
    var foundAnyOverlap := false;
    var outer := ingredientIds;
    while outer != {}
      invariant outer <= ingredientIds
      invariant next == RoundOf(ingredientIds, ingredientIds - outer)
      invariant foundAnyOverlap <==> exists x :: x in ingredientIds - outer && OverlapsAnother(ingredientIds, x)
      decreases outer
    {
      var rangeA :| rangeA in outer;
      var foundOverlap := false;
      var inner := ingredientIds;
      while inner != {}
        invariant inner <= ingredientIds
        invariant next == RoundOf(ingredientIds, ingredientIds - outer) + MergesOf(rangeA, ingredientIds - inner)
        invariant foundOverlap <==> exists b :: b in ingredientIds - inner && b != rangeA && Overlaps(rangeA, b)
        decreases inner
      {
        var rangeB :| rangeB in inner;
        MergesOfVisit(rangeA, ingredientIds - inner, rangeB);
        assert ingredientIds - (inner - {rangeB}) == (ingredientIds - inner) + {rangeB};
        if rangeA != rangeB && Overlaps(rangeA, rangeB) {
          next := next + {Merge(rangeA, rangeB)};
          foundOverlap := true;
        }
        inner := inner - {rangeB};
      }
      assert ingredientIds - inner == ingredientIds;
      assert foundOverlap <==> OverlapsAnother(ingredientIds, rangeA);
      RoundOfVisit(ingredientIds, ingredientIds - outer, rangeA);
      assert ingredientIds - (outer - {rangeA}) == (ingredientIds - outer) + {rangeA};
      if !foundOverlap {
        next := next + {rangeA};
      } else {
        foundAnyOverlap := true;
      }
      outer := outer - {rangeA};
    }
    assert ingredientIds - outer == ingredientIds;
    ReduceNoOverlap(ingredientIds);
    ReduceCoverage(ingredientIds);
    if !foundAnyOverlap {
      return next;
    }
    RoundDecreases(ingredientIds);
    reduced := ReduceFreshIngredientRanges(next);
  }

  // ---------------------------------------------------------------------
  // The database.

  /** `Database`: the reduced fresh ranges and the listed ingredient ids, in input order. */
  datatype Database = Database(freshIngredients: set<IngredientIdRange>, ingredients: seq<IngredientId>)

  /** Some range of the set holds the id. */
  predicate IsFresh(ranges: set<IngredientIdRange>, id: IngredientId) {
    exists r :: r in ranges && IsIngredientFresh(r, id)
  }

  lemma IsFreshIffCovered(ranges: set<IngredientIdRange>, id: IngredientId)
    ensures IsFresh(ranges, id) <==> id in Covered(ranges)
  {
    if id in Covered(ranges) {
      var r :| r in ranges && id in Ids(r);
      IsIngredientFreshIffCovered(r, id);
    }
    if IsFresh(ranges, id) {
      var r :| r in ranges && IsIngredientFresh(r, id);
      IsIngredientFreshIffCovered(r, id);
    }
  }

  /**
   * `Database::new`: the ranges are collected into a set (duplicates
   * collapse) and reduced. A reduced database answers every membership
   * question as a scan of the original ranges would.
   */
  method NewDatabase(freshIngredients: seq<IngredientIdRange>, ingredients: seq<IngredientId>)
    returns (db: Database)
    ensures db.freshIngredients == Reduce(set r | r in freshIngredients)
    ensures db.ingredients == ingredients
    ensures !AnyOverlap(db.freshIngredients)
    ensures forall id :: IsFresh(db.freshIngredients, id) <==> exists i :: 0 <= i < |freshIngredients| && IsIngredientFresh(freshIngredients[i], id)
  {
    var set_ := set r | r in freshIngredients;
    var reduced := ReduceFreshIngredientRanges(set_);
    db := Database(reduced, ingredients);
    forall id ensures IsFresh(reduced, id) <==> exists i :: 0 <= i < |freshIngredients| && IsIngredientFresh(freshIngredients[i], id) {
      IsFreshIffCovered(reduced, id);
      IsFreshIffCovered(set_, id);
      if IsFresh(set_, id) {
        var r :| r in set_ && IsIngredientFresh(r, id);
        var i :| 0 <= i < |freshIngredients| && freshIngredients[i] == r;
      }
    }
  }

  /** The ids of `ids` that some range holds, in their order, repeats kept. */
  function FilterFresh(ranges: set<IngredientIdRange>, ids: seq<IngredientId>): (r: seq<IngredientId>)
    ensures IsSubsequence(r, ids)
    ensures forall i :: 0 <= i < |r| ==> IsFresh(ranges, r[i])
  {
    if |ids| == 0 then []
    else
      var init := ids[..|ids| - 1];
      var last := ids[|ids| - 1];
      var kept := FilterFresh(ranges, init);
      assert ids == init + [last];
      if IsFresh(ranges, last) then
        SubsequenceAppendBoth(kept, init, last);
        kept + [last]
      else
        SubsequenceExtend(kept, init, last);
        kept
  }

  /** A fresh id is kept as often as it is listed; any other id is dropped. */
  lemma {:induction false} FilterFreshCount(ranges: set<IngredientIdRange>, ids: seq<IngredientId>, id: IngredientId)
    ensures multiset(FilterFresh(ranges, ids))[id] == if IsFresh(ranges, id) then multiset(ids)[id] else 0
  {
    if |ids| > 0 {
      var init := ids[..|ids| - 1];
      var last := ids[|ids| - 1];
      assert ids == init + [last];
      FilterFreshCount(ranges, init, id);
    }
  }

  /**
   * `find_fresh_ingredients`: the listed ids that fall in some fresh range,
   * in input order, each as often as it is listed.
   */
  function FindFreshIngredients(db: Database): (found: seq<IngredientId>)
    ensures IsSubsequence(found, db.ingredients)
    ensures forall id :: id in found <==> id in db.ingredients && IsFresh(db.freshIngredients, id)
    ensures forall id :: multiset(found)[id] == if IsFresh(db.freshIngredients, id) then multiset(db.ingredients)[id] else 0
  {
    var r := FilterFresh(db.freshIngredients, db.ingredients);
    forall id
      ensures multiset(r)[id] == if IsFresh(db.freshIngredients, id) then multiset(db.ingredients)[id] else 0
    {
      FilterFreshCount(db.freshIngredients, db.ingredients, id);
    }
    assert forall id :: id in r <==> id in db.ingredients && IsFresh(db.freshIngredients, id) by {
      forall id ensures id in r <==> id in db.ingredients && IsFresh(db.freshIngredients, id) {
        assert id in r <==> multiset(r)[id] > 0;
        assert id in db.ingredients <==> multiset(db.ingredients)[id] > 0;
      }
    }
    r
  }

  /** The sum of the sizes of a set of ranges, in no particular order. */
  ghost function SumSizes(ranges: set<IngredientIdRange>): nat
    requires forall r :: r in ranges ==> SizeFits(r)
  {
    if ranges == {} then 0
    else
      var r :| r in ranges;
      Size(r) + SumSizes(ranges - {r})
  }

  /** The sum does not depend on which range is taken first. */
  lemma {:induction false} SumSizesRemove(ranges: set<IngredientIdRange>, y: IngredientIdRange)
    requires forall r :: r in ranges ==> SizeFits(r)
    requires y in ranges
    ensures SumSizes(ranges) == Size(y) + SumSizes(ranges - {y})
    decreases |ranges|
  {
    var x :| x in ranges && SumSizes(ranges) == Size(x) + SumSizes(ranges - {x});
    if x != y {
      SumSizesRemove(ranges - {x}, y);
      SumSizesRemove(ranges - {y}, x);
      assert ranges - {x} - {y} == ranges - {y} - {x};
    }
  }

  /**
   * On ranges of which no two overlap, the sum of sizes is the number of
   * covered ids; overlapping ranges would count shared ids twice.
   */
  lemma {:induction false} SumSizesOfDisjoint(ranges: set<IngredientIdRange>)
    requires forall r :: r in ranges ==> SizeFits(r)
    requires !AnyOverlap(ranges)
    ensures SumSizes(ranges) == |Covered(ranges)|
    decreases |ranges|
  {
    if ranges != {} {
      var y :| y in ranges;
      var rest := ranges - {y};
      SumSizesRemove(ranges, y);
      assert !AnyOverlap(rest);
      SumSizesOfDisjoint(rest);
      assert Covered(ranges) == Covered(rest) + Ids(y);
      assert Covered(rest) * Ids(y) == {} by {
        forall id | id in Covered(rest) ensures id !in Ids(y) {
          var r :| r in rest && id in Ids(r);
          assert !Overlaps(y, r) by {
            assert !OverlapsAnother(ranges, y);
          }
          OverlapsMeansSharedId(r, y);
        }
      }
    }
  }

  /** A subset of the ranges has no larger total size. */
  lemma {:induction false} SumSizesSubset(small: set<IngredientIdRange>, big: set<IngredientIdRange>)
    requires small <= big
    requires forall r :: r in big ==> SizeFits(r)
    ensures SumSizes(small) <= SumSizes(big)
    decreases big
  {
    if big - small == {} {
      forall x | x in big
        ensures x in small
      {
        assert x !in big - small;
      }
      assert small == big;
    } else {
      var y :| y in big - small;
      SumSizesRemove(big, y);
      SumSizesSubset(small, big - {y});
    }
  }

  /**
   * `n_fresh_ingredients_in_index`: the sum of the sizes of the fresh ranges.
   * `size` panics on a malformed or full-width range, and the `u64` sum
   * panics once a partial sum passes `u64::MAX`; sizes are never negative,
   * so that happens in any order exactly when the total does, hence the
   * requires. On a reduced database this is the number of distinct fresh ids.
   */
  method NFreshIngredientsInIndex(db: Database) returns (n: U64)
    requires forall r :: r in db.freshIngredients ==> SizeFits(r)
    requires SumSizes(db.freshIngredients) <= U64_MAX
    ensures n == SumSizes(db.freshIngredients)
    ensures !AnyOverlap(db.freshIngredients) ==> n == |Covered(db.freshIngredients)|
  {
    n := 0;
    var rest := db.freshIngredients;
    while rest != {}
      invariant rest <= db.freshIngredients
      invariant n == SumSizes(db.freshIngredients - rest)
      decreases rest
    {
      var r :| r in rest;
      var done := db.freshIngredients - rest;
      SumSizesRemove(done + {r}, r);
      assert done + {r} - {r} == done;
      assert db.freshIngredients - (rest - {r}) == done + {r};
      SumSizesSubset(done + {r}, db.freshIngredients);
      n := n + Size(r);
      rest := rest - {r};
    }
    assert db.freshIngredients - rest == db.freshIngredients;
    if !AnyOverlap(db.freshIngredients) {
      SumSizesOfDisjoint(db.freshIngredients);
    }
  }

  // ---------------------------------------------------------------------
  // Parsing.

  /** `line.trim().is_empty()`: a line the parser skips. */
  predicate IsBlank(line: string) {
    |Trim(line)| == 0
  }

  /** The ranges and the ids collected so far, each in input order. */
  type Entries = (seq<IngredientIdRange>, seq<IngredientId>)

  /**
   * One line of the parse: a blank line is skipped, a line holding a '-' is
   * a range, any other line an id; a line that fails to parse fails the text.
   */
  function ParseLine(acc: Entries, line: string): Result<Entries> {
    if IsBlank(line) then Ok(acc)
    else if '-' in line then
      match ParseIngredientIdRange(line)
      case Ok(r) => Ok((acc.0 + [r], acc.1))
      case Err => Err
    else
      match ParseIngredientId(line)
      case Ok(id) => Ok((acc.0, acc.1 + [id]))
      case Err => Err
  }

  function AndThen(prefix: Result<Entries>, line: string): Result<Entries> {
    match prefix
    case Err => Err
    case Ok(acc) => ParseLine(acc, line)
  }

  /** The ranges and ids the parser collects from `lines`, in order. */
  function ParseEntries(lines: seq<string>): Result<Entries> {
    if |lines| == 0 then Ok(([], []))
    else AndThen(ParseEntries(lines[..|lines| - 1]), lines[|lines| - 1])
  }

  lemma ParseEntriesSnoc(lines: seq<string>, line: string)
    ensures ParseEntries(lines + [line]) == AndThen(ParseEntries(lines), line)
  {
    assert (lines + [line])[..|lines|] == lines;
  }

  /** Once a prefix of the lines fails, the whole text fails. */
  lemma {:induction false} ParseEntriesErrPrefix(lines: seq<string>, i: nat)
    requires i <= |lines| && ParseEntries(lines[..i]).Err?
    ensures ParseEntries(lines).Err?
    decreases |lines| - i
  {
    if i < |lines| {
      assert lines[..i + 1] == lines[..i] + [lines[i]];
      ParseEntriesSnoc(lines[..i], lines[i]);
      ParseEntriesErrPrefix(lines, i + 1);
    } else {
      assert lines[..i] == lines;
    }
  }

  /** A blank line anywhere changes nothing. */
  lemma {:induction false} BlankLineIgnored(before: seq<string>, blank: string, after: seq<string>)
    requires IsBlank(blank)
    ensures ParseEntries(before + [blank] + after) == ParseEntries(before + after)
    decreases |after|
  {
    if |after| == 0 {
      assert before + [blank] + after == before + [blank];
      assert before + after == before;
      ParseEntriesSnoc(before, blank);
    } else {
      var init, last := after[..|after| - 1], after[|after| - 1];
      var withBlank, without := before + [blank] + init, before + init;
      calc {
        ParseEntries(before + [blank] + after);
        { assert before + [blank] + after == withBlank + [last]; }
        ParseEntries(withBlank + [last]);
        { ParseEntriesSnoc(withBlank, last); }
        AndThen(ParseEntries(withBlank), last);
        { BlankLineIgnored(before, blank, init); }
        AndThen(ParseEntries(without), last);
        { ParseEntriesSnoc(without, last); }
        ParseEntries(without + [last]);
        { assert before + after == without + [last]; }
        ParseEntries(before + after);
      }
    }
  }

  /**
   * `FromStr for Database`: every line of the text is read in turn; the
   * collected ranges and ids make the database.
   */
  method ParseDatabase(s: string) returns (r: Result<Database>)
    ensures r.Err? <==> ParseEntries(Lines(s)).Err?
    ensures r.Ok? ==> r.value.freshIngredients == Reduce(set x | x in ParseEntries(Lines(s)).value.0)
                      && r.value.ingredients == ParseEntries(Lines(s)).value.1
  {
    var lines := Lines(s);
    var ingredients: seq<IngredientId> := [];
    var freshIngredients: seq<IngredientIdRange> := [];
    var i := 0;
    while i < |lines|
      invariant 0 <= i <= |lines|
      invariant ParseEntries(lines[..i]) == Ok((freshIngredients, ingredients))
    {
      var line := lines[i];
      assert lines[..i + 1] == lines[..i] + [line];
      ParseEntriesSnoc(lines[..i], line);
      if IsBlank(line) {
        i := i + 1;
        continue;
      }
      if '-' in line {
        var range := ParseIngredientIdRange(line);
        if range.Err? {
          ParseEntriesErrPrefix(lines, i + 1);
          return Err;
        }
        freshIngredients := freshIngredients + [range.value];
      } else {
        var id := ParseIngredientId(line);
        if id.Err? {
          ParseEntriesErrPrefix(lines, i + 1);
          return Err;
        }
        ingredients := ingredients + [id.value];
      }
      i := i + 1;
    }
    assert lines[..i] == lines;
    var db := NewDatabase(freshIngredients, ingredients);
    return Ok(db);
  }

  /** The text line of a range, after some indentation. */
  function RangeLine(r: IngredientIdRange, indent: string): string {
    indent + DecimalString(r.start as int) + "-" + DecimalString(r.end as int)
  }

  /** The text line of an id, after some indentation. */
  function IdLine(id: IngredientId, indent: string): string {
    indent + DecimalString(id as int)
  }

  function RangeLines(ranges: seq<IngredientIdRange>, indent: string): (lines: seq<string>)
    ensures |lines| == |ranges|
  {
    if |ranges| == 0 then []
    else RangeLines(ranges[..|ranges| - 1], indent) + [RangeLine(ranges[|ranges| - 1], indent)]
  }

  function IdLines(ids: seq<IngredientId>, indent: string): (lines: seq<string>)
    ensures |lines| == |ids|
  {
    if |ids| == 0 then []
    else IdLines(ids[..|ids| - 1], indent) + [IdLine(ids[|ids| - 1], indent)]
  }

  /** An indented range line is not blank and holds a '-'. */
  lemma RangeLineShape(r: IngredientIdRange, indent: string)
    requires AllWhitespace(indent)
    ensures !IsBlank(RangeLine(r, indent)) && '-' in RangeLine(r, indent)
  {
    var a := DecimalString(r.start as int);
    var b := DecimalString(r.end as int);
    var core := a + "-" + b;
    assert RangeLine(r, indent) == indent + core + [];
    assert core[|a|] == '-';
    assert IsDigit(core[0]) && IsDigit(core[|core| - 1]);
    TrimPadded(indent, core, []);
  }

  /** A line that is not blank, holds a '-' and parses as a range adds that range. */
  lemma ParseLineRange(acc: Entries, line: string, r: IngredientIdRange)
    requires !IsBlank(line) && '-' in line && ParseIngredientIdRange(line) == Ok(r)
    ensures ParseLine(acc, line) == Ok((acc.0 + [r], acc.1))
  {
  }

  /** A line that is not blank, holds no '-' and parses as an id adds that id. */
  lemma ParseLineId(acc: Entries, line: string, id: IngredientId)
    requires !IsBlank(line) && '-' !in line && ParseIngredientId(line) == Ok(id)
    ensures ParseLine(acc, line) == Ok((acc.0, acc.1 + [id]))
  {
  }

  /** An indented range line adds its range. */
  lemma ParseRangeLine(acc: Entries, r: IngredientIdRange, indent: string)
    requires AllWhitespace(indent)
    ensures ParseLine(acc, RangeLine(r, indent)) == Ok((acc.0 + [r], acc.1))
  {
    RangeLineShape(r, indent);
    assert RangeLine(r, indent) + [] == RangeLine(r, indent);
    ParseIngredientIdRangeRoundTrip(r, indent, []);
    ParseLineRange(acc, RangeLine(r, indent), r);
  }

  /** An indented id line is not blank and holds no '-'. */
  lemma IdLineShape(id: IngredientId, indent: string)
    requires AllWhitespace(indent)
    ensures !IsBlank(IdLine(id, indent)) && '-' !in IdLine(id, indent)
  {
    var d := DecimalString(id as int);
    assert IdLine(id, indent) == indent + d + [];
    assert IsDigit(d[0]) && IsDigit(d[|d| - 1]);
    TrimPadded(indent, d, []);
    NoDashInPadded(indent, d);
  }

  /** Whitespace followed by digits holds no '-'. */
  lemma NoDashInPadded(indent: string, d: string)
    requires AllWhitespace(indent) && AllDigits(d)
    ensures '-' !in indent + d
  {
    var line := indent + d;
    forall i | 0 <= i < |line|
      ensures line[i] != '-'
    {
      if i < |indent| {
        assert line[i] == indent[i] && IsWhitespace(indent[i]);
      } else {
        assert line[i] == d[i - |indent|] && IsDigit(d[i - |indent|]);
      }
    }
  }

  /** An indented id line adds its id. */
  lemma ParseIdLine(acc: Entries, id: IngredientId, indent: string)
    requires AllWhitespace(indent)
    ensures ParseLine(acc, IdLine(id, indent)) == Ok((acc.0, acc.1 + [id]))
  {
    IdLineShape(id, indent);
    assert IdLine(id, indent) + [] == IdLine(id, indent);
    ParseIngredientIdRoundTrip(id, indent, []);
    ParseLineId(acc, IdLine(id, indent), id);
  }

  /** Parsing one more line extends what the lines before it gave. */
  lemma ParseEntriesStep(lines: seq<string>, line: string, acc: Entries, next: Entries)
    requires ParseEntries(lines) == Ok(acc) && ParseLine(acc, line) == Ok(next)
    ensures ParseEntries(lines + [line]) == Ok(next)
  {
    ParseEntriesSnoc(lines, line);
  }

  lemma {:induction false} ParseRangeLines(ranges: seq<IngredientIdRange>, indent: string)
    requires AllWhitespace(indent)
    ensures ParseEntries(RangeLines(ranges, indent)) == Ok((ranges, []))
  {
    if |ranges| > 0 {
      var init := ranges[..|ranges| - 1];
      var r := ranges[|ranges| - 1];
      assert init + [r] == ranges;
      ParseRangeLines(init, indent);
      ParseRangeLine((init, []), r, indent);
      ParseEntriesStep(RangeLines(init, indent), RangeLine(r, indent), (init, []), (ranges, []));
    }
  }

  lemma {:induction false} ParseIdLines(before: seq<string>, ranges: seq<IngredientIdRange>, ids: seq<IngredientId>, indent: string)
    requires AllWhitespace(indent)
    requires ParseEntries(before) == Ok((ranges, []))
    ensures ParseEntries(before + IdLines(ids, indent)) == Ok((ranges, ids))
  {
    if |ids| == 0 {
      assert before + IdLines(ids, indent) == before;
    } else {
      var init := ids[..|ids| - 1];
      var id := ids[|ids| - 1];
      assert init + [id] == ids;
      assert before + IdLines(ids, indent) == (before + IdLines(init, indent)) + [IdLine(id, indent)];
      ParseIdLines(before, ranges, init, indent);
      ParseIdLine((ranges, init), id, indent);
      ParseEntriesStep(before + IdLines(init, indent), IdLine(id, indent), (ranges, init), (ranges, ids));
    }
  }

  /**
   * The layout of the input: range lines, a blank separator, then id lines,
   * each possibly indented. Parsing it gives back the ranges and the ids.
   */
  lemma ParseLayoutRoundTrip(ranges: seq<IngredientIdRange>, ids: seq<IngredientId>, indent: string, blank: string)
    requires AllWhitespace(indent) && IsBlank(blank)
    ensures ParseEntries(RangeLines(ranges, indent) + [blank] + IdLines(ids, indent)) == Ok((ranges, ids))
  {
    ParseRangeLines(ranges, indent);
    BlankLineIgnored(RangeLines(ranges, indent), blank, IdLines(ids, indent));
    ParseIdLines(RangeLines(ranges, indent), ranges, ids, indent);
  }

  /** First round of the unit test: 10-14 and 16-20 each merge with 12-18. */
  lemma FirstRoundExample()
    ensures Round({New(3, 5), New(10, 14), New(16, 20), New(12, 18)}) == {New(3, 5), New(10, 18), New(12, 20)}
  {
    var s0 := {New(3, 5), New(10, 14), New(16, 20), New(12, 18)};
    assert !OverlapsAnother(s0, New(3, 5));
    assert New(10, 18) == Merge(New(10, 14), New(12, 18));
    assert New(12, 20) == Merge(New(16, 20), New(12, 18));
  }

  /** Second round of the unit test: 10-18 and 12-20 merge into 10-20. */
  lemma SecondRoundExample()
    ensures Round({New(3, 5), New(10, 18), New(12, 20)}) == {New(3, 5), New(10, 20)}
  {
    var s1 := {New(3, 5), New(10, 18), New(12, 20)};
    assert !OverlapsAnother(s1, New(3, 5));
    assert New(10, 20) == Merge(New(10, 18), New(12, 20));
  }

  /** While ranges overlap, reducing them is reducing what one round builds. */
  lemma ReduceOverlapping(ranges: set<IngredientIdRange>, a: IngredientIdRange)
    requires a in ranges && OverlapsAnother(ranges, a)
    ensures Reduce(ranges) == Reduce(Round(ranges))
  {
  }

  /** The unit test of `reduce_fresh_ingredient_ranges`: two rounds merge 10-14, 12-18 and 16-20. */
  lemma ReduceExample()
    ensures Reduce({New(3, 5), New(10, 14), New(16, 20), New(12, 18)}) == {New(3, 5), New(10, 20)}
  {
    var s0 := {New(3, 5), New(10, 14), New(16, 20), New(12, 18)};
    var s1 := {New(3, 5), New(10, 18), New(12, 20)};
    var s2 := {New(3, 5), New(10, 20)};
    FirstRoundExample();
    SecondRoundExample();
    assert New(12, 18) in s0 && Overlaps(New(10, 14), New(12, 18));
    ReduceOverlapping(s0, New(10, 14));
    assert New(12, 20) in s1 && Overlaps(New(10, 18), New(12, 20));
    ReduceOverlapping(s1, New(10, 18));
    SeparateRangesReduced();
  }

  /** 3-5 and 10-20 do not overlap, so they are already reduced. */
  lemma SeparateRangesReduced()
    ensures Reduce({New(3, 5), New(10, 20)}) == {New(3, 5), New(10, 20)}
  {
    assert !AnyOverlap({New(3, 5), New(10, 20)});
    ReduceOfReduced({New(3, 5), New(10, 20)});
  }

  /** 1-2 and 3-4 are adjacent but do not overlap, so reducing keeps both. */
  lemma AdjacentRangesKept()
    ensures Reduce({New(1, 2), New(3, 4)}) == {New(1, 2), New(3, 4)}
  {
    assert !AnyOverlap({New(1, 2), New(3, 4)});
    ReduceOfReduced({New(1, 2), New(3, 4)});
  }

  /**
   * The layout padded as a Rust raw string usually is: a blank first line,
   * and a last line holding only the indentation.
   */
  lemma PaddedLayoutRoundTrip(ranges: seq<IngredientIdRange>, ids: seq<IngredientId>, indent: string)
    requires AllWhitespace(indent)
    ensures ParseEntries([""] + RangeLines(ranges, indent) + [""] + IdLines(ids, indent) + [indent]) == Ok((ranges, ids))
  {
    var mid := RangeLines(ranges, indent) + [""] + IdLines(ids, indent);
    var padded := [""] + RangeLines(ranges, indent) + [""] + IdLines(ids, indent) + [indent];
    assert padded == [] + [""] + (mid + [indent]) by {
      assert padded == [""] + (mid + [indent]);
    }
    assert Trim("") == "";
    assert Trim(indent) == [];
    BlankLineIgnored([], "", mid + [indent]);
    assert [] + (mid + [indent]) == mid + [indent] + [];
    BlankLineIgnored(mid, indent, []);
    assert mid + [] == mid;
    ParseLayoutRoundTrip(ranges, ids, indent, "");
  }

  /** The indentation of the parsing unit test's lines. */
  const Pad: string := "        "

  /** The lines of the parsing unit test's text. */
  const ExampleLineList: seq<string> := ["", Pad + "1-2", Pad + "3-4", "", Pad + "1", Pad + "2", Pad + "3", Pad]

  /** The text of the parsing unit test. */
  const ExampleText: string := Join(ExampleLineList, '\n')

  /** The lines of the parsing unit test, written as the padded layout. */
  lemma ExampleLayout()
    ensures ExampleLineList == [""] + RangeLines([New(1, 2), New(3, 4)], Pad) + [""] + IdLines([1, 2, 3], Pad) + [Pad]
  {
    assert DecimalString(1) == "1" && DecimalString(2) == "2";
    assert DecimalString(3) == "3" && DecimalString(4) == "4";
    assert [New(1, 2), New(3, 4)][..1] == [New(1, 2)];
    assert RangeLine(New(1, 2), Pad) == Pad + "1-2" && RangeLine(New(3, 4), Pad) == Pad + "3-4";
    assert RangeLines([New(1, 2), New(3, 4)], Pad) == [Pad + "1-2", Pad + "3-4"];
    assert [1, 2, 3][..2] == [1, 2] && [1, 2][..1] == [1];
    assert IdLines([1, 2, 3], Pad) == [Pad + "1", Pad + "2", Pad + "3"];
  }

  /** Splitting the text of the parsing unit test gives back its lines. */
  lemma ExampleLines()
    ensures Lines(ExampleText) == ExampleLineList
  {
    var ls := ExampleLineList;
    forall i | 0 <= i < |ls|
      ensures PlainLine(ls[i])
    {
      assert forall k :: 0 <= k < |Pad| ==> Pad[k] == ' ';
    }
    LinesJoin(ls);
  }

  /** The unit test of parsing: the two ranges and the three ids, in order. */
  lemma ExampleEntries()
    ensures ParseEntries(Lines(ExampleText)) == Ok(([New(1, 2), New(3, 4)], [1, 2, 3]))
  {
    ExampleLines();
    ExampleLayout();
    assert AllWhitespace(Pad);
    PaddedLayoutRoundTrip([New(1, 2), New(3, 4)], [1, 2, 3], Pad);
  }

  /** The unit test of parsing, end to end: ranges 1-2 and 3-4, and ids 1, 2 and 3. */
  method ParseExample() returns (r: Result<Database>)
    ensures r == Ok(Database({New(1, 2), New(3, 4)}, [1, 2, 3]))
  {
    ExampleEntries();
    assert (set x | x in [New(1, 2), New(3, 4)]) == {New(1, 2), New(3, 4)};
    AdjacentRangesKept();
    r := ParseDatabase(ExampleText);
  }
}

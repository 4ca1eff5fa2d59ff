/**
 * A homework problem: a list of `i32` terms combined by one operation,
 * addition or multiplication.
 */
module Day6Problem {
  import opened Numbers

  datatype Operation = Add | Multiply

  datatype Problem = Problem(terms: seq<I32>, operation: Operation)

  /** `Problem::new`. */
  function NewProblem(terms: seq<I32>, operation: Operation): (p: Problem)
    ensures p.terms == terms && p.operation == operation
  {
    Problem(terms, operation)
  }

  /** The neutral element the fold starts from. */
  function InitialValue(operation: Operation): int {
    match operation
    case Add => 0
    case Multiply => 1
  }

  function Apply(operation: Operation, acc: int, term: int): int {
    match operation
    case Add => acc + term
    case Multiply => acc * term
  }

  /** The fold over the terms, first term first. */
  function Fold(operation: Operation, acc: int, terms: seq<I32>): int
    decreases |terms|
  {
    if |terms| == 0 then acc else Fold(operation, Apply(operation, acc, terms[0]), terms[1..])
  }

  /** Every partial result of the fold stays within `i32` (Rust panics on overflow). */
  predicate FoldFits(operation: Operation, acc: int, terms: seq<I32>)
    decreases |terms|
  {
    |terms| == 0 ||
    (I32_MIN <= Apply(operation, acc, terms[0]) <= I32_MAX &&
     FoldFits(operation, Apply(operation, acc, terms[0]), terms[1..]))
  }

  /** The reference sum of the terms. */
  function Sum(terms: seq<I32>): int {
    if |terms| == 0 then 0 else Sum(terms[..|terms| - 1]) + terms[|terms| - 1]
  }

  /** The reference product of the terms. */
  function Product(terms: seq<I32>): int {
    if |terms| == 0 then 1 else Product(terms[..|terms| - 1]) * terms[|terms| - 1]
  }

  /** A fold whose partial results fit ends within `i32`. */
  lemma {:induction false} FoldFitsBound(operation: Operation, acc: I32, terms: seq<I32>)
    requires FoldFits(operation, acc, terms)
    ensures I32_MIN <= Fold(operation, acc, terms) <= I32_MAX
    decreases |terms|
  {
    if |terms| > 0 {
      FoldFitsBound(operation, Apply(operation, acc, terms[0]), terms[1..]);
    }
  }

  /** `result`: the terms folded with the operation from its neutral element. */
  function Result(p: Problem): (r: I32)
    requires FoldFits(p.operation, InitialValue(p.operation), p.terms)
    ensures p.operation == Add ==> r == Sum(p.terms)
    ensures p.operation == Multiply ==> r == Product(p.terms)
    ensures |p.terms| == 0 ==> r == InitialValue(p.operation)
  {
    FoldFitsBound(p.operation, InitialValue(p.operation), p.terms);
    FoldSum(0, p.terms);
    FoldProduct(1, p.terms);
    Fold(p.operation, InitialValue(p.operation), p.terms)
  }

  lemma {:induction false} SumCons(t: I32, terms: seq<I32>)
    ensures Sum([t] + terms) == t + Sum(terms)
    decreases |terms|
  {
    if |terms| > 0 {
      var prefix := terms[..|terms| - 1];
      SumCons(t, prefix);
      assert ([t] + terms)[..|terms|] == [t] + prefix;
    } else {
      assert [t] + terms == [t];
    }
  }

  lemma {:induction false} ProductCons(t: I32, terms: seq<I32>)
    ensures Product([t] + terms) == t * Product(terms)
    decreases |terms|
  {
    if |terms| > 0 {
      var prefix, last := terms[..|terms| - 1], terms[|terms| - 1];
      ProductCons(t, prefix);
      assert ([t] + terms)[..|terms|] == [t] + prefix;
      assert Product([t] + terms) == (t * Product(prefix)) * last;
    } else {
      assert [t] + terms == [t];
    }
  }

  /** Folding additions onto `acc` adds the sum of the terms. */
  lemma {:induction false} FoldSum(acc: int, terms: seq<I32>)
    ensures Fold(Add, acc, terms) == acc + Sum(terms)
    decreases |terms|
  {
    if |terms| > 0 {
      FoldSum(acc + terms[0], terms[1..]);
      SumCons(terms[0], terms[1..]);
      assert [terms[0]] + terms[1..] == terms;
    }
  }

  /** Folding multiplications onto `acc` multiplies it by the product of the terms. */
  lemma {:induction false} FoldProduct(acc: int, terms: seq<I32>)
    ensures Fold(Multiply, acc, terms) == acc * Product(terms)
    decreases |terms|
  {
    if |terms| > 0 {
      FoldProduct(acc * terms[0], terms[1..]);
      ProductCons(terms[0], terms[1..]);
      assert [terms[0]] + terms[1..] == terms;
      assert (acc * terms[0]) * Product(terms[1..]) == acc * (terms[0] * Product(terms[1..]));
    }
  }

  /** A sum of non-negative terms fits when the total does: every partial sum lies between 0 and it. */
  lemma {:induction false} NonNegativeSumFits(acc: int, terms: seq<I32>)
    requires 0 <= acc && forall i :: 0 <= i < |terms| ==> terms[i] >= 0
    requires acc + Sum(terms) <= I32_MAX
    ensures FoldFits(Add, acc, terms)
    decreases |terms|
  {
    if |terms| > 0 {
      SumCons(terms[0], terms[1..]);
      assert [terms[0]] + terms[1..] == terms;
      SumNonNegative(terms[1..]);
      NonNegativeSumFits(acc + terms[0], terms[1..]);
    }
  }

  lemma {:induction false} SumNonNegative(terms: seq<I32>)
    requires forall i :: 0 <= i < |terms| ==> terms[i] >= 0
    ensures Sum(terms) >= 0
  {
    if |terms| > 0 {
      SumNonNegative(terms[..|terms| - 1]);
    }
  }

  /** The unit test: 123 * 45 * 6 is 33210. */
  lemma ResultExample()
    ensures FoldFits(Multiply, 1, [123, 45, 6])
    ensures Result(NewProblem([123, 45, 6], Multiply)) == 33210
  {
    var terms: seq<I32> := [123, 45, 6];
    assert terms[1..] == [45, 6] && terms[1..][1..] == [6];
    assert Fold(Multiply, 1, terms) == Fold(Multiply, 123, [45, 6]) == Fold(Multiply, 5535, [6]) == 33210;
  }

  /** Empty terms give the neutral element: 0 for addition, 1 for multiplication. */
  lemma EmptyResult()
    ensures Result(NewProblem([], Add)) == 0
    ensures Result(NewProblem([], Multiply)) == 1
  {
  }
}

/**
 * Day 3: a bank of batteries, one decimal digit each. Part 1 looks for the
 * largest two-digit joltage whose tens digit occurs before its units digit,
 * through an index from each digit to its positions; part 2 keeps twelve
 * digits with the monotonic stack and reads them as one number.
 */
module Day3Bank {
  import opened Wrappers
  import opened Numbers
  import opened Sequences
  import opened Day3MonotonicStack

  /** The characters '0' to '9'. */
  const DigitChars: set<char> := set c | '0' <= c <= '9'

  lemma DigitCharsAreDigits(c: char)
    ensures c in DigitChars <==> IsDigit(c)
  {
  }

  /** The positions of `c` in `s`, ascending: the order in which `generate_index` finds them. */
  function Occurrences(s: seq<char>, c: char): seq<nat> {
    if |s| == 0 then []
    else
      var init := Occurrences(s[..|s| - 1], c);
      if s[|s| - 1] == c then init + [|s| - 1] else init
  }

  lemma OccurrencesSnoc(s: seq<char>, x: char, c: char)
    ensures Occurrences(s + [x], c) == if x == c then Occurrences(s, c) + [|s|] else Occurrences(s, c)
  {
    assert (s + [x])[..|s|] == s;
  }

  predicate Ascending(ps: seq<nat>) {
    forall j, k :: 0 <= j < k < |ps| ==> ps[j] < ps[k]
  }

  /** Every element of `ps` is a position of `c` in `s`. */
  predicate OnlyPositionsOf(ps: seq<nat>, s: seq<char>, c: char) {
    forall j :: 0 <= j < |ps| ==> ps[j] < |s| && s[ps[j]] == c
  }

  /** Every position of `c` in `s` is an element of `ps`. */
  predicate AllPositionsOf(ps: seq<nat>, s: seq<char>, c: char) {
    forall i :: 0 <= i < |s| && s[i] == c ==> i in ps
  }

  /** The occurrences are exactly the positions of `c`, each once, in ascending order. */
  lemma {:induction false} OccurrencesSpec(s: seq<char>, c: char)
    ensures OnlyPositionsOf(Occurrences(s, c), s, c)
    ensures AllPositionsOf(Occurrences(s, c), s, c)
    ensures Ascending(Occurrences(s, c))
  {
    if |s| > 0 {
      var init := s[..|s| - 1];
      OccurrencesSpec(init, c);
      assert s == init + [s[|s| - 1]];
      OccurrencesSnoc(init, s[|s| - 1], c);
      var ps := Occurrences(s, c);
      assert forall j :: 0 <= j < |Occurrences(init, c)| ==> ps[j] == Occurrences(init, c)[j];
    }
  }

  function Reverse<T>(s: seq<T>): (r: seq<T>)
    ensures |r| == |s| && forall i :: 0 <= i < |s| ==> r[i] == s[|s| - 1 - i]
  {
    seq(|s|, i requires 0 <= i < |s| => s[|s| - 1 - i])
  }

  /** The positions of `c` in `s`, descending: what the index holds for `c`. */
  function Positions(s: seq<char>, c: char): seq<nat> {
    Reverse(Occurrences(s, c))
  }

  /** The index list of a digit holds exactly its positions, each once, largest first. */
  lemma PositionsSpec(s: seq<char>, c: char)
    ensures OnlyPositionsOf(Positions(s, c), s, c)
    ensures AllPositionsOf(Positions(s, c), s, c)
    ensures forall j, k :: 0 <= j < k < |Positions(s, c)| ==> Positions(s, c)[j] > Positions(s, c)[k]
  {
    var asc := Occurrences(s, c);
    var r := Positions(s, c);
    OccurrencesSpec(s, c);
    forall i | 0 <= i < |s| && s[i] == c ensures i in r {
      var j :| 0 <= j < |asc| && asc[j] == i;
      assert r[|asc| - 1 - j] == i;
    }
  }

  /** The index of a bank: every digit character, mapped to its positions, descending. */
  function IndexOf(batteries: seq<char>): map<char, seq<nat>> {
    map c | c in DigitChars :: Positions(batteries, c)
  }

  /**
   * `generate_index`: a list for every digit, then each position appended
   * to the list of its digit, then every list sorted and reversed. The
   * lists are built in ascending order, so the sort leaves them as they are.
   * A non-digit character has no list and makes the source panic.
   */
  method GenerateIndex(battery: seq<char>) returns (index: map<char, seq<nat>>)
    requires AllDigits(battery)
    ensures index == IndexOf(battery)
  {
    index := map[];
    for d := 0 to 10
      invariant index == map c | c in DigitChars && (c as int) < '0' as int + d :: []
    {
      index := index[DigitChar(d) := []];
    }
    for i := 0 to |battery|
      invariant index.Keys == DigitChars
      invariant forall c :: c in DigitChars ==> index[c] == Occurrences(battery[..i], c)
    {
      var c := battery[i];
      assert c in DigitChars;
      OccurrencesStep(battery, i);
      index := index[c := index[c] + [i]];
    }
    assert battery[..|battery|] == battery;
    for d := 0 to 10
      invariant index.Keys == DigitChars
      invariant forall c :: c in DigitChars && (c as int) < '0' as int + d ==> index[c] == Positions(battery, c)
      invariant forall c :: c in DigitChars && (c as int) >= '0' as int + d ==> index[c] == Occurrences(battery, c)
    {
      var list := index[DigitChar(d)];
      OccurrencesAscending(battery, DigitChar(d));  // `sort` leaves the list unchanged
      index := index[DigitChar(d) := Reverse(list)];
    }
    assert index.Keys == IndexOf(battery).Keys;
  }

  lemma OccurrencesAscending(s: seq<char>, c: char)
    ensures Ascending(Occurrences(s, c))
  {
    OccurrencesSpec(s, c);
  }

  /** Position i joins the occurrences of its own character only. */
  lemma OccurrencesStep(s: seq<char>, i: nat)
    requires i < |s|
    ensures forall c :: Occurrences(s[..i + 1], c) == if c == s[i] then Occurrences(s[..i], c) + [i] else Occurrences(s[..i], c)
  {
    assert s[..i + 1] == s[..i] + [s[i]];
    forall c {
      OccurrencesSnoc(s[..i], s[i], c);
    }
  }

  /** A bank: its digits and their index. The unused copy of the input text is left out. */
  datatype Bank = Bank(batteries: seq<char>, index: map<char, seq<nat>>)

  predicate ValidBank(bank: Bank) {
    AllDigits(bank.batteries) && bank.index == IndexOf(bank.batteries)
  }

  /** `Bank::new`, and `from_str`, which hands it the characters of the text. */
  method NewBank(batteries: seq<char>) returns (bank: Bank)
    requires AllDigits(batteries)
    ensures ValidBank(bank) && bank.batteries == batteries
  {
    var index := GenerateIndex(batteries);
    bank := Bank(batteries, index);
  }

  /** Some element of `second` exceeds `a`. */
  function AnyAbove(a: nat, second: seq<nat>): (r: bool)
    ensures r <==> exists j :: 0 <= j < |second| && a < second[j]
  {
    if |second| == 0 then false
    else a < second[0] || AnyAbove(a, second[1..])
  }

  /** `joltage_exists`: some position in `first` comes before some position in `second`. */
  function JoltageExists(first: seq<nat>, second: seq<nat>): (r: bool)
    ensures r <==> exists i, j :: 0 <= i < |first| && 0 <= j < |second| && first[i] < second[j]
  {
    if |first| == 0 then false
    else if AnyAbove(first[0], second) then true
    else
      assert forall i :: 0 < i < |first| ==> first[i] == first[1..][i - 1];
      JoltageExists(first[1..], second)
  }

  /** `find_digits`: the first two characters, when there are two. */
  function FindDigits(s: string): (r: Option<(char, char)>)
    ensures r.Some? <==> |s| >= 2
  {
    if |s| >= 2 then Some((s[0], s[1])) else None
  }

  /** The two digits of a two-digit number, as its decimal rendering spells them. */
  lemma FindDigitsOfTwoDigits(j: I32)
    requires 10 <= j <= 99
    ensures FindDigits(I32ToString(j)) == Some((DigitChar(j / 10), DigitChar(j % 10)))
  {
    assert DecimalString(j / 10) == [DigitChar(j / 10)];
  }

  /** Digit `tens` occurs somewhere before digit `units` in the bank: the joltage `tens units` is on offer. */
  predicate HasJoltage(batteries: seq<char>, j: int)
    requires 10 <= j <= 99
  {
    exists a, b :: 0 <= a < b < |batteries| && batteries[a] == DigitChar(j / 10) && batteries[b] == DigitChar(j % 10)
  }

  /** `where_joltage_exists`: both digits of the joltage have positions, some in the right order. */
  function WhereJoltageExists(bank: Bank, joltage: I32): bool {
    match FindDigits(I32ToString(joltage))
    case None => false
    case Some((first, second)) =>
      first in bank.index && second in bank.index && JoltageExists(bank.index[first], bank.index[second])
  }

  /** The list of a digit in a valid bank's index. */
  lemma IndexLookup(bank: Bank, c: char)
    requires ValidBank(bank) && IsDigit(c)
    ensures c in bank.index && bank.index[c] == Positions(bank.batteries, c)
  {
  }

  /** On a valid bank and a two-digit joltage, the index answers exactly `HasJoltage`. */
  lemma WhereJoltageExistsIff(bank: Bank, j: I32)
    requires ValidBank(bank) && 10 <= j <= 99
    ensures WhereJoltageExists(bank, j) <==> HasJoltage(bank.batteries, j)
  {
    FindDigitsOfTwoDigits(j);
    var s := bank.batteries;
    var t, u := DigitChar(j / 10), DigitChar(j % 10);
    IndexLookup(bank, t);
    IndexLookup(bank, u);
    var first, second := Positions(s, t), Positions(s, u);
    PositionsSpec(s, t);
    PositionsSpec(s, u);
    assert WhereJoltageExists(bank, j) == JoltageExists(first, second);
    if HasJoltage(s, j) {
      var a, b :| 0 <= a < b < |s| && s[a] == t && s[b] == u;
      var i :| 0 <= i < |first| && first[i] == a;
      var k :| 0 <= k < |second| && second[k] == b;
      assert JoltageExists(first, second);
    }
    if JoltageExists(first, second) {
      var i, k :| 0 <= i < |first| && 0 <= k < |second| && first[i] < second[k];
      assert s[first[i]] == t && s[second[k]] == u;
    }
  }

  /** The search of `find_highest_joltage`, from `j` down to 10. */
  function FindHighestJoltageFrom(bank: Bank, j: int): Result<I32>
    requires 9 <= j <= 99
    decreases j
  {
    if j < 10 then Err
    else if WhereJoltageExists(bank, j) then Ok(j)
    else FindHighestJoltageFrom(bank, j - 1)
  }

  /** The value of a joltage made of the digits at positions `a` and `b`. */
  function PairJoltage(batteries: seq<char>, a: int, b: int): nat
    requires 0 <= a < |batteries| && 0 <= b < |batteries| && AllDigits(batteries)
  {
    10 * DigitValue(batteries[a]) + DigitValue(batteries[b])
  }

  /**
   * The search from `j` stops at a joltage on offer, and no joltage between
   * where it stopped (9 when it found none) and `j` is on offer.
   */
  lemma {:induction false} FindHighestJoltageFromSpec(bank: Bank, j: int)
    requires ValidBank(bank) && 9 <= j <= 99
    ensures FindHighestJoltageFrom(bank, j).Ok? ==>
              10 <= FindHighestJoltageFrom(bank, j).value <= j && HasJoltage(bank.batteries, FindHighestJoltageFrom(bank, j).value)
    ensures forall k :: StopOf(FindHighestJoltageFrom(bank, j)) < k <= j ==> !HasJoltage(bank.batteries, k)
    decreases j
  {
    if j >= 10 {
      WhereJoltageExistsIff(bank, j);
      if !WhereJoltageExists(bank, j) {
        assert FindHighestJoltageFrom(bank, j) == FindHighestJoltageFrom(bank, j - 1);
        FindHighestJoltageFromSpec(bank, j - 1);
      }
    }
  }

  /** Where a downward search stopped: at the joltage it found, or below 10. */
  function StopOf(r: Result<I32>): int {
    if r.Ok? then r.value else 9
  }

  /** A pair of positions whose first digit is not '0' offers the joltage it spells. */
  lemma PairHasJoltage(batteries: seq<char>, a: int, b: int)
    requires AllDigits(batteries) && 0 <= a < b < |batteries| && batteries[a] != '0'
    ensures 10 <= PairJoltage(batteries, a, b) <= 99
    ensures HasJoltage(batteries, PairJoltage(batteries, a, b))
  {
    var j := PairJoltage(batteries, a, b);
    assert j / 10 == DigitValue(batteries[a]) && j % 10 == DigitValue(batteries[b]);
  }

  /** A pair spells no joltage above the point where the downward search stopped. */
  lemma PairBelowSearch(s: seq<char>, top: int, a: int, b: int)
    requires AllDigits(s) && 9 <= top <= 99
    requires forall k :: top < k <= 99 ==> !HasJoltage(s, k)
    requires 0 <= a < b < |s| && s[a] != '0'
    ensures PairJoltage(s, a, b) <= top
  {
    PairHasJoltage(s, a, b);
  }

  /**
   * `find_highest_joltage`: the search from 99 down to 10 for a joltage
   * whose digits occur in order, or an error when there is none.
   */
  function FindHighestJoltage(bank: Bank): (r: Result<I32>)
    requires ValidBank(bank)
    ensures r.Ok? ==> 10 <= r.value <= 99 && HasJoltage(bank.batteries, r.value)
  {
    FindHighestJoltageFromSpec(bank, 99);
    FindHighestJoltageFrom(bank, 99)
  }

  /**
   * The result is the largest joltage spelt by two batteries in order;
   * there is an error exactly when every battery but the last is '0'
   * (so no pair spells a two-digit joltage, as in a bank of fewer than
   * two batteries).
   */
  lemma FindHighestJoltageIsLargest(bank: Bank)
    requires ValidBank(bank)
    ensures FindHighestJoltage(bank).Ok? ==>
              exists a, b :: 0 <= a < b < |bank.batteries| && PairJoltage(bank.batteries, a, b) == FindHighestJoltage(bank).value
    ensures FindHighestJoltage(bank).Ok? ==>
              forall a, b :: 0 <= a < b < |bank.batteries| ==> PairJoltage(bank.batteries, a, b) <= FindHighestJoltage(bank).value
    ensures FindHighestJoltage(bank).Err? <==> forall a :: 0 <= a < |bank.batteries| - 1 ==> bank.batteries[a] == '0'
  {
    FindHighestJoltageFromSpec(bank, 99);
    SearchResultIsLargest(bank.batteries, FindHighestJoltage(bank));
  }

  /** A result that the downward search could have stopped at is the largest pair joltage. */
  lemma SearchResultIsLargest(s: seq<char>, r: Result<I32>)
    requires AllDigits(s)
    requires r.Ok? ==> 10 <= r.value <= 99 && HasJoltage(s, r.value)
    requires forall k :: StopOf(r) < k <= 99 ==> !HasJoltage(s, k)
    ensures r.Ok? ==> exists a, b :: 0 <= a < b < |s| && PairJoltage(s, a, b) == r.value
    ensures r.Ok? ==> forall a, b :: 0 <= a < b < |s| ==> PairJoltage(s, a, b) <= r.value
    ensures r.Err? <==> forall a :: 0 <= a < |s| - 1 ==> s[a] == '0'
  {
    var top := StopOf(r);
    forall a, b | 0 <= a < b < |s|
      ensures PairJoltage(s, a, b) <= top
    {
      if s[a] != '0' {
        PairBelowSearch(s, top, a, b);
      }
    }
    if r.Ok? {
      var a, b :| 0 <= a < b < |s| && s[a] == DigitChar(r.value / 10) && s[b] == DigitChar(r.value % 10);
      assert PairJoltage(s, a, b) == r.value;
      assert s[a] != '0';
    } else {
      forall a | 0 <= a < |s| - 1
        ensures s[a] == '0'
      {
        if s[a] != '0' {
          PairHasJoltage(s, a, a + 1);
        }
      }
    }
  }

  /** The unit test of part 1: "811111111111119" offers 89 at best. */
  lemma FindHighestJoltageExample(bank: Bank)
    requires ValidBank(bank) && bank.batteries == "811111111111119"
    ensures FindHighestJoltage(bank) == Ok(89)
  {
    LargestPairExample(bank.batteries);
    FindHighestJoltageIsMaximum(bank, 0, 14);
  }

  /** When a pair of batteries spells a joltage no other pair beats, the search finds that joltage. */
  lemma FindHighestJoltageIsMaximum(bank: Bank, a: nat, b: nat)
    requires ValidBank(bank) && a < b < |bank.batteries| && bank.batteries[a] != '0'
    requires forall c, d :: 0 <= c < d < |bank.batteries| ==> PairJoltage(bank.batteries, c, d) <= PairJoltage(bank.batteries, a, b)
    ensures FindHighestJoltage(bank) == Ok(PairJoltage(bank.batteries, a, b) as I32)
  {
    var s := bank.batteries;
    PairHasJoltage(s, a, b);
    FindHighestJoltageIsLargest(bank);
    var r := FindHighestJoltage(bank);
    assert r.Ok? by {
      assert a < |s| - 1 && s[a] != '0';
    }
    var c, d :| 0 <= c < d < |s| && PairJoltage(s, c, d) == r.value;
  }

  lemma LargestPairExample(s: seq<char>)
    requires s == "811111111111119"
    ensures AllDigits(s) && PairJoltage(s, 0, 14) == 89
    ensures forall a, b :: 0 <= a < b < |s| ==> PairJoltage(s, a, b) <= 89
  {
    forall a, b | 0 <= a < b < |s|
      ensures PairJoltage(s, a, b) <= 89
    {
      assert s[a] == '8' || s[a] == '1';
    }
  }

  /**
   * `find_highest_joltage_v2`: every battery goes through a stack keeping
   * 12 values; the source asserts that 12 were kept (so the bank has at
   * least 12 batteries) and parses them as a `u64`, which cannot fail on
   * 12 digits.
   */
  method FindHighestJoltageV2(bank: Bank) returns (r: Result<U64>)
    requires ValidBank(bank) && |bank.batteries| >= 12
    ensures r.Ok?
    ensures var kept := Run(12, |bank.batteries|, bank.batteries, |bank.batteries|);
            && |kept| == 12 && IsSubsequence(kept, bank.batteries)
            && AllDigits(kept) && r.value == DigitsValue(kept)
  {
    var n := |bank.batteries|;
    var stack := new MonotonicStack(12, n);
    for i := 0 to n
      invariant stack.Valid() && stack.targetCapacity == 12 && stack.inputSize == n
      invariant stack.current == i && stack.pushed == bank.batteries[..i]
    {
      assert bank.batteries[..i + 1] == bank.batteries[..i] + [bank.batteries[i]];
      stack.Push(bank.batteries[i]);
    }
    assert bank.batteries[..n] == bank.batteries;
    var values := stack.Values();
    assert |values| == 12;
    RunLength(12, bank.batteries);
    assert AllDigits(values) by {
      SubsequenceDigits(values, bank.batteries);
    }
    DigitsValueBound(values);
    assert Pow10(12) == 1000000000000;
    r := ParseU64(values);
  }

  /** A subsequence of digits is made of digits. */
  lemma {:induction false} SubsequenceDigits(sub: seq<char>, s: seq<char>)
    requires IsSubsequence(sub, s) && AllDigits(s)
    ensures AllDigits(sub)
    decreases |s|
  {
    if |sub| > 0 {
      if sub[|sub| - 1] == s[|s| - 1] {
        SubsequenceDigits(sub[..|sub| - 1], s[..|s| - 1]);
        assert forall i :: 0 <= i < |sub| - 1 ==> sub[i] == sub[..|sub| - 1][i];
      } else {
        SubsequenceDigits(sub, s[..|s| - 1]);
      }
    }
  }
}

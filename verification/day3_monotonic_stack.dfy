/**
 * Day 3: a bounded monotonic stack. Values are pushed one at a time; the
 * stack keeps at most `targetCapacity` of them, in push order, preferring
 * to replace its top by a larger value while enough input is left to fill
 * it up again. The values are the characters of a battery bank.
 */
module Day3MonotonicStack {
  import opened Sequences

  function Min(a: nat, b: nat): nat {
    if a <= b then a else b
  }

  /**
   * The policy of `push`, on the stack contents, the capacity and the
   * number of values still to come (this one included): accept into an
   * empty stack; append while the rest of the input is needed to fill the
   * stack; replace a smaller top; skip when full; otherwise append. The
   * stack only ever loses its top and gains the pushed value.
   */
  function Pushed(stack: seq<char>, capacity: nat, itemsLeft: nat, value: char): (r: seq<char>)
    requires |stack| <= capacity
    ensures |r| <= |stack| + 1
  {
    if |stack| == 0 then [value]
    else if itemsLeft <= capacity - |stack| then stack + [value]
    else if value > stack[|stack| - 1] then stack[..|stack| - 1] + [value]
    else if |stack| >= capacity then stack
    else stack + [value]
  }

  /** A push keeps the stack, appends the value, or replaces the top by it: nothing else. */
  lemma PushedShape(stack: seq<char>, capacity: nat, itemsLeft: nat, value: char)
    requires |stack| <= capacity
    ensures var r := Pushed(stack, capacity, itemsLeft, value);
            r == stack || r == stack + [value] || (|stack| > 0 && r == stack[..|stack| - 1] + [value])
  {
  }

  /** The stack never grows past its capacity, once the capacity is at least one. */
  lemma PushedBounded(stack: seq<char>, capacity: nat, itemsLeft: nat, value: char)
    requires capacity >= 1 && |stack| <= capacity && itemsLeft >= 1
    ensures |Pushed(stack, capacity, itemsLeft, value)| <= capacity
  {
  }

  /**
   * The stack can still be filled to `min(capacity, input size)`: its length
   * plus what is left to push never drops below that target.
   */
  lemma PushedCanFill(stack: seq<char>, capacity: nat, itemsLeft: nat, value: char, target: nat)
    requires |stack| <= capacity && itemsLeft >= 1 && target <= capacity
    requires |stack| + itemsLeft >= target
    ensures |Pushed(stack, capacity, itemsLeft, value)| + (itemsLeft - 1) >= target
  {
  }

  /** What the stack keeps is a subsequence of what was pushed, in push order. */
  lemma PushedSubsequence(stack: seq<char>, capacity: nat, itemsLeft: nat, value: char, input: seq<char>)
    requires |stack| <= capacity && IsSubsequence(stack, input)
    ensures IsSubsequence(Pushed(stack, capacity, itemsLeft, value), input + [value])
  {
    var r := Pushed(stack, capacity, itemsLeft, value);
    PushedShape(stack, capacity, itemsLeft, value);
    if r == stack {
      SubsequenceExtend(stack, input, value);
    } else if r == stack + [value] {
      SubsequenceAppendBoth(stack, input, value);
    } else {
      SubsequenceDropLast(stack, input);
      SubsequenceAppendBoth(stack[..|stack| - 1], input, value);
    }
  }

  /** The top is replaced only by a larger value, with input left over, and the length stays. */
  lemma PushedReplaceOnlyWhenLarger(stack: seq<char>, capacity: nat, itemsLeft: nat, value: char)
    requires |stack| <= capacity
    requires |stack| > 0 && Pushed(stack, capacity, itemsLeft, value) == stack[..|stack| - 1] + [value]
    requires value != stack[|stack| - 1]
    ensures value > stack[|stack| - 1] && itemsLeft > capacity - |stack|
    ensures |Pushed(stack, capacity, itemsLeft, value)| == |stack|
  {
  }

  /** A full stack ignores a value no larger than its top, when the rest is not needed. */
  lemma PushedFullSkips(stack: seq<char>, capacity: nat, itemsLeft: nat, value: char)
    requires 0 < |stack| == capacity && itemsLeft > 0 && value <= stack[|stack| - 1]
    ensures Pushed(stack, capacity, itemsLeft, value) == stack
  {
  }

  /**
   * The stack after pushing the first `count` of `values` into an empty
   * stack sized for `inputSize` values.
   */
  function Run(capacity: nat, inputSize: nat, values: seq<char>, count: nat): (r: seq<char>)
    requires capacity >= 1 && count <= |values| <= inputSize
    ensures |r| <= capacity
  {
    if count == 0 then []
    else
      var before := Run(capacity, inputSize, values, count - 1);
      PushedBounded(before, capacity, inputSize - (count - 1), values[count - 1]);
      Pushed(before, capacity, inputSize - (count - 1), values[count - 1])
  }

  /** A run only looks at the values it has pushed. */
  lemma {:induction false} RunOfPrefix(capacity: nat, inputSize: nat, a: seq<char>, b: seq<char>, count: nat)
    requires capacity >= 1 && count <= |a| <= inputSize && count <= |b| <= inputSize
    requires a[..count] == b[..count]
    ensures Run(capacity, inputSize, a, count) == Run(capacity, inputSize, b, count)
  {
    if count > 0 {
      assert a[..count - 1] == a[..count][..count - 1];
      assert b[..count - 1] == b[..count][..count - 1];
      assert a[count - 1] == a[..count][count - 1];
      assert b[count - 1] == b[..count][count - 1];
      RunOfPrefix(capacity, inputSize, a, b, count - 1);
    }
  }

  /**
   * `MonotonicStack<T>` with `T = char`. `pushed` records, as ghost state,
   * the values pushed so far.
   */
  class MonotonicStack {
    const targetCapacity: nat
    const inputSize: nat
    var internalStack: seq<char>
    var current: nat
    ghost var pushed: seq<char>

    ghost predicate Valid()
      reads this
    {
      && targetCapacity >= 1
      && current == |pushed| <= inputSize
      && internalStack == Run(targetCapacity, inputSize, pushed, current)
    }

    /** `new`: an empty stack that has seen nothing. */
    constructor (targetCapacity: nat, inputSize: nat)
      requires targetCapacity >= 1
      ensures Valid()
      ensures this.targetCapacity == targetCapacity && this.inputSize == inputSize
      ensures internalStack == [] && current == 0 && pushed == []
    {
      this.targetCapacity := targetCapacity;
      this.inputSize := inputSize;
      internalStack := [];
      current := 0;
      pushed := [];
    }

    /** `space_left`: room before the capacity is reached. */
    function SpaceLeft(): (n: nat)
      reads this
      requires |internalStack| <= targetCapacity
      ensures |internalStack| + n == targetCapacity
    {
      targetCapacity - |internalStack|
    }

    /** `items_left`: values still to be pushed, counting from `current`. */
    function ItemsLeft(): (n: nat)
      reads this
      requires current <= inputSize
      ensures current + n == inputSize
    {
      inputSize - current
    }

    /**
     * `push`: one step of the policy. Every push, including one that is
     * skipped, counts towards `current`.
     */
    method Push(value: char)
      requires Valid() && current < inputSize
      modifies this
      ensures Valid()
      ensures internalStack == Pushed(old(internalStack), targetCapacity, old(ItemsLeft()), value)
      ensures current == old(current) + 1
      ensures pushed == old(pushed) + [value]
    {
      assert (pushed + [value])[..current] == pushed[..current];
      RunOfPrefix(targetCapacity, inputSize, pushed + [value], pushed, current);
      if |internalStack| == 0 {
        internalStack := internalStack + [value];
        current := current + 1;
      } else if ItemsLeft() <= SpaceLeft() {
        internalStack := internalStack + [value];
        current := current + 1;
      } else if value > internalStack[|internalStack| - 1] {
        internalStack := internalStack[..|internalStack| - 1];
        internalStack := internalStack + [value];
        current := current + 1;
      } else if |internalStack| >= targetCapacity {
        current := current + 1;
      } else if value <= internalStack[|internalStack| - 1] {
        internalStack := internalStack + [value];
        current := current + 1;
      }
      pushed := pushed + [value];
    }

    /**
     * `values`: the kept values. Once every announced value has been
     * pushed, there are exactly `min(targetCapacity, inputSize)` of them.
     */
    function Values(): (v: seq<char>)
      reads this
      requires Valid()
      ensures IsSubsequence(v, pushed)
      ensures |v| <= targetCapacity
      ensures current == inputSize ==> |v| == Min(targetCapacity, inputSize)
    {
      RunSubsequence(targetCapacity, inputSize, pushed, current);
      assert pushed[..current] == pushed;
      SubsequenceLength(internalStack, pushed);
      RunCanFill(targetCapacity, inputSize, pushed, current);
      internalStack
    }
  }

  /** What a run keeps is a subsequence of the values it has pushed. */
  lemma {:induction false} RunSubsequence(capacity: nat, inputSize: nat, values: seq<char>, count: nat)
    requires capacity >= 1 && count <= |values| <= inputSize
    ensures IsSubsequence(Run(capacity, inputSize, values, count), values[..count])
  {
    if count > 0 {
      var before, value, prefix := Run(capacity, inputSize, values, count - 1), values[count - 1], values[..count - 1];
      RunSubsequence(capacity, inputSize, values, count - 1);
      assert values[..count] == prefix + [value];
      PushedSubsequence(before, capacity, inputSize - (count - 1), value, prefix);
    }
  }

  /**
   * A run can still reach `min(capacity, inputSize)` values: its length plus
   * what is left to push is at least that.
   */
  lemma {:induction false} RunCanFill(capacity: nat, inputSize: nat, values: seq<char>, count: nat)
    requires capacity >= 1 && count <= |values| <= inputSize
    ensures |Run(capacity, inputSize, values, count)| + (inputSize - count) >= Min(capacity, inputSize)
  {
    if count > 0 {
      RunCanFill(capacity, inputSize, values, count - 1);
      PushedCanFill(Run(capacity, inputSize, values, count - 1), capacity, inputSize - (count - 1),
                    values[count - 1], Min(capacity, inputSize));
    }
  }

  /** Pushing an input of the announced size keeps exactly `min(capacity, size)` values. */
  lemma RunLength(capacity: nat, values: seq<char>)
    requires capacity >= 1
    ensures |Run(capacity, |values|, values, |values|)| == Min(capacity, |values|)
    ensures IsSubsequence(Run(capacity, |values|, values, |values|), values)
  {
    RunCanFill(capacity, |values|, values, |values|);
    RunSubsequence(capacity, |values|, values, |values|);
    assert values[..|values|] == values;
    SubsequenceLength(Run(capacity, |values|, values, |values|), values);
  }
}

/** The unit tests of the stack and the examples of part 2, pushed one value at a time. */
module Day3MonotonicStackExample {
  import opened Day3MonotonicStack

  /** The first unit test of the stack, also the third example of part 2, with capacity 12: the first 4 pushes. */
  lemma RunExample1Upto4(s: string)
    requires s == "234234234234278"
    ensures Run(12, 15, s, 4) == "42"
  {
    assert Run(12, 15, s, 1) == "2" by { assert s[0] == '2'; }
    assert Run(12, 15, s, 2) == "3" by { assert s[1] == '3'; }
    assert Run(12, 15, s, 3) == "4" by { assert s[2] == '4'; }
    assert s[3] == '2';
  }

  /** The first unit test of the stack, also the third example of part 2, with capacity 12: the first 8 pushes. */
  lemma RunExample1Upto8(s: string)
    requires s == "234234234234278"
    ensures Run(12, 15, s, 8) == "43423"
  {
    RunExample1Upto4(s);
    assert Run(12, 15, s, 5) == "43" by { assert s[4] == '3'; }
    assert Run(12, 15, s, 6) == "434" by { assert s[5] == '4'; }
    assert Run(12, 15, s, 7) == "4342" by { assert s[6] == '2'; }
    assert s[7] == '3';
  }

  /** The first unit test of the stack, also the third example of part 2, with capacity 12: the first 12 pushes. */
  lemma RunExample1Upto12(s: string)
    requires s == "234234234234278"
    ensures Run(12, 15, s, 12) == "434234234"
  {
    RunExample1Upto8(s);
    assert Run(12, 15, s, 9) == "434234" by { assert s[8] == '4'; }
    assert Run(12, 15, s, 10) == "4342342" by { assert s[9] == '2'; }
    assert Run(12, 15, s, 11) == "43423423" by { assert s[10] == '3'; }
    assert s[11] == '4';
  }

  /** The first unit test of the stack, also the third example of part 2, with capacity 12: the stack after all 15 pushes. */
  lemma RunExample1(s: string)
    requires s == "234234234234278"
    ensures Run(12, 15, s, 15) == "434234234278"
  {
    RunExample1Upto12(s);
    assert Run(12, 15, s, 13) == "4342342342" by { assert s[12] == '2'; }
    assert Run(12, 15, s, 14) == "43423423427" by { assert s[13] == '7'; }
    assert s[14] == '8';
  }

  /** The second unit test of the stack, also the first example of part 2, with capacity 12: the first 4 pushes. */
  lemma RunExample2Upto4(s: string)
    requires s == "987654321111111"
    ensures Run(12, 15, s, 4) == "9876"
  {
    assert Run(12, 15, s, 1) == "9" by { assert s[0] == '9'; }
    assert Run(12, 15, s, 2) == "98" by { assert s[1] == '8'; }
    assert Run(12, 15, s, 3) == "987" by { assert s[2] == '7'; }
    assert s[3] == '6';
  }

  /** The second unit test of the stack, also the first example of part 2, with capacity 12: the first 8 pushes. */
  lemma RunExample2Upto8(s: string)
    requires s == "987654321111111"
    ensures Run(12, 15, s, 8) == "98765432"
  {
    RunExample2Upto4(s);
    assert Run(12, 15, s, 5) == "98765" by { assert s[4] == '5'; }
    assert Run(12, 15, s, 6) == "987654" by { assert s[5] == '4'; }
    assert Run(12, 15, s, 7) == "9876543" by { assert s[6] == '3'; }
    assert s[7] == '2';
  }

  /** The second unit test of the stack, also the first example of part 2, with capacity 12: the first 12 pushes. */
  lemma RunExample2Upto12(s: string)
    requires s == "987654321111111"
    ensures Run(12, 15, s, 12) == "987654321111"
  {
    RunExample2Upto8(s);
    assert Run(12, 15, s, 9) == "987654321" by { assert s[8] == '1'; }
    assert Run(12, 15, s, 10) == "9876543211" by { assert s[9] == '1'; }
    assert Run(12, 15, s, 11) == "98765432111" by { assert s[10] == '1'; }
    assert s[11] == '1';
  }

  /** The second unit test of the stack, also the first example of part 2, with capacity 12: the stack after all 15 pushes. */
  lemma RunExample2(s: string)
    requires s == "987654321111111"
    ensures Run(12, 15, s, 15) == "987654321111"
  {
    RunExample2Upto12(s);
    assert Run(12, 15, s, 13) == "987654321111" by { assert s[12] == '1'; }
    assert Run(12, 15, s, 14) == "987654321111" by { assert s[13] == '1'; }
    assert s[14] == '1';
  }

  /** The third unit test of the stack, also the second example of part 2, with capacity 12: the first 4 pushes. */
  lemma RunExample3Upto4(s: string)
    requires s == "811111111111119"
    ensures Run(12, 15, s, 4) == "8111"
  {
    assert Run(12, 15, s, 1) == "8" by { assert s[0] == '8'; }
    assert Run(12, 15, s, 2) == "81" by { assert s[1] == '1'; }
    assert Run(12, 15, s, 3) == "811" by { assert s[2] == '1'; }
    assert s[3] == '1';
  }

  /** The third unit test of the stack, also the second example of part 2, with capacity 12: the first 8 pushes. */
  lemma RunExample3Upto8(s: string)
    requires s == "811111111111119"
    ensures Run(12, 15, s, 8) == "81111111"
  {
    RunExample3Upto4(s);
    assert Run(12, 15, s, 5) == "81111" by { assert s[4] == '1'; }
    assert Run(12, 15, s, 6) == "811111" by { assert s[5] == '1'; }
    assert Run(12, 15, s, 7) == "8111111" by { assert s[6] == '1'; }
    assert s[7] == '1';
  }

  /** The third unit test of the stack, also the second example of part 2, with capacity 12: the first 12 pushes. */
  lemma RunExample3Upto12(s: string)
    requires s == "811111111111119"
    ensures Run(12, 15, s, 12) == "811111111111"
  {
    RunExample3Upto8(s);
    assert Run(12, 15, s, 9) == "811111111" by { assert s[8] == '1'; }
    assert Run(12, 15, s, 10) == "8111111111" by { assert s[9] == '1'; }
    assert Run(12, 15, s, 11) == "81111111111" by { assert s[10] == '1'; }
    assert s[11] == '1';
  }

  /** The third unit test of the stack, also the second example of part 2, with capacity 12: the stack after all 15 pushes. */
  lemma RunExample3(s: string)
    requires s == "811111111111119"
    ensures Run(12, 15, s, 15) == "811111111119"
  {
    RunExample3Upto12(s);
    assert Run(12, 15, s, 13) == "811111111111" by { assert s[12] == '1'; }
    assert Run(12, 15, s, 14) == "811111111111" by { assert s[13] == '1'; }
    assert s[14] == '9';
  }

  /** The fourth example of part 2, with capacity 12: the first 4 pushes. */
  lemma RunExample4Upto4(s: string)
    requires s == "818181911112111"
    ensures Run(12, 15, s, 4) == "881"
  {
    assert Run(12, 15, s, 1) == "8" by { assert s[0] == '8'; }
    assert Run(12, 15, s, 2) == "81" by { assert s[1] == '1'; }
    assert Run(12, 15, s, 3) == "88" by { assert s[2] == '8'; }
    assert s[3] == '1';
  }

  /** The fourth example of part 2, with capacity 12: the first 8 pushes. */
  lemma RunExample4Upto8(s: string)
    requires s == "818181911112111"
    ensures Run(12, 15, s, 8) == "88891"
  {
    RunExample4Upto4(s);
    assert Run(12, 15, s, 5) == "888" by { assert s[4] == '8'; }
    assert Run(12, 15, s, 6) == "8881" by { assert s[5] == '1'; }
    assert Run(12, 15, s, 7) == "8889" by { assert s[6] == '9'; }
    assert s[7] == '1';
  }

  /** The fourth example of part 2, with capacity 12: the first 12 pushes. */
  lemma RunExample4Upto12(s: string)
    requires s == "818181911112111"
    ensures Run(12, 15, s, 12) == "888911112"
  {
    RunExample4Upto8(s);
    assert Run(12, 15, s, 9) == "888911" by { assert s[8] == '1'; }
    assert Run(12, 15, s, 10) == "8889111" by { assert s[9] == '1'; }
    assert Run(12, 15, s, 11) == "88891111" by { assert s[10] == '1'; }
    assert s[11] == '2';
  }

  /** The fourth example of part 2, with capacity 12: the stack after all 15 pushes. */
  lemma RunExample4(s: string)
    requires s == "818181911112111"
    ensures Run(12, 15, s, 15) == "888911112111"
  {
    RunExample4Upto12(s);
    assert Run(12, 15, s, 13) == "8889111121" by { assert s[12] == '1'; }
    assert Run(12, 15, s, 14) == "88891111211" by { assert s[13] == '1'; }
    assert s[14] == '1';
  }
}

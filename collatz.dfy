/**
 * The Collatz sequence lengths of pg_01/pg_01_01_collatz/pg_01_01_collatz.c
 * and pg_01_collatz.c: collatz_length counts the terms of the sequence
 * n, n/2 or 3n+1, ..., 1 for a start between 1 and 1000000, and
 * max_collatz_length takes the largest count over a range given by its two
 * endpoints in either order.
 *
 * Whether the loop of collatz_length ends is the Collatz conjecture, which
 * no proof settles; the operations here require that the sequences they
 * follow reach 1, and every conclusion is drawn under that requirement.
 */
module Collatz {
  import opened Wrappers

  const MaxNumber := 1000000
  const MinNumber := 1

  /** is_valid_input. */
  predicate IsValidInput(n: int)
  {
    n >= MinNumber && n <= MaxNumber
  }

  /** One step of the loop: halve an even number, map an odd one to 3n+1. */
  function Next(n: int): int
  {
    if n % 2 == 0 then n / 2 else 3 * n + 1
  }

  /** The term k steps after n. */
  function Iterate(n: int, k: nat): int
  {
    if k == 0 then n else Next(Iterate(n, k - 1))
  }

  ghost predicate ReachesOne(n: int)
  {
    exists k: nat :: Iterate(n, k) == 1
  }

  /**
   * len is the length of n's sequence: the number of terms up to and
   * including the first 1.
   */
  predicate IsLength(n: int, len: int)
  {
    len >= 1 && Iterate(n, len - 1) == 1 && forall j: nat :: j < len - 1 ==> Iterate(n, j) != 1
  }

  /** If 1 comes at step k, some earliest step reaches it. */
  lemma {:induction false} LengthExists(n: int, k: nat)
    requires Iterate(n, k) == 1
    ensures exists len :: IsLength(n, len)
    decreases k
  {
    if j: nat :| j < k && Iterate(n, j) == 1 {
      LengthExists(n, j);
    } else {
      assert IsLength(n, k + 1);
    }
  }

  /** A sequence has one length. */
  lemma LengthUnique(n: int, a: int, b: int)
    requires IsLength(n, a) && IsLength(n, b)
    ensures a == b
  {
  }

  /** The length of the sequence from n, for an n whose sequence reaches 1. */
  ghost function Length(n: int): (len: int)
    requires ReachesOne(n)
    ensures IsLength(n, len)
  {
    var k: nat :| Iterate(n, k) == 1;
    LengthExists(n, k);
    var len :| IsLength(n, len);
    len
  }

  /** Stepping once from n and then k times is stepping k+1 times from n. */
  lemma {:induction false} IterateShift(n: int, k: nat)
    ensures Iterate(Next(n), k) == Iterate(n, k + 1)
  {
    if k > 0 {
      IterateShift(n, k - 1);
    }
  }

  /** The sequence from 1 is just 1. */
  lemma LengthOfOne()
    ensures ReachesOne(1) && Length(1) == 1
  {
    assert Iterate(1, 0) == 1;
    assert IsLength(1, 1);
    LengthUnique(1, 1, Length(1));
  }

  /**
   * For n other than 1 the sequence is n followed by the sequence from
   * Next(n): one reaches 1 when the other does, and it is one term longer.
   */
  lemma LengthStep(n: int)
    requires n != 1
    ensures ReachesOne(n) <==> ReachesOne(Next(n))
    ensures ReachesOne(n) ==> Length(n) == Length(Next(n)) + 1
  {
    if ReachesOne(Next(n)) {
      var len := Length(Next(n));
      IterateShift(n, len - 1);
      forall j: nat | j < len
        ensures Iterate(n, j) != 1
      {
        if j > 0 {
          IterateShift(n, j - 1);
        }
      }
      assert IsLength(n, len + 1);
      LengthUnique(n, len + 1, Length(n));
    }
    if ReachesOne(n) {
      var k: nat :| Iterate(n, k) == 1;
      assert k > 0;
      IterateShift(n, k - 1);
    }
  }

  /**
   * collatz_length, as both files write it: -1 for an invalid start;
   * otherwise the loop steps n without checking it again and counts the
   * terms, so the result is the length of the sequence.
   */
  method CollatzLength(n: int) returns (length: int)
    requires IsValidInput(n) ==> ReachesOne(n)
    ensures !IsValidInput(n) ==> length == -1
    ensures IsValidInput(n) ==> length == Length(n)
  {
    if !IsValidInput(n) {
      return -1;
    }
    var m := n;
    length := 1;
    while m != 1
      invariant length >= 1 && m == Iterate(n, length - 1) && ReachesOne(m)
      invariant forall j: nat :: j < length - 1 ==> Iterate(n, j) != 1
      decreases Length(m)
    {
      LengthStep(m);
      if m % 2 == 0 {
        m := m / 2;
      } else {
        m := 3 * m + 1;
      }
      length := length + 1;
    }
    assert IsLength(n, length);
    LengthUnique(n, length, Length(n));
  }

  function Min(a: int, b: int): int
  {
    if a < b then a else b
  }

  function Max(a: int, b: int): int
  {
    if a > b then a else b
  }

  ghost predicate AllReachOne(lo: int, hi: int)
  {
    forall i :: lo <= i <= hi ==> ReachesOne(i)
  }

  /** The largest length over lo..hi. */
  ghost function MaxLength(lo: int, hi: int): int
    requires lo <= hi && AllReachOne(lo, hi)
    decreases hi - lo
  {
    if lo == hi then Length(hi) else Max(MaxLength(lo, hi - 1), Length(hi))
  }

  /** MaxLength is at least every length in the range and equal to one of them. */
  lemma {:induction false} MaxLengthIsMaximum(lo: int, hi: int)
    requires lo <= hi && AllReachOne(lo, hi)
    ensures forall i :: lo <= i <= hi ==> Length(i) <= MaxLength(lo, hi)
    ensures exists i :: lo <= i <= hi && Length(i) == MaxLength(lo, hi)
    ensures MaxLength(lo, hi) >= 1
    decreases hi - lo
  {
    if lo == hi {
      assert lo <= hi <= hi && Length(hi) == MaxLength(lo, hi);
    } else {
      MaxLengthIsMaximum(lo, hi - 1);
      if Length(hi) >= MaxLength(lo, hi - 1) {
        assert lo <= hi <= hi && Length(hi) == MaxLength(lo, hi);
      } else {
        var i :| lo <= i <= hi - 1 && Length(i) == MaxLength(lo, hi - 1);
        assert lo <= i <= hi && Length(i) == MaxLength(lo, hi);
      }
    }
  }

  /** Both endpoints valid: only then does max_collatz_length run its loop. */
  predicate ValidRange(a: int, b: int)
  {
    IsValidInput(a) && IsValidInput(b)
  }

  /** What the loops need: every sequence they follow reaches 1. */
  ghost predicate Terminates(a: int, b: int)
  {
    ValidRange(a, b) ==> AllReachOne(Min(a, b), Max(a, b))
  }

  /** What max_collatz_length returns: -1 for an invalid endpoint, else the largest length between them. */
  ghost function RangeMax(a: int, b: int): int
    requires Terminates(a, b)
  {
    if !ValidRange(a, b) then -1 else MaxLength(Min(a, b), Max(a, b))
  }

  /**
   * The meaning of the result: -1 exactly when an endpoint is invalid;
   * otherwise at least 1, at least the length of every start between the
   * endpoints, and the length of one of them.
   */
  lemma RangeMaxMeaning(a: int, b: int)
    requires Terminates(a, b)
    ensures RangeMax(a, b) == -1 <==> !ValidRange(a, b)
    ensures ValidRange(a, b) ==>
      && RangeMax(a, b) >= 1
      && (forall i :: Min(a, b) <= i <= Max(a, b) ==> Length(i) <= RangeMax(a, b))
      && (exists i :: Min(a, b) <= i <= Max(a, b) && Length(i) == RangeMax(a, b))
  {
    if ValidRange(a, b) {
      MaxLengthIsMaximum(Min(a, b), Max(a, b));
    }
  }

  /** The order of the endpoints does not matter. */
  lemma RangeMaxSymmetric(a: int, b: int)
    requires Terminates(a, b)
    ensures Terminates(b, a) && RangeMax(a, b) == RangeMax(b, a)
  {
  }

  /**
   * max_collatz_length of pg_01_01_collatz.c: check both endpoints, order
   * them, keep the largest length the loop sees.
   */
  method MaxCollatzLength(a: int, b: int) returns (r: int)
    requires Terminates(a, b)
    ensures r == RangeMax(a, b)
  {
    if !IsValidInput(a) || !IsValidInput(b) {
      return -1;
    }
    var lo := if a < b then a else b;
    var hi := if a > b then a else b;
    r := ScanRange(lo, hi);
  }

  /**
   * max_collatz_length of pg_01_collatz.c: order the endpoints first, then
   * reject a range reaching below 1 or above MaxNumber, which is the same as
   * rejecting an invalid endpoint.
   */
  method MaxCollatzLengthOrdered(a: int, b: int) returns (r: int)
    requires Terminates(a, b)
    ensures r == RangeMax(a, b)
  {
    var lo := if a < b then a else b;
    var hi := if a > b then a else b;
    if lo < 1 || hi > MaxNumber {
      return -1;
    }
    r := ScanRange(lo, hi);
  }

  /** The loop both versions share: the running maximum starts at 0. */
  method ScanRange(lo: int, hi: int) returns (maxLength: int)
    requires IsValidInput(lo) && IsValidInput(hi) && lo <= hi && AllReachOne(lo, hi)
    ensures maxLength == MaxLength(lo, hi)
  {
    maxLength := 0;
    for i := lo to hi + 1
      invariant maxLength == if i == lo then 0 else MaxLength(lo, i - 1)
    {
      var length := CollatzLength(i);
      if length > maxLength {
        maxLength := length;
      }
    }
  }

  /**
   * The length of n's sequence if it reaches 1 within `fuel` steps: a
   * bounded version of collatz_length that always ends.
   */
  function LengthWithin(n: int, fuel: nat): Option<nat>
    decreases fuel
  {
    if n == 1 then Some(1)
    else if fuel == 0 then None
    else match LengthWithin(Next(n), fuel - 1)
      case None => None
      case Some(len) => Some(len + 1)
  }

  /** A length the bounded count finds is the length of the sequence. */
  lemma {:induction false} LengthWithinSound(n: int, fuel: nat)
    requires LengthWithin(n, fuel).Some?
    ensures ReachesOne(n) && Length(n) == LengthWithin(n, fuel).value
    decreases fuel
  {
    if n == 1 {
      LengthOfOne();
    } else {
      LengthWithinSound(Next(n), fuel - 1);
      LengthStep(n);
    }
  }

  /** Longer fuel finds the same length. */
  lemma {:induction false} LengthWithinMonotone(n: int, fuel: nat, more: nat)
    requires fuel <= more && LengthWithin(n, fuel).Some?
    ensures LengthWithin(n, more) == LengthWithin(n, fuel)
    decreases fuel
  {
    if n != 1 {
      LengthWithinMonotone(Next(n), fuel - 1, more - 1);
    }
  }

  /** The largest bounded count over lo..hi, if every start in it reaches 1 within `fuel` steps. */
  function MaxWithin(lo: int, hi: int, fuel: nat): Option<nat>
    requires lo <= hi
    decreases hi - lo
  {
    var here := LengthWithin(hi, fuel);
    if here.None? then None
    else if lo == hi then here
    else match MaxWithin(lo, hi - 1, fuel)
      case None => None
      case Some(m) => Some(if m > here.value then m else here.value)
  }

  /** A maximum the bounded count finds is MaxLength, and every start in the range reaches 1. */
  lemma {:induction false} MaxWithinSound(lo: int, hi: int, fuel: nat)
    requires lo <= hi && MaxWithin(lo, hi, fuel).Some?
    ensures AllReachOne(lo, hi) && MaxLength(lo, hi) == MaxWithin(lo, hi, fuel).value
    decreases hi - lo
  {
    LengthWithinSound(hi, fuel);
    if lo < hi {
      MaxWithinSound(lo, hi - 1, fuel);
    }
  }

  /** A range whose bounded maximum is found: that maximum is what max_collatz_length returns. */
  lemma RangeMaxWithin(a: int, b: int, fuel: nat)
    requires ValidRange(a, b) && a <= b && MaxWithin(a, b, fuel).Some?
    ensures Terminates(a, b) && RangeMax(a, b) == MaxWithin(a, b, fuel).value
  {
    MaxWithinSound(a, b, fuel);
  }

  /** One more term in front of a sequence the bounded count has measured. */
  lemma CountStep(n: int, fuel: nat, len: nat)
    requires n != 1 && fuel > 0 && LengthWithin(Next(n), fuel - 1) == Some(len)
    ensures LengthWithin(n, fuel) == Some(len + 1)
  {
  }

  /** The bounded counts of the starts the test driver covers, one step of each sequence at a time. */
  lemma KnownLengths()
    ensures LengthWithin(1, 30) == Some(1)
    ensures LengthWithin(2, 30) == Some(2)
    ensures LengthWithin(3, 30) == Some(8)
    ensures LengthWithin(4, 30) == Some(3)
    ensures LengthWithin(5, 30) == Some(6)
    ensures LengthWithin(6, 30) == Some(9)
    ensures LengthWithin(7, 30) == Some(17)
    ensures LengthWithin(8, 30) == Some(4)
    ensures LengthWithin(9, 30) == Some(20)
    ensures LengthWithin(10, 30) == Some(7)
    ensures LengthWithin(11, 30) == Some(15)
    ensures LengthWithin(12, 30) == Some(10)
    ensures LengthWithin(13, 30) == Some(10)
    ensures LengthWithin(14, 30) == Some(18)
    ensures LengthWithin(15, 30) == Some(18)
    ensures LengthWithin(16, 30) == Some(5)
    ensures LengthWithin(17, 30) == Some(13)
    ensures LengthWithin(18, 30) == Some(21)
    ensures LengthWithin(19, 30) == Some(21)
    ensures LengthWithin(20, 30) == Some(8)
    ensures LengthWithin(21, 30) == Some(8)
    ensures LengthWithin(22, 30) == Some(16)
    ensures LengthWithin(23, 30) == Some(16)
    ensures LengthWithin(24, 30) == Some(11)
    ensures LengthWithin(25, 30) == Some(24)
    ensures LengthWithin(42, 30) == Some(9)
  {
    CountStep(2, 1, 1);
    CountStep(4, 2, 2);
    CountStep(8, 3, 3);
    CountStep(16, 4, 4);
    CountStep(5, 5, 5);
    CountStep(32, 5, 5);
    CountStep(10, 6, 6);
    CountStep(64, 6, 6);
    CountStep(3, 7, 7);
    CountStep(20, 7, 7);
    CountStep(21, 7, 7);
    CountStep(6, 8, 8);
    CountStep(40, 8, 8);
    CountStep(42, 8, 8);
    CountStep(12, 9, 9);
    CountStep(13, 9, 9);
    CountStep(80, 9, 9);
    CountStep(24, 10, 10);
    CountStep(26, 10, 10);
    CountStep(160, 10, 10);
    CountStep(52, 11, 11);
    CountStep(53, 11, 11);
    CountStep(17, 12, 12);
    CountStep(106, 12, 12);
    CountStep(34, 13, 13);
    CountStep(35, 13, 13);
    CountStep(11, 14, 14);
    CountStep(70, 14, 14);
    CountStep(22, 15, 15);
    CountStep(23, 15, 15);
    CountStep(7, 16, 16);
    CountStep(44, 16, 16);
    CountStep(46, 16, 16);
    CountStep(14, 17, 17);
    CountStep(15, 17, 17);
    CountStep(88, 17, 17);
    CountStep(28, 18, 18);
    CountStep(29, 18, 18);
    CountStep(9, 19, 19);
    CountStep(58, 19, 19);
    CountStep(18, 20, 20);
    CountStep(19, 20, 20);
    CountStep(38, 21, 21);
    CountStep(76, 22, 22);
    CountStep(25, 23, 23);
    LengthWithinMonotone(1, 0, 30);
    LengthWithinMonotone(2, 1, 30);
    LengthWithinMonotone(3, 7, 30);
    LengthWithinMonotone(4, 2, 30);
    LengthWithinMonotone(5, 5, 30);
    LengthWithinMonotone(6, 8, 30);
    LengthWithinMonotone(7, 16, 30);
    LengthWithinMonotone(8, 3, 30);
    LengthWithinMonotone(9, 19, 30);
    LengthWithinMonotone(10, 6, 30);
    LengthWithinMonotone(11, 14, 30);
    LengthWithinMonotone(12, 9, 30);
    LengthWithinMonotone(13, 9, 30);
    LengthWithinMonotone(14, 17, 30);
    LengthWithinMonotone(15, 17, 30);
    LengthWithinMonotone(16, 4, 30);
    LengthWithinMonotone(17, 12, 30);
    LengthWithinMonotone(18, 20, 30);
    LengthWithinMonotone(19, 20, 30);
    LengthWithinMonotone(20, 7, 30);
    LengthWithinMonotone(21, 7, 30);
    LengthWithinMonotone(22, 15, 30);
    LengthWithinMonotone(23, 15, 30);
    LengthWithinMonotone(24, 10, 30);
    LengthWithinMonotone(25, 23, 30);
    LengthWithinMonotone(42, 8, 30);
  }

  /** The bounded maxima over the ranges of the test driver. */
  lemma KnownMaxima()
    ensures MaxWithin(1, 3, 30) == Some(8)
    ensures MaxWithin(4, 9, 30) == Some(20)
    ensures MaxWithin(10, 16, 30) == Some(18)
    ensures MaxWithin(17, 25, 30) == Some(24)
    ensures MaxWithin(1, 25, 30) == Some(24)
    ensures MaxWithin(42, 42, 30) == Some(9)
  {
    KnownLengths();
    assert MaxWithin(1, 1, 30) == Some(1);
    assert MaxWithin(1, 2, 30) == Some(2);
    assert MaxWithin(1, 3, 30) == Some(8);
    assert MaxWithin(1, 4, 30) == Some(8);
    assert MaxWithin(1, 5, 30) == Some(8);
    assert MaxWithin(1, 6, 30) == Some(9);
    assert MaxWithin(1, 7, 30) == Some(17);
    assert MaxWithin(1, 8, 30) == Some(17);
    assert MaxWithin(1, 9, 30) == Some(20);
    assert MaxWithin(1, 10, 30) == Some(20);
    assert MaxWithin(1, 11, 30) == Some(20);
    assert MaxWithin(1, 12, 30) == Some(20);
    assert MaxWithin(1, 13, 30) == Some(20);
    assert MaxWithin(1, 14, 30) == Some(20);
    assert MaxWithin(1, 15, 30) == Some(20);
    assert MaxWithin(1, 16, 30) == Some(20);
    assert MaxWithin(1, 17, 30) == Some(20);
    assert MaxWithin(1, 18, 30) == Some(21);
    assert MaxWithin(1, 19, 30) == Some(21);
    assert MaxWithin(1, 20, 30) == Some(21);
    assert MaxWithin(1, 21, 30) == Some(21);
    assert MaxWithin(1, 22, 30) == Some(21);
    assert MaxWithin(1, 23, 30) == Some(21);
    assert MaxWithin(1, 24, 30) == Some(21);
    assert MaxWithin(1, 25, 30) == Some(24);
    assert MaxWithin(4, 4, 30) == Some(3);
    assert MaxWithin(4, 5, 30) == Some(6);
    assert MaxWithin(4, 6, 30) == Some(9);
    assert MaxWithin(4, 7, 30) == Some(17);
    assert MaxWithin(4, 8, 30) == Some(17);
    assert MaxWithin(4, 9, 30) == Some(20);
    assert MaxWithin(10, 10, 30) == Some(7);
    assert MaxWithin(10, 11, 30) == Some(15);
    assert MaxWithin(10, 12, 30) == Some(15);
    assert MaxWithin(10, 13, 30) == Some(15);
    assert MaxWithin(10, 14, 30) == Some(18);
    assert MaxWithin(10, 15, 30) == Some(18);
    assert MaxWithin(10, 16, 30) == Some(18);
    assert MaxWithin(17, 17, 30) == Some(13);
    assert MaxWithin(17, 18, 30) == Some(21);
    assert MaxWithin(17, 19, 30) == Some(21);
    assert MaxWithin(17, 20, 30) == Some(21);
    assert MaxWithin(17, 21, 30) == Some(21);
    assert MaxWithin(17, 22, 30) == Some(21);
    assert MaxWithin(17, 23, 30) == Some(21);
    assert MaxWithin(17, 24, 30) == Some(21);
    assert MaxWithin(17, 25, 30) == Some(24);
    assert MaxWithin(42, 42, 30) == Some(9);
  }

  /**
   * The expectations of the test driver in pg_01_01_collatz.c, with the one
   * for the range 10..16 corrected to 18, the length of the sequences of 14
   * and 15: four of the five ranges give the value the driver expects, and
   * so do the invalid ranges and the single start 42.
   */
  lemma DriverValues()
    ensures Terminates(1, 3) && RangeMax(1, 3) == 8
    ensures Terminates(4, 9) && RangeMax(4, 9) == 20
    ensures Terminates(10, 16) && RangeMax(10, 16) == 18
    ensures Terminates(17, 25) && RangeMax(17, 25) == 24
    ensures Terminates(1, 25) && RangeMax(1, 25) == 24
    ensures Terminates(0, 3) && RangeMax(0, 3) == -1
    ensures Terminates(1, MaxNumber + 1) && RangeMax(1, MaxNumber + 1) == -1
    ensures Terminates(42, 42) && ReachesOne(42) && RangeMax(42, 42) == Length(42)
  {
    KnownMaxima();
    RangeMaxWithin(1, 3, 30);
    RangeMaxWithin(4, 9, 30);
    RangeMaxWithin(10, 16, 30);
    RangeMaxWithin(17, 25, 30);
    RangeMaxWithin(1, 25, 30);
    RangeMaxWithin(42, 42, 30);
  }

  /**
   * The expectation the driver gets wrong: test_range(10, 16, 20) reports a
   * failure, because no start in 10..16 has a sequence of length 20.
   */
  lemma DriverExpectsWrongValue()
    ensures Terminates(10, 16) && RangeMax(10, 16) != 20
  {
    KnownMaxima();
    RangeMaxWithin(10, 16, 30);
  }
}

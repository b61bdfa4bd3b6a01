/**
 * The password rules of d04 on the decimal digits of a number: part 1
 * wants the digits never to decrease and some digit to occur at least
 * twice, part 2 additionally some digit to occur exactly twice.
 */
module Passwords {
  import opened Decimal

  /** The puzzle range, both ends included. */
  const Low: nat := 273025
  const High: nat := 767253

  predicate NonDecreasing(s: seq<char>) {
    forall i, j :: 0 <= i < j < |s| ==> s[i] <= s[j]
  }

  /** `digits.iter().filter(|x| *x == c).count()`. */
  function Count(s: seq<char>, c: char): (n: nat)
    ensures n == multiset(s)[c]
  {
    if s == [] then 0
    else
      assert s == [s[0]] + s[1..];
      (if s[0] == c then 1 else 0) + Count(s[1..], c)
  }

  /** Some digit occurs at least twice. */
  predicate HasRepeat(s: seq<char>) {
    exists i :: 0 <= i < |s| && Count(s, s[i]) > 1
  }

  /** Some digit occurs exactly twice. */
  predicate HasExactPair(s: seq<char>) {
    exists i :: 0 <= i < |s| && Count(s, s[i]) == 2
  }

  /** Insertion before the first element not below `c`. */
  function Insert(c: char, s: seq<char>): (r: seq<char>)
    ensures multiset(r) == multiset(s) + multiset{c}
    ensures |r| == |s| + 1 && (r[0] == c || (s != [] && r[0] == s[0]))
  {
    if s == [] || c <= s[0] then [c] + s
    else
      assert s == [s[0]] + s[1..];
      [s[0]] + Insert(c, s[1..])
  }

  /** What `sort_unstable` leaves in the clone: a non-decreasing permutation. */
  function Sort(s: seq<char>): (r: seq<char>)
    ensures NonDecreasing(r)
    ensures multiset(r) == multiset(s)
  {
    if s == [] then []
    else
      assert s == [s[0]] + s[1..];
      InsertSorted(s[0], Sort(s[1..]));
      Insert(s[0], Sort(s[1..]))
  }

  /** `is_valid`: equal to its sorted copy, then a digit counted more than once. */
  method IsValid(digits: seq<char>) returns (b: bool)
    ensures b <==> NonDecreasing(digits) && HasRepeat(digits)
  {
    var sorted := Sort(digits);
    SortedFixed(digits);
    if digits != sorted {
      return false;
    }
    for k := 0 to |digits|
      invariant forall j :: 0 <= j < k ==> Count(digits, digits[j]) <= 1
    {
      var c := Count(digits, digits[k]);
      if c > 1 {
        return true;
      }
    }
    return false;
  }

  /** `contains_one_pair`: some digit counted exactly twice. */
  method ContainsOnePair(digits: seq<char>) returns (b: bool)
    ensures b <==> HasExactPair(digits)
  {
    for k := 0 to |digits|
      invariant forall j :: 0 <= j < k ==> Count(digits, digits[j]) != 2
    {
      var c := Count(digits, digits[k]);
      if c == 2 {
        return true;
      }
    }
    return false;
  }

  /** Part 1's rule on the number `n`. */
  predicate Valid(n: nat) {
    NonDecreasing(DecimalString(n)) && HasRepeat(DecimalString(n))
  }

  /** Part 2's rule on the number `n`: `contains_one_pair` is only asked of valid numbers. */
  predicate ValidWithPair(n: nat) {
    Valid(n) && HasExactPair(DecimalString(n))
  }

  /** How many numbers in `lo .. hi - 1` satisfy part 1's rule. */
  function ValidCount(lo: nat, hi: nat): (c: nat)
    ensures c == |Matching(lo, hi, Valid)|
    decreases hi
  {
    MatchingSnoc(lo, hi, Valid);
    if hi <= lo then 0 else ValidCount(lo, hi - 1) + (if Valid(hi - 1) then 1 else 0)
  }

  /** How many numbers in `lo .. hi - 1` satisfy part 2's rule. */
  function PairCount(lo: nat, hi: nat): (c: nat)
    ensures c == |Matching(lo, hi, ValidWithPair)|
    decreases hi
  {
    MatchingSnoc(lo, hi, ValidWithPair);
    if hi <= lo then 0 else PairCount(lo, hi - 1) + (if ValidWithPair(hi - 1) then 1 else 0)
  }

  /** The numbers in `lo .. hi - 1` that satisfy `p`. */
  ghost function Matching(lo: nat, hi: nat, p: nat -> bool): set<nat> {
    set n | lo <= n < hi && p(n)
  }

  /** Extending the range by `hi - 1` adds that number exactly when it satisfies `p`. */
  lemma MatchingSnoc(lo: nat, hi: nat, p: nat -> bool)
    ensures hi <= lo ==> Matching(lo, hi, p) == {}
    ensures hi > lo ==> hi - 1 !in Matching(lo, hi - 1, p)
    ensures hi > lo ==> Matching(lo, hi, p) == Matching(lo, hi - 1, p) + (if p(hi - 1) then {hi - 1} else {})
  {
    if hi > lo {
      assert Matching(lo, hi, p) == Matching(lo, hi - 1, p) + (if p(hi - 1) then {hi - 1} else {});
    }
  }

  /** The loop of `main` over `a ..= b`. */
  method CountPasswords(a: nat, b: nat) returns (p1: nat, p2: nat)
    ensures p1 == ValidCount(a, b + 1) && p2 == PairCount(a, b + 1)
  {
    p1, p2 := 0, 0;
    if b + 1 < a {
      assert ValidCount(a, b + 1) == 0 && PairCount(a, b + 1) == 0;
      return;
    }
    for i := a to b + 1
      invariant p1 == ValidCount(a, i)
      invariant p2 == PairCount(a, i)
    {
      var v, w := Judge(i);
      p1, p2 := p1 + v, p2 + w;
    }
  }

  /** One turn of the loop of `main`: what the number `i` adds to each count. */
  method Judge(i: nat) returns (v: nat, w: nat)
    ensures v == (if Valid(i) then 1 else 0)
    ensures w == (if ValidWithPair(i) then 1 else 0)
  {
    var digits := DecimalString(i);
    var valid := IsValid(digits);
    v, w := 0, 0;
    if valid {
      v := 1;
      var pair := ContainsOnePair(digits);
      if pair {
        w := 1;
      }
    }
  }

  /** `main` on the puzzle range. */
  method Solve() returns (p1: nat, p2: nat)
    ensures p1 == ValidCount(Low, High + 1) && p2 == PairCount(Low, High + 1)
    ensures p2 <= p1 <= High + 1 - Low
  {
    p1, p2 := CountPasswords(Low, High);
    CountBounds(Low, High + 1);
  }

  // ---------------------------------------------------------------------
  // Facts
  // ---------------------------------------------------------------------

  /** A sequence equals its sorted copy exactly when it is already non-decreasing. */
  lemma {:induction false} SortedFixed(s: seq<char>)
    ensures s == Sort(s) <==> NonDecreasing(s)
  {
    if s != [] && NonDecreasing(s) {
      var t := s[1..];
      TailNonDecreasing(s);
      SortedFixed(t);
      assert s == [s[0]] + t;
      if t != [] {
        assert s[0] <= t[0] == s[1];
      }
    }
  }

  /** Insertion keeps a sequence non-decreasing. */
  lemma {:induction false} InsertSorted(c: char, s: seq<char>)
    requires NonDecreasing(s)
    ensures NonDecreasing(Insert(c, s))
  {
    if s == [] || c <= s[0] {
      ConsNonDecreasing(c, s);
    } else {
      TailNonDecreasing(s);
      InsertSorted(c, s[1..]);
      ConsNonDecreasing(s[0], Insert(c, s[1..]));
    }
  }

  lemma ConsNonDecreasing(x: char, t: seq<char>)
    requires NonDecreasing(t) && (t == [] || x <= t[0])
    ensures NonDecreasing([x] + t)
  {
    var r := [x] + t;
    forall i, j | 0 <= i < j < |r|
      ensures r[i] <= r[j]
    {
      if i == 0 {
        assert r[j] == t[j - 1];
        if j > 1 {
          assert t[0] <= t[j - 1];
        }
      } else {
        assert r[i] == t[i - 1] && r[j] == t[j - 1];
      }
    }
  }

  lemma TailNonDecreasing(s: seq<char>)
    requires s != [] && NonDecreasing(s)
    ensures NonDecreasing(s[1..])
  {
    var t := s[1..];
    forall i, j | 0 <= i < j < |t|
      ensures t[i] <= t[j]
    {
      assert t[i] == s[i + 1] && t[j] == s[j + 1];
    }
  }

  /** The head of a non-decreasing sequence is its least element. */
  lemma HeadLeast(s: seq<char>, x: char)
    requires NonDecreasing(s) && x in multiset(s)
    ensures s[0] <= x
  {
    var i :| 0 <= i < |s| && s[i] == x;
    if i > 0 {
      assert s[0] <= s[i];
    }
  }

  /** Two non-decreasing permutations of each other are equal: sorting is unique, stable or not. */
  lemma {:induction false} SortedUnique(a: seq<char>, b: seq<char>)
    requires NonDecreasing(a) && NonDecreasing(b)
    requires multiset(a) == multiset(b)
    ensures a == b
    decreases |a|
  {
    if a == [] || b == [] {
      assert |a| == |multiset(a)| == |multiset(b)| == |b|;
    } else {
      HeadsAgree(a, b);
      TailNonDecreasing(a);
      TailNonDecreasing(b);
      SortedUnique(a[1..], b[1..]);
      assert a == [a[0]] + a[1..];
      assert b == [b[0]] + b[1..];
    }
  }

  /** Non-decreasing permutations of each other start alike and continue as permutations. */
  lemma HeadsAgree(a: seq<char>, b: seq<char>)
    requires a != [] && b != []
    requires NonDecreasing(a) && NonDecreasing(b)
    requires multiset(a) == multiset(b)
    ensures a[0] == b[0] && multiset(a[1..]) == multiset(b[1..])
  {
    HeadsEqual(a, b);
    TailsPermuted(a, b);
  }

  lemma HeadsEqual(a: seq<char>, b: seq<char>)
    requires a != [] && b != []
    requires NonDecreasing(a) && NonDecreasing(b)
    requires multiset(a) == multiset(b)
    ensures a[0] == b[0]
  {
    assert b[0] in multiset(a) by {
      assert b[0] in multiset(b);
    }
    assert a[0] in multiset(b) by {
      assert a[0] in multiset(a);
    }
    HeadLeast(a, b[0]);
    HeadLeast(b, a[0]);
  }

  /** Permutations with the same head have permuted tails. */
  lemma TailsPermuted(a: seq<char>, b: seq<char>)
    requires a != [] && b != [] && a[0] == b[0]
    requires multiset(a) == multiset(b)
    ensures multiset(a[1..]) == multiset(b[1..])
  {
    assert multiset(a[1..]) == multiset(a) - multiset{a[0]} by {
      assert a == [a[0]] + a[1..];
    }
    assert multiset(b[1..]) == multiset(b) - multiset{b[0]} by {
      assert b == [b[0]] + b[1..];
    }
  }

  /** `Sort` is the sorted permutation: any non-decreasing permutation equals it. */
  lemma SortIsTheSortedPermutation(s: seq<char>, t: seq<char>)
    requires NonDecreasing(t) && multiset(t) == multiset(s)
    ensures t == Sort(s)
  {
    SortedUnique(t, Sort(s));
  }

  /** A digit counted at least twice occurs at some other position too. */
  lemma OtherOccurrence(s: seq<char>, i: nat)
    requires i < |s| && Count(s, s[i]) >= 2
    ensures exists j :: 0 <= j < |s| && j != i && s[j] == s[i]
  {
    var rest := s[..i] + s[i + 1..];
    assert s == s[..i] + [s[i]] + s[i + 1..];
    assert s[i] in multiset(rest);
    var k :| 0 <= k < |rest| && rest[k] == s[i];
    if k < i {
      assert s[k] == s[i];
    } else {
      assert s[k + 1] == s[i];
    }
  }

  /** Two equal neighbours make a repeated digit. */
  lemma AdjacentRepeat(s: seq<char>, i: nat)
    requires i + 1 < |s| && s[i] == s[i + 1]
    ensures Count(s, s[i]) >= 2
  {
    assert s == s[..i] + [s[i], s[i + 1]] + s[i + 2..];
    assert multiset(s) == multiset(s[..i]) + multiset{s[i], s[i + 1]} + multiset(s[i + 2..]);
  }

  /** In non-decreasing digits, a repeated digit has an equal neighbour. */
  lemma RepeatAdjacent(s: seq<char>, i: nat)
    requires NonDecreasing(s) && i < |s| && Count(s, s[i]) > 1
    ensures exists k :: 0 <= k < |s| - 1 && s[k] == s[k + 1]
  {
    OtherOccurrence(s, i);
    var j :| 0 <= j < |s| && j != i && s[j] == s[i];
    if i < j {
      Squeeze(s, i, j);
    } else {
      Squeeze(s, j, i);
    }
  }

  /** Between two equal elements of a non-decreasing sequence everything is equal. */
  lemma Squeeze(s: seq<char>, lo: nat, hi: nat)
    requires NonDecreasing(s) && lo < hi < |s| && s[lo] == s[hi]
    ensures s[lo] == s[lo + 1]
  {
    assert s[lo] <= s[lo + 1];
    if lo + 1 < hi {
      assert s[lo + 1] <= s[hi];
    }
  }

  /** For non-decreasing digits, a repeated digit means two equal neighbours, and back. */
  lemma RepeatIffAdjacent(s: seq<char>)
    requires NonDecreasing(s)
    ensures HasRepeat(s) <==> exists i :: 0 <= i < |s| - 1 && s[i] == s[i + 1]
  {
    if HasRepeat(s) {
      var i :| 0 <= i < |s| && Count(s, s[i]) > 1;
      RepeatAdjacent(s, i);
    }
    if exists i :: 0 <= i < |s| - 1 && s[i] == s[i + 1] {
      var i :| 0 <= i < |s| - 1 && s[i] == s[i + 1];
      AdjacentRepeat(s, i);
    }
  }

  /** A digit counted exactly twice is counted more than once: an exact pair is a repeat. */
  lemma PairIsRepeat(s: seq<char>)
    ensures HasExactPair(s) ==> HasRepeat(s)
  {
  }

  /** Part 2 never counts more than part 1, and part 1 no more than the numbers in the range. */
  lemma {:induction false} CountBounds(lo: nat, hi: nat)
    ensures PairCount(lo, hi) <= ValidCount(lo, hi)
    ensures hi >= lo ==> ValidCount(lo, hi) <= hi - lo
    ensures hi < lo ==> ValidCount(lo, hi) == 0
    decreases hi
  {
    if hi > lo {
      CountBounds(lo, hi - 1);
    }
  }

  /** 111111 passes part 1. */
  lemma AllOnesValid()
    ensures NonDecreasing("111111") && HasRepeat("111111")
  {
    var a := "111111";
    assert forall k :: 0 <= k < |a| ==> a[k] == '1';
    ConstantNonDecreasing(a, '1');
    AdjacentRepeat(a, 0);
  }

  /** A sequence of one repeated element is non-decreasing. */
  lemma ConstantNonDecreasing(s: seq<char>, c: char)
    requires forall k :: 0 <= k < |s| ==> s[k] == c
    ensures NonDecreasing(s)
  {
  }

  /** 223450 decreases at its last digit. */
  lemma DecreasingInvalid()
    ensures !NonDecreasing("223450")
  {
    assert "223450"[4] > "223450"[5];
  }

  /** 123789 repeats no digit. */
  lemma NoRepeatInvalid()
    ensures !HasRepeat("123789")
  {
    forall i | 0 <= i < 6
      ensures Count("123789", "123789"[i]) == 1
    {
      SingleDigit(i);
    }
  }

  lemma SingleDigit(i: nat)
    requires i < 6
    ensures Count("123789", "123789"[i]) == 1
  {
    var a := "123789";
    var m := multiset{'1', '2', '3', '7', '8', '9'};
    assert multiset(a) == m;
    assert a[i] in {'1', '2', '3', '7', '8', '9'};
  }

  /** 112233 has an exact pair. */
  lemma PairsExample()
    ensures HasExactPair("112233")
  {
    var a := "112233";
    assert multiset(a) == multiset{'1', '1', '2', '2', '3', '3'};
    assert Count(a, a[0]) == 2;
  }

  /** 123444 has no exact pair: its repeat is a triple. */
  lemma TripleExample()
    ensures !HasExactPair("123444")
  {
    var a := "123444";
    assert forall i :: 0 <= i < |a| ==> multiset(a)[a[i]] != 2 by {
      TripleCounts();
      forall i | 0 <= i < |a|
        ensures multiset(a)[a[i]] != 2
      {
        assert a[i] == '1' || a[i] == '2' || a[i] == '3' || a[i] == '4';
      }
    }
    NoExactPair(a);
  }

  /** No digit occurring exactly twice means no exact pair. */
  lemma NoExactPair(s: seq<char>)
    requires forall i :: 0 <= i < |s| ==> multiset(s)[s[i]] != 2
    ensures !HasExactPair(s)
  {
  }

  /** The multiplicities of the digits of 123444. */
  lemma TripleCounts()
    ensures var m := multiset("123444"); m['1'] == 1 && m['2'] == 1 && m['3'] == 1 && m['4'] == 3
  {
    assert "123444" == ['1', '2', '3', '4', '4', '4'];
  }

  /** 123444 still passes part 1's repeat rule. */
  lemma TripleRepeats()
    ensures HasRepeat("123444")
  {
    var a := "123444";
    assert multiset(a)['4'] == 3 by {
      assert a == ['1', '2', '3', '4', '4', '4'];
    }
    assert Count(a, a[5]) == 3;
  }
}

/**
 * The flawed frequency transmission of d16: the full transform `fft`, whose
 * digit k is the absolute value, mod 10, of the signal weighted by a
 * repeating pattern, and `fft2`, the suffix-sum shortcut that agrees with it
 * on the back half of the signal. `vec2int` and the construction of the
 * ten-thousand-fold signal in `main` are here too.
 *
 * Signals are vectors of bytes; accumulators are unbounded integers (the
 * source's i32 and usize are not modelled as wrapping).
 */
module Fft {
  import opened Wrappers
  import opened Numbers

  /** An element of the source's `Vec<u8>`. */
  type Byte = x: int | 0 <= x < 256

  /** How many copies of the signal part 2 works on. */
  const Copies: nat := 10000

  /** How many phases both parts run. */
  const Passes: nat := 100

  /** The sum of a slice, as `.iter().map(|&x| x as i32).sum()`. */
  function Sum(s: seq<int>): (r: int)
    ensures (forall i :: 0 <= i < |s| ==> s[i] >= 0) ==> r >= 0
  {
    if s == [] then 0 else s[0] + Sum(s[1..])
  }

  /** The value of the 0, 1, 0, -1 base pattern at block number `r % 4`, skipping the first 0. */
  function Sign(r: int): (v: int)
    ensures -1 <= v <= 1
  {
    if r == 0 then 1 else if r == 2 then -1 else 0
  }

  /**
   * The pattern weight of input position `j` for output position `k`: zero
   * before `k`, then blocks of length `k + 1` weighted +1, 0, -1, 0 in turn.
   */
  function Pattern(k: nat, j: nat): (v: int)
    ensures -1 <= v <= 1
    ensures j < k ==> v == 0
  {
    if j < k then 0 else Sign(((j - k) / (k + 1)) % 4)
  }

  /** The sum of `Pattern(k, j) * s[j]` over the first `m` positions. */
  function Weighted(s: seq<int>, k: nat, m: nat): int
    requires m <= |s|
    decreases m
  {
    if m == 0 then 0 else Weighted(s, k, m - 1) + Pattern(k, m - 1) * s[m - 1]
  }

  /** One phase of `fft`: digit k is the last digit of the weighted sum for k. */
  function FftPhase(s: seq<Byte>): (r: seq<Byte>)
    ensures |r| == |s|
    ensures forall k :: 0 <= k < |r| ==> r[k] <= 9
  {
    seq(|s|, k requires 0 <= k < |s| => Abs(Weighted(s, k, |s|)) % 10)
  }

  /** `fft(signal, passes)`: `passes` phases one after the other. */
  function FftSpec(s: seq<Byte>, passes: nat): (r: seq<Byte>)
    ensures |r| == |s|
    ensures passes == 0 ==> r == s
    ensures passes > 0 ==> forall k :: 0 <= k < |r| ==> r[k] <= 9
  {
    if passes == 0 then s else FftPhase(FftSpec(s, passes - 1))
  }

  /** One phase of `fft2`: digit i is the last digit of the sum of `s[i..]`. */
  function Fft2Phase(s: seq<Byte>): (r: seq<Byte>)
    ensures |r| == |s|
    ensures forall i :: 0 <= i < |r| ==> r[i] <= 9
  {
    seq(|s|, i requires 0 <= i < |s| => Abs(Sum(s[i..])) % 10)
  }

  /** `fft2(signal, passes)`. */
  function Fft2Spec(s: seq<Byte>, passes: nat): (r: seq<Byte>)
    ensures |r| == |s|
    ensures passes == 0 ==> r == s
    ensures passes > 0 ==> forall k :: 0 <= k < |r| ==> r[k] <= 9
  {
    if passes == 0 then s else Fft2Phase(Fft2Spec(s, passes - 1))
  }

  /** `fft`: `passes` phases, each written into a clone of the signal. */
  method Fft(signal: seq<Byte>, passes: nat) returns (r: seq<Byte>)
    ensures r == FftSpec(signal, passes)
  {
    var sig := signal;
    for p := 0 to passes
      invariant sig == FftSpec(signal, p)
    {
      sig := FftPass(sig);
    }
    r := sig;
  }

  /** The body of the pass loop of `fft`: `output[oid]` for each `oid` in turn. */
  method FftPass(sig: seq<Byte>) returns (r: seq<Byte>)
    ensures r == FftPhase(sig)
  {
    var n := |sig|;
    var output := new Byte[n](j requires 0 <= j < n => sig[j]);
    for oid := 0 to n
      invariant forall j :: 0 <= j < oid ==> output[j] == Abs(Weighted(sig, j, n)) % 10
    {
      var res := PatternSum(sig, oid);
      output[oid] := Abs(res) % 10;
    }
    r := output[..];
  }

  /** The `while` loop of `fft`: alternately add and subtract blocks of `oid + 1` elements. */
  method PatternSum(sig: seq<Byte>, oid: nat) returns (res: int)
    requires oid < |sig|
    ensures res == Weighted(sig, oid, |sig|)
  {
    var n := |sig|;
    var i := oid;
    var psize := oid + 1;
    res := 0;
    ghost var b: nat := 0;
    ghost var q: nat := 0;
    WeightedBelow(sig, oid, oid);
    while i < n
      invariant i == oid + b * psize && b == 4 * q
      invariant res == Weighted(sig, oid, Min(i, n))
      decreases n - i
    {
      assert Weighted(sig, oid, Min(i + psize * 2, n)) == res + Sum(sig[i..Min(n, psize + i)]) by {
        AddBlock(sig, oid, psize, b, q, i);
      }
      assert i + psize * 2 == oid + (b + 2) * psize by {
        MulNext(b, psize);
      }
      res := res + Sum(sig[i..Min(n, psize + i)]);
      i := i + psize * 2;
      b := b + 2;
      if i >= n {
        break;
      }
      assert Weighted(sig, oid, Min(i + psize * 2, n)) == res - Sum(sig[i..Min(n, psize + i)]) by {
        SubtractBlock(sig, oid, psize, b, q, i);
      }
      assert i + psize * 2 == oid + (b + 2) * psize by {
        MulNext(b, psize);
      }
      res := res - Sum(sig[i..Min(n, psize + i)]);
      i := i + psize * 2;
      b := b + 2;
      q := q + 1;
    }
  }

  /** `fft2`: `passes` phases, each written into a clone of the signal. */
  method Fft2(signal: seq<Byte>, passes: nat) returns (r: seq<Byte>)
    ensures r == Fft2Spec(signal, passes)
  {
    var sig := signal;
    for p := 0 to passes
      invariant sig == Fft2Spec(signal, p)
    {
      sig := Fft2Pass(sig);
    }
    r := sig;
  }

  /** The body of the pass loop of `fft2`: one scan from the back with a running sum. */
  method Fft2Pass(sig: seq<Byte>) returns (r: seq<Byte>)
    ensures r == Fft2Phase(sig)
  {
    var n := |sig|;
    var output := new Byte[n](j requires 0 <= j < n => sig[j]);
    var res: int := 0;
    for oid := 0 to n
      invariant res == Sum(sig[n - oid..])
      invariant forall j :: n - oid <= j < n ==> output[j] == Abs(Sum(sig[j..])) % 10
    {
      var i := n - oid - 1;
      assert Sum(sig[i..]) == sig[i] + Sum(sig[i + 1..]) by {
        assert sig[i..][1..] == sig[i + 1..];
      }
      res := res + sig[i];
      output[i] := Abs(res) % 10;
    }
    r := output[..];
  }

  /** The sum of `v[j] * 10^(|v| - j - 1)` over the first `i` positions. */
  function Placed(v: seq<Byte>, i: nat): nat
    requires i <= |v|
  {
    if i == 0 then 0 else Placed(v, i - 1) + v[i - 1] * Pow10(|v| - i)
  }

  /** The first digit's place value bounds every non-empty prefix sum from below. */
  lemma {:induction false} PlacedLeading(v: seq<Byte>, i: nat)
    requires 0 < i <= |v|
    ensures Placed(v, i) >= v[0] * Pow10(|v| - 1)
  {
    if i > 1 {
      PlacedLeading(v, i - 1);
      var t: nat := v[i - 1] * Pow10(|v| - i);
      assert Placed(v, i) == Placed(v, i - 1) + t;
    }
  }

  /** The number whose decimal digits, most significant first, are `v`. */
  function DecimalValue(v: seq<Byte>): (r: nat)
    ensures |v| > 0 ==> r >= v[0] * Pow10(|v| - 1)
  {
    if v == [] then 0
    else
      PlacedLeading(v, |v|);
      Placed(v, |v|)
  }

  /** `vec2int`. */
  method Vec2Int(v: seq<Byte>) returns (r: nat)
    ensures r == DecimalValue(v)
  {
    r := 0;
    var l := |v|;
    for i := 0 to l
      invariant r == Placed(v, i)
    {
      r := r + v[i] * Pow10(l - i - 1);
    }
  }

  /** `c` copies of `s`, one after the other. */
  function Repeat(s: seq<Byte>, c: nat): (r: seq<Byte>)
    ensures |r| == c * |s|
  {
    if c == 0 then []
    else
      assert (c - 1) * |s| + |s| == c * |s|;
      Repeat(s, c - 1) + s
  }

  /**
   * The `bigsignal` loop: `append` moves all of `s` on the first inner pass
   * and nothing afterwards, so each outer pass adds one copy.
   */
  method BigSignal(signal: seq<Byte>) returns (big: seq<Byte>)
    ensures big == Repeat(signal, Copies)
  {
    big := [];
    for c := 0 to Copies
      invariant big == Repeat(signal, c)
    {
      var s := signal;
      for j := 0 to |signal|
        invariant j == 0 ==> s == signal && big == Repeat(signal, c)
        invariant j > 0 ==> s == [] && big == Repeat(signal, c + 1)
      {
        big := big + s;
        s := [];
      }
    }
  }

  /** The message offset of part 2: the first seven digits read as a number. */
  function Offset(signal: seq<Byte>): (o: nat)
    requires |signal| >= 7
    ensures (forall i :: 0 <= i < 7 ==> signal[i] <= 9) ==> o < Pow10(7)
  {
    var head := signal[..7];
    if forall i :: 0 <= i < 7 ==> signal[i] <= 9 then
      DecimalBound(head);
      DecimalValue(head)
    else DecimalValue(head)
  }

  /** Part 1; `None` where `p1[0..8]` would panic. */
  function Part1Spec(signal: seq<Byte>): (r: Option<nat>)
    ensures r.Some? <==> |signal| >= 8
    ensures r.Some? ==> r.value < Pow10(8)
  {
    var p1 := FftSpec(signal, Passes);
    if |p1| < 8 then None
    else
      DecimalBound(p1[..8]);
      Some(DecimalValue(p1[..8]))
  }

  /** Part 2; `None` where `signal[0..7]`, `drain(0..offset)` or `p2[0..8]` would panic. */
  function Part2Spec(signal: seq<Byte>): (r: Option<nat>)
    ensures |signal| < 7 ==> r.None?
    ensures r.Some? ==> r.value < Pow10(8)
  {
    if |signal| < 7 then None
    else
      var big := Repeat(signal, Copies);
      if Offset(signal) > |big| then None
      else
        var p2 := Fft2Spec(big[Offset(signal)..], Passes);
        if |p2| < 8 then None
        else
          DecimalBound(p2[..8]);
          Some(DecimalValue(p2[..8]))
  }

  /** The first half of `main`. */
  method Part1(signal: seq<Byte>) returns (r: Option<nat>)
    ensures r == Part1Spec(signal)
  {
    var p1 := Fft(signal, Passes);
    if |p1| < 8 {
      return None;
    }
    var v := Vec2Int(p1[..8]);
    return Some(v);
  }

  /** The second half of `main`: build, drain the offset, run `fft2`. */
  method Part2(signal: seq<Byte>) returns (r: Option<nat>)
    ensures r == Part2Spec(signal)
  {
    var big := BigSignal(signal);
    if |signal| < 7 {
      return None;
    }
    var offset := Vec2Int(signal[..7]);
    if offset > |big| {
      return None;
    }
    big := big[offset..];
    var p2 := Fft2(big, Passes);
    if |p2| < 8 {
      return None;
    }
    var v := Vec2Int(p2[..8]);
    return Some(v);
  }

  // ---------------------------------------------------------------------
  // Facts about the sums and the pattern
  // ---------------------------------------------------------------------

  lemma {:induction false} SumConcat(a: seq<int>, b: seq<int>)
    ensures Sum(a + b) == Sum(a) + Sum(b)
  {
    if a == [] {
      assert a + b == b;
    } else {
      assert (a + b)[1..] == a[1..] + b;
      SumConcat(a[1..], b);
    }
  }

  lemma SumSnoc(s: seq<int>, lo: nat, hi: nat)
    requires lo < hi <= |s|
    ensures Sum(s[lo..hi]) == Sum(s[lo..hi - 1]) + s[hi - 1]
  {
    assert s[lo..hi] == s[lo..hi - 1] + [s[hi - 1]];
    SumConcat(s[lo..hi - 1], [s[hi - 1]]);
  }

  /** No position before `k` contributes to output `k`. */
  lemma {:induction false} WeightedBelow(s: seq<int>, k: nat, m: nat)
    requires m <= |s| && m <= k
    ensures Weighted(s, k, m) == 0
  {
    if m > 0 {
      WeightedBelow(s, k, m - 1);
    }
  }

  /** Over a run of positions with one weight `c`, the weighted sum grows by `c` times their sum. */
  lemma {:induction false} WeightedRun(s: seq<int>, k: nat, lo: nat, hi: nat, c: int)
    requires lo <= hi <= |s|
    requires forall j :: lo <= j < hi ==> Pattern(k, j) == c
    ensures Weighted(s, k, hi) == Weighted(s, k, lo) + c * Sum(s[lo..hi])
    decreases hi
  {
    if hi == lo {
      assert s[lo..hi] == [];
    } else {
      var t := Sum(s[lo..hi - 1]);
      assert Weighted(s, k, hi - 1) == Weighted(s, k, lo) + c * t by {
        WeightedRun(s, k, lo, hi - 1, c);
      }
      assert Sum(s[lo..hi]) == t + s[hi - 1] by {
        SumSnoc(s, lo, hi);
      }
      assert Weighted(s, k, hi) == Weighted(s, k, hi - 1) + c * s[hi - 1];
      assert c * (t + s[hi - 1]) == c * t + c * s[hi - 1];
    }
  }

  /** Block `b` of output `k` starts at `k + b * (k + 1)` and has weight `Sign(b % 4)`. */
  lemma BlockIndex(k: nat, b: nat, lo: nat, j: nat)
    requires lo == k + b * (k + 1)
    requires lo <= j < lo + k + 1
    ensures Pattern(k, j) == Sign(b % 4)
  {
    DivUnique(j - k, k + 1, b, j - lo);
  }

  lemma MulNext(b: nat, w: nat)
    ensures (b + 1) * w == b * w + w
    ensures (b + 2) * w == b * w + w * 2
  {
  }

  /** Positions `lo .. hi` all lie in block `b` of output `k`, so they all have weight `Sign(b % 4)`. */
  lemma BlockRun(s: seq<int>, k: nat, b: nat, lo: nat, hi: nat)
    requires lo == k + b * (k + 1)
    requires lo <= hi <= |s| && hi <= lo + k + 1
    ensures Weighted(s, k, hi) == Weighted(s, k, lo) + Sign(b % 4) * Sum(s[lo..hi])
  {
    forall j | lo <= j < hi
      ensures Pattern(k, j) == Sign(b % 4)
    {
      BlockIndex(k, b, lo, j);
    }
    WeightedRun(s, k, lo, hi, Sign(b % 4));
  }

  /**
   * What one half of the `while` body of `fft` adds: an even block `b`
   * starting at `lo`, truncated to the signal, followed by a zero block.
   */
  lemma BlockPair(s: seq<int>, k: nat, b: nat, lo: nat)
    requires lo == k + b * (k + 1) && lo < |s|
    requires b % 4 == 0 || b % 4 == 2
    ensures Weighted(s, k, Min(lo + (k + 1) * 2, |s|))
      == Weighted(s, k, lo) + Sign(b % 4) * Sum(s[lo..Min(|s|, k + 1 + lo)])
    ensures lo + (k + 1) * 2 == k + (b + 2) * (k + 1)
  {
    var n := |s|;
    var mid := Min(n, k + 1 + lo);
    var end := Min(lo + (k + 1) * 2, n);
    assert lo + (k + 1) * 2 == k + (b + 2) * (k + 1) by {
      MulNext(b, k + 1);
    }
    assert Weighted(s, k, mid) == Weighted(s, k, lo) + Sign(b % 4) * Sum(s[lo..mid]) by {
      BlockRun(s, k, b, lo, mid);
    }
    var lo' := lo + k + 1;
    if lo' < end {
      assert Weighted(s, k, end) == Weighted(s, k, lo') by {
        assert lo' == k + (b + 1) * (k + 1) by {
          MulNext(b, k + 1);
        }
        OddBlock(b);
        BlockRun(s, k, b + 1, lo', end);
      }
    }
  }

  /** The block after an even one has weight 0. */
  lemma OddBlock(b: nat)
    requires b % 4 == 0 || b % 4 == 2
    ensures Sign((b + 1) % 4) == 0
  {
  }

  /** The first half of the `while` body of `fft`: a block weighted +1, then a zero block. */
  lemma AddBlock(s: seq<int>, k: nat, w: nat, b: nat, q: nat, lo: nat)
    requires w == k + 1 && lo == k + b * w && lo < |s| && b == 4 * q
    ensures Weighted(s, k, Min(lo + w * 2, |s|)) == Weighted(s, k, Min(lo, |s|)) + Sum(s[lo..Min(|s|, w + lo)])
  {
    DivUnique(b, 4, q, b - 4 * q);
    BlockPair(s, k, b, lo);
  }

  /** The second half of the `while` body of `fft`: a block weighted -1, then a zero block. */
  lemma SubtractBlock(s: seq<int>, k: nat, w: nat, b: nat, q: nat, lo: nat)
    requires w == k + 1 && lo == k + b * w && lo < |s| && b == 4 * q + 2
    ensures Weighted(s, k, Min(lo + w * 2, |s|)) == Weighted(s, k, Min(lo, |s|)) - Sum(s[lo..Min(|s|, w + lo)])
  {
    DivUnique(b, 4, q, b - 4 * q);
    BlockPair(s, k, b, lo);
  }

  // ---------------------------------------------------------------------
  // Properties of the transforms
  // ---------------------------------------------------------------------

  /** Output `k` of a phase depends only on `s[k..]`: the scan starts at `i = oid`. */
  lemma FftPhaseLocal(s: seq<Byte>, t: seq<Byte>, k: nat)
    requires |s| == |t| && k < |s|
    requires s[k..] == t[k..]
    ensures FftPhase(s)[k] == FftPhase(t)[k]
  {
    WeightedSuffix(s, t, k, |s|);
  }

  lemma {:induction false} WeightedSuffix(s: seq<int>, t: seq<int>, k: nat, m: nat)
    requires |s| == |t| && k <= |s| && m <= |s|
    requires s[k..] == t[k..]
    ensures Weighted(s, k, m) == Weighted(t, k, m)
  {
    if m > 0 {
      WeightedSuffix(s, t, k, m - 1);
      if m - 1 >= k {
        assert s[m - 1] == s[k..][m - 1 - k] == t[k..][m - 1 - k] == t[m - 1];
      }
    }
  }

  /**
   * On the back half (`2k + 1 >= |s|`) the pattern from `k` on is all ones,
   * so one `fft` phase and one `fft2` phase give the same digit there.
   */
  lemma PhasesAgree(s: seq<Byte>, k: nat)
    requires k < |s| && 2 * k + 1 >= |s|
    ensures FftPhase(s)[k] == Fft2Phase(s)[k]
  {
    var n := |s|;
    forall j | k <= j < n
      ensures Pattern(k, j) == 1
    {
      BlockIndex(k, 0, k, j);
    }
    WeightedBelow(s, k, k);
    WeightedRun(s, k, k, n, 1);
    assert s[k..n] == s[k..];
  }

  /** The same agreement for a whole suffix starting in the back half. */
  lemma PhaseTail(s: seq<Byte>, k: nat)
    requires k <= |s| && 2 * k + 1 >= |s|
    ensures FftPhase(s)[k..] == Fft2Phase(s[k..])
  {
    var a := FftPhase(s)[k..];
    var b := Fft2Phase(s[k..]);
    forall i | 0 <= i < |a|
      ensures a[i] == b[i]
    {
      PhasesAgree(s, k + i);
      assert s[k..][i..] == s[k + i..];
    }
  }

  /**
   * The part 2 shortcut: for an offset in the back half, `passes` phases of
   * `fft2` on the suffix are the suffix of `passes` phases of `fft`.
   */
  lemma {:induction false} TailShortcut(s: seq<Byte>, k: nat, passes: nat)
    requires k <= |s| && 2 * k + 1 >= |s|
    ensures FftSpec(s, passes)[k..] == Fft2Spec(s[k..], passes)
  {
    if passes > 0 {
      var t := FftSpec(s, passes - 1);
      var u := Fft2Spec(s[k..], passes - 1);
      assert t[k..] == u by {
        TailShortcut(s, k, passes - 1);
      }
      assert FftPhase(t)[k..] == Fft2Phase(u) by {
        PhaseTail(t, k);
      }
      assert FftSpec(s, passes) == FftPhase(t);
      assert Fft2Spec(s[k..], passes) == Fft2Phase(u);
    }
  }

  /** Part 2 reads eight digits of the full transform at the offset, when the offset is in the back half. */
  lemma Part2Shortcut(signal: seq<Byte>)
    requires |signal| >= 7
    requires 2 * Offset(signal) + 1 >= |Repeat(signal, Copies)|
    requires Offset(signal) + 8 <= |Repeat(signal, Copies)|
    ensures Part2Spec(signal)
      == Some(DecimalValue(FftSpec(Repeat(signal, Copies), Passes)[Offset(signal)..Offset(signal) + 8]))
  {
    var big := Repeat(signal, Copies);
    var o := Offset(signal);
    ShortcutDigits(big, o, Passes);
    assert Part2Spec(signal) == Some(DecimalValue(Fft2Spec(big[o..], Passes)[..8]));
  }

  /** The eight digits read after `fft2` on a back half are those of `fft` at the same place. */
  lemma ShortcutDigits(big: seq<Byte>, o: nat, passes: nat)
    requires 2 * o + 1 >= |big| && o + 8 <= |big|
    ensures Fft2Spec(big[o..], passes)[..8] == FftSpec(big, passes)[o..o + 8]
  {
    assert FftSpec(big, passes)[o..] == Fft2Spec(big[o..], passes) by {
      TailShortcut(big, o, passes);
    }
  }

  // ---------------------------------------------------------------------
  // vec2int and the repeated signal
  // ---------------------------------------------------------------------

  lemma {:induction false} PlacedShift(v: seq<Byte>, d: Byte, i: nat)
    requires i <= |v|
    ensures Placed(v + [d], i) == 10 * Placed(v, i)
  {
    if i > 0 {
      PlacedShift(v, d, i - 1);
      assert (v + [d])[i - 1] == v[i - 1];
      assert Pow10(|v| + 1 - i) == 10 * Pow10(|v| - i);
    }
  }

  /** Appending a digit multiplies by ten and adds it; the empty vector is 0. */
  lemma DecimalSnoc(v: seq<Byte>, d: Byte)
    ensures DecimalValue([]) == 0
    ensures DecimalValue(v + [d]) == 10 * DecimalValue(v) + d
  {
    PlacedShift(v, d, |v|);
    assert (v + [d])[|v|] == d;
  }

  /** A vector of `n` decimal digits has a value in `0 .. 10^n - 1`. */
  lemma {:induction false} DecimalBound(v: seq<Byte>)
    requires forall i :: 0 <= i < |v| ==> v[i] <= 9
    ensures DecimalValue(v) < Pow10(|v|)
    decreases |v|
  {
    if v != [] {
      var w := v[..|v| - 1];
      assert v == w + [v[|v| - 1]];
      DecimalBound(w);
      DecimalSnoc(w, v[|v| - 1]);
    }
  }

  /** Position `i` of the repeated signal holds `s[i % |s|]`. */
  lemma {:induction false} RepeatIndex(s: seq<Byte>, c: nat, i: nat)
    requires i < c * |s|
    ensures |s| > 0 && i < |Repeat(s, c)| && Repeat(s, c)[i] == s[i % |s|]
  {
    assert c * |s| == (c - 1) * |s| + |s|;
    if i < (c - 1) * |s| {
      RepeatIndex(s, c - 1, i);
    } else {
      DivUnique(i, |s|, c - 1, i - (c - 1) * |s|);
    }
  }
}

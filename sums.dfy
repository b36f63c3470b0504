/** Sums of real sequences, the `reduce((a, b) => a + b, 0)` of the source. */
module Sums {
  import Arith

  /** `Σ f(s[i])` */
  function SumOf(s: seq<real>, f: real -> real): real
  {
    if s == [] then 0.0 else f(s[0]) + SumOf(s[1..], f)
  }

  function Id(x: real): real { x }

  /** `Σ s[i]` */
  function Sum(s: seq<real>): real
  {
    SumOf(s, Id)
  }

  /** A sum over a concatenation is the sum of the two sums. */
  lemma {:induction false} SumOfConcat(a: seq<real>, b: seq<real>, f: real -> real)
    ensures SumOf(a + b, f) == SumOf(a, f) + SumOf(b, f)
  {
    if a == [] {
      assert a + b == b;
    } else {
      assert (a + b)[1..] == a[1..] + b;
      SumOfConcat(a[1..], b, f);
    }
  }

  /** Taking element `i` out of the sum. */
  lemma SumOfRemove(s: seq<real>, f: real -> real, i: nat)
    requires i < |s|
    ensures SumOf(s, f) == f(s[i]) + SumOf(s[..i] + s[i + 1..], f)
  {
    assert s == s[..i] + ([s[i]] + s[i + 1..]);
    SumOfConcat(s[..i], [s[i]] + s[i + 1..], f);
    SumOfConcat(s[..i], s[i + 1..], f);
    assert ([s[i]] + s[i + 1..])[1..] == s[i + 1..];
  }

  /** Removing the head of `a` and a matching element of `b` keeps two permutations permutations. */
  lemma PermutationTail<T>(a: seq<T>, b: seq<T>, i: nat)
    requires multiset(a) == multiset(b) && a != [] && i < |b| && b[i] == a[0]
    ensures multiset(a[1..]) == multiset(b[..i] + b[i + 1..])
  {
    var rest := b[..i] + b[i + 1..];
    assert b == b[..i] + [b[i]] + b[i + 1..];
    assert multiset(b) == multiset(rest) + multiset{b[i]};
    assert a == [a[0]] + a[1..];
    assert multiset(a) == multiset{a[0]} + multiset(a[1..]);
    calc {
      multiset(a[1..]);
      multiset(a) - multiset{a[0]};
      multiset(b) - multiset{b[i]};
      multiset(rest);
    }
  }

  /** A sum does not depend on the order of its terms. */
  lemma {:induction false} SumOfPermutation(a: seq<real>, b: seq<real>, f: real -> real)
    requires multiset(a) == multiset(b)
    ensures SumOf(a, f) == SumOf(b, f)
    decreases |a|
  {
    if a == [] {
      assert |b| == |multiset(b)| == 0;
    } else {
      assert a[0] in multiset(b);
      var i :| 0 <= i < |b| && b[i] == a[0];
      SumOfRemove(b, f, i);
      PermutationTail(a, b, i);
      SumOfPermutation(a[1..], b[..i] + b[i + 1..], f);
    }
  }

  /** Non-negative terms give a non-negative sum, and a positive one if some term is positive. */
  lemma {:induction false} SumOfNonNeg(s: seq<real>, f: real -> real)
    requires forall i :: 0 <= i < |s| ==> f(s[i]) >= 0.0
    ensures SumOf(s, f) >= 0.0
    ensures (exists i :: 0 <= i < |s| && f(s[i]) > 0.0) ==> SumOf(s, f) > 0.0
  {
    if s != [] {
      assert forall i :: 0 <= i < |s[1..]| ==> s[1..][i] == s[i + 1];
      SumOfNonNeg(s[1..], f);
      if exists i :: 0 <= i < |s| && f(s[i]) > 0.0 {
        var i :| 0 <= i < |s| && f(s[i]) > 0.0;
        if i > 0 {
          assert f(s[1..][i - 1]) > 0.0;
        }
      }
    }
  }

  /** Zero terms give a zero sum. */
  lemma {:induction false} SumOfZero(s: seq<real>, f: real -> real)
    requires forall i :: 0 <= i < |s| ==> f(s[i]) == 0.0
    ensures SumOf(s, f) == 0.0
  {
    if s != [] {
      assert forall i :: 0 <= i < |s[1..]| ==> s[1..][i] == s[i + 1];
      SumOfZero(s[1..], f);
    }
  }

  lemma SumPermutation(a: seq<real>, b: seq<real>)
    requires multiset(a) == multiset(b)
    ensures Sum(a) == Sum(b)
  {
    SumOfPermutation(a, b, Id);
  }

  /** A sequence of one repeated value sums to length times that value. */
  lemma {:induction false} SumConstant(s: seq<real>, c: real)
    requires forall i :: 0 <= i < |s| ==> s[i] == c
    ensures Sum(s) == |s| as real * c
  {
    if s != [] {
      SumConstant(s[1..], c);
    }
  }

  /** Termwise smaller sequences have smaller sums, strictly so when every term is and there is one. */
  lemma {:induction false} SumMonotone(s: seq<real>, t: seq<real>)
    requires |s| == |t| && forall i :: 0 <= i < |s| ==> s[i] <= t[i]
    ensures Sum(s) <= Sum(t)
    ensures s != [] && (forall i :: 0 <= i < |s| ==> s[i] < t[i]) ==> Sum(s) < Sum(t)
  {
    if s != [] {
      assert forall i :: 0 <= i < |s[1..]| ==> s[1..][i] == s[i + 1] && t[1..][i] == t[i + 1];
      SumMonotone(s[1..], t[1..]);
    }
  }

  /** Scaling every term scales the sum. */
  lemma {:induction false} SumScaled(s: seq<real>, k: real, t: seq<real>)
    requires |s| == |t| && forall i :: 0 <= i < |s| ==> t[i] == k * s[i]
    ensures Sum(t) == k * Sum(s)
  {
    if s != [] {
      assert forall i :: 0 <= i < |s[1..]| ==> s[1..][i] == s[i + 1] && t[1..][i] == t[i + 1];
      SumScaled(s[1..], k, t[1..]);
      var head, rest, total := s[0], Sum(s[1..]), Sum(s);
      assert total == head + rest;
      Arith.Distribute(k, head, rest, total);
    }
  }

  /** A sum of terms in `[lo, hi]` lies between `|s| * lo` and `|s| * hi`. */
  lemma {:induction false} SumBounds(s: seq<real>, lo: real, hi: real)
    requires forall i :: 0 <= i < |s| ==> lo <= s[i] <= hi
    ensures |s| as real * lo <= Sum(s) <= |s| as real * hi
  {
    if s != [] {
      SumBounds(s[1..], lo, hi);
    }
  }
}

/** Small facts of real arithmetic that the solver does not find unaided. */
module Arith {

  lemma SqPos(x: real)
    requires x != 0.0
    ensures x * x > 0.0
  {
    if x > 0.0 {
      MulPos(x, x);
    } else {
      MulPos(-x, -x);
    }
  }

  lemma SqNonNeg(x: real)
    ensures x * x >= 0.0
  {
    if x != 0.0 {
      SqPos(x);
    }
  }

  lemma MulPos(a: real, b: real)
    requires a > 0.0 && b > 0.0
    ensures a * b > 0.0
  {
  }

  lemma MulNonNeg(a: real, b: real)
    requires a >= 0.0 && b >= 0.0
    ensures a * b >= 0.0
  {
  }

  lemma Distribute(k: real, x: real, y: real, sum: real)
    requires sum == x + y
    ensures k * sum == k * x + k * y
  {
  }

  lemma MulBetween(p: real, w: real, lo: real, hi: real)
    requires w >= 0.0 && lo <= p <= hi
    ensures lo * w <= p * w <= hi * w
  {
    MulNonNeg(p - lo, w);
    MulNonNeg(hi - p, w);
  }

  lemma MulInUnit(pw: real, p: real, w: real)
    requires pw == p * w && w > 0.0 && 0.0 < p < 1.0
    ensures 0.0 < pw < w
  {
    MulPos(p, w);
    var q := 1.0 - p;
    MulPos(q, w);
    assert q * w == w - pw;
  }

  /** Scaling by a positive total keeps the order of two values. */
  lemma ScaledOrder(x: real, y: real, t: real, xt: real, yt: real)
    requires t > 0.0 && xt == x * t && yt == y * t
    ensures x > y <==> xt > yt
  {
    var gap := x - y;
    var scaledGap := gap * t;
    MulDistributes(gap, x, y, t, scaledGap, xt, yt);
    if gap > 0.0 {
      MulPos(gap, t);
    } else {
      MulNonNeg(-gap, t);
      assert (-gap) * t == -scaledGap;
    }
  }

  /** The scaled difference of two values is the difference of the scaled values. */
  lemma MulDistributes(gap: real, x: real, y: real, t: real, scaledGap: real, xt: real, yt: real)
    requires gap == x - y && scaledGap == gap * t && xt == x * t && yt == y * t
    ensures scaledGap == xt - yt
  {
  }

  lemma DivInUnit(num: real, den: real)
    requires 0.0 < num < den
    ensures 0.0 < num / den < 1.0
  {
    MulPos(num, 1.0 / den);
    assert num / den == num * (1.0 / den);
    MulPos(den - num, 1.0 / den);
    assert 1.0 - num / den == (den - num) * (1.0 / den);
  }

  lemma DivBounds(num: real, den: real, lo: real, hi: real)
    requires den > 0.0 && lo * den <= num <= hi * den
    ensures lo <= num / den <= hi
  {
  }

  lemma DivDecreasing(a: real, b: real, c: real)
    requires a > 0.0 && 0.0 < b < c
    ensures a / b > a / c
  {
  }
}

/**
 * The stable `Array.prototype.sort` of JavaScript for a comparator `(a, b) => key(b) - key(a)`:
 * highest key first, and elements with equal keys keep their input order.
 */
module Sorting {

  predicate SortedDesc<T>(s: seq<T>, key: T -> real)
  {
    forall i, j :: 0 <= i < j < |s| ==> key(s[i]) >= key(s[j])
  }

  /** Puts `x` in front of the first element of `s` whose key is not above its own. */
  function Insert<T>(x: T, s: seq<T>, key: T -> real): (r: seq<T>)
    ensures |r| == |s| + 1
  {
    if s == [] || key(x) >= key(s[0]) then [x] + s else [s[0]] + Insert(x, s[1..], key)
  }

  /** Inserting adds `x` and loses nothing. */
  lemma {:induction false} InsertPerm<T>(x: T, s: seq<T>, key: T -> real)
    ensures multiset(Insert(x, s, key)) == multiset(s) + multiset{x}
  {
    if s != [] && key(x) < key(s[0]) {
      InsertPerm(x, s[1..], key);
      assert s == [s[0]] + s[1..];
    }
  }

  lemma {:induction false} InsertSorted<T>(x: T, s: seq<T>, key: T -> real)
    requires SortedDesc(s, key)
    ensures SortedDesc(Insert(x, s, key), key)
  {
    if s != [] && key(x) < key(s[0]) {
      var t := Insert(x, s[1..], key);
      InsertSorted(x, s[1..], key);
      InsertPerm(x, s[1..], key);
      forall k | 0 <= k < |t| ensures key(t[k]) <= key(s[0]) {
        assert t[k] in multiset(t);
        if t[k] != x {
          assert t[k] in multiset(s[1..]);
          var m :| 0 <= m < |s[1..]| && s[1..][m] == t[k];
          assert s[m + 1] == t[k];
        }
      }
    }
  }

  /** The elements of `s` whose key is `k`, in their order in `s`. */
  function WithKey<T>(s: seq<T>, key: T -> real, k: real): seq<T>
  {
    if s == [] then [] else (if key(s[0]) == k then [s[0]] else []) + WithKey(s[1..], key, k)
  }

  /** Dropping the first element of a concatenation drops it from the first part. */
  lemma TailOfConcat<T>(a: seq<T>, b: seq<T>)
    requires a != []
    ensures (a + b)[0] == a[0] && (a + b)[1..] == a[1..] + b
  {
  }

  lemma {:induction false} WithKeyAppend<T>(a: seq<T>, b: seq<T>, key: T -> real, k: real)
    ensures WithKey(a + b, key, k) == WithKey(a, key, k) + WithKey(b, key, k)
  {
    if a != [] {
      var head := if key(a[0]) == k then [a[0]] else [];
      TailOfConcat(a, b);
      assert WithKey(a + b, key, k) == head + WithKey(a[1..] + b, key, k);
      WithKeyAppend(a[1..], b, key, k);
      assert head + (WithKey(a[1..], key, k) + WithKey(b, key, k))
          == (head + WithKey(a[1..], key, k)) + WithKey(b, key, k);
    } else {
      assert a + b == b;
    }
  }

  /** Inserting `x` puts it before every element that has its key. */
  lemma {:induction false} InsertWithKey<T>(x: T, s: seq<T>, key: T -> real, k: real)
    ensures WithKey(Insert(x, s, key), key, k) == (if key(x) == k then [x] else []) + WithKey(s, key, k)
  {
    var r := Insert(x, s, key);
    if s == [] || key(x) >= key(s[0]) {
      assert r[0] == x && r[1..] == s;
    } else {
      assert r[0] == s[0] && r[1..] == Insert(x, s[1..], key);
      InsertWithKey(x, s[1..], key, k);
    }
  }

  /** The sort is stable: elements with equal keys come out in their input order. */
  lemma {:induction false} SortDescStable<T>(s: seq<T>, key: T -> real, k: real)
    ensures WithKey(SortDesc(s, key), key, k) == WithKey(s, key, k)
  {
    if s != [] {
      SortDescStable(s[1..], key, k);
      InsertWithKey(s[0], SortDesc(s[1..], key), key, k);
    }
  }

  /** Insertion sort: the stable descending order of `s`. */
  function SortDesc<T>(s: seq<T>, key: T -> real): (r: seq<T>)
    ensures |r| == |s|
  {
    if s == [] then [] else Insert(s[0], SortDesc(s[1..], key), key)
  }

  /** The sort returns a sorted permutation of its input. */
  lemma {:induction false} SortDescSpec<T>(s: seq<T>, key: T -> real)
    ensures multiset(SortDesc(s, key)) == multiset(s)
    ensures SortedDesc(SortDesc(s, key), key)
  {
    if s != [] {
      var rest := SortDesc(s[1..], key);
      SortDescSpec(s[1..], key);
      InsertPerm(s[0], rest, key);
      InsertSorted(s[0], rest, key);
      assert s == [s[0]] + s[1..];
    }
  }

  /** The head of `Insert(x, s)` is `x` unless the head of `s` has a strictly larger key. */
  lemma InsertHead<T>(x: T, s: seq<T>, key: T -> real)
    ensures Insert(x, s, key)[0] == if s == [] || key(x) >= key(s[0]) then x else s[0]
  {
  }

  /** No input element has a larger key than the head of the sorted sequence. */
  lemma HeadIsMax<T>(s: seq<T>, key: T -> real)
    requires s != []
    ensures forall j :: 0 <= j < |s| ==> key(s[j]) <= key(SortDesc(s, key)[0])
  {
    var r := SortDesc(s, key);
    SortDescSpec(s, key);
    forall j | 0 <= j < |s| ensures key(s[j]) <= key(r[0]) {
      assert s[j] in multiset(r);
      var m :| 0 <= m < |r| && r[m] == s[j];
    }
  }

  /**
   * The first element of the sorted sequence is the FIRST element of the input that has the
   * largest key (this is what `.sort(...)[0]` picks, the sort being stable).
   */
  lemma {:induction false} SortHead<T>(s: seq<T>, key: T -> real) returns (i: nat)
    requires s != []
    ensures i < |s| && SortDesc(s, key)[0] == s[i]
    ensures forall j :: 0 <= j < |s| ==> key(s[j]) <= key(s[i])
    ensures forall j :: 0 <= j < i ==> key(s[j]) < key(s[i])
  {
    i := SortHeadFirst(s, key);
    HeadIsMax(s, key);
  }

  /** The head of the sorted sequence is input element `i`, and every earlier one has a smaller key. */
  lemma {:induction false} SortHeadFirst<T>(s: seq<T>, key: T -> real) returns (i: nat)
    requires s != []
    ensures i < |s| && SortDesc(s, key)[0] == s[i]
    ensures forall j :: 0 <= j < i ==> key(s[j]) < key(s[i])
  {
    var rest := SortDesc(s[1..], key);
    InsertHead(s[0], rest, key);
    if rest == [] || key(s[0]) >= key(rest[0]) {
      i := 0;
    } else {
      var i' := SortHeadFirst(s[1..], key);
      i := i' + 1;
      EarlierSmaller(s, key, i');
    }
  }

  lemma EarlierSmaller<T>(s: seq<T>, key: T -> real, i': nat)
    requires i' + 1 < |s| && key(s[0]) < key(s[i' + 1])
    requires forall j :: 0 <= j < i' ==> key(s[1..][j]) < key(s[1..][i'])
    ensures forall j :: 0 <= j < i' + 1 ==> key(s[j]) < key(s[i' + 1])
  {
    forall j | 0 < j < i' + 1 ensures key(s[j]) < key(s[i' + 1]) {
      assert s[j] == s[1..][j - 1];
    }
  }

  /** The first `n` elements of a sorted sequence are sorted and are some of its elements. */
  lemma TakeSorted<T>(s: seq<T>, key: T -> real, n: nat)
    requires SortedDesc(s, key) && n <= |s|
    ensures SortedDesc(s[..n], key)
    ensures multiset(s[..n]) <= multiset(s)
  {
    assert s == s[..n] + s[n..];
  }
}

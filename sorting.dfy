/**
 * Python's `list.sort(key=f, reverse=True)`: a stable sort into non-increasing key order.
 * Items with equal keys keep their original relative order, which is what Python guarantees
 * for `reverse=True` as well.  The crawlers use it to rank companies by number of emails
 * and, in the JobKorea card parser, to order the link texts of a card by length.
 */
module Sorting {

  /** Keys never increase along `s`. */
  ghost predicate SortedDesc<T>(s: seq<T>, key: T -> nat)
  {
    forall i, j :: 0 <= i < j < |s| ==> key(s[i]) >= key(s[j])
  }

  /** The items of `s` whose key is `k`, in order. */
  function WithKey<T>(s: seq<T>, key: T -> nat, k: nat): seq<T>
    decreases |s|
  {
    if s == [] then [] else (if key(s[0]) == k then [s[0]] else []) + WithKey(s[1..], key, k)
  }

  /** Insert `x` after every item whose key is at least `key(x)`. */
  function Insert<T>(x: T, s: seq<T>, key: T -> nat): (r: seq<T>)
    ensures |r| == |s| + 1
    decreases |s|
  {
    if s == [] then [x]
    else if key(s[0]) < key(x) then [x] + s
    else [s[0]] + Insert(x, s[1..], key)
  }

  /** Insertion sort over the items in their original order. */
  function SortDesc<T>(s: seq<T>, key: T -> nat): (r: seq<T>)
    ensures |r| == |s|
    decreases |s|
  {
    if s == [] then [] else Insert(s[|s| - 1], SortDesc(s[..|s| - 1], key), key)
  }

  // ---------------------------------------------------------------- insertion

  /** Every key of `s` is at most `b`. */
  ghost predicate AllAtMost<T>(s: seq<T>, key: T -> nat, b: nat)
  {
    forall i :: 0 <= i < |s| ==> key(s[i]) <= b
  }

  lemma {:induction false} InsertAtMost<T>(x: T, s: seq<T>, key: T -> nat, b: nat)
    requires AllAtMost(s, key, b) && key(x) <= b
    ensures AllAtMost(Insert(x, s, key), key, b)
    decreases |s|
  {
    if s != [] && key(s[0]) >= key(x) {
      InsertAtMost(x, s[1..], key, b);
      var r := Insert(x, s[1..], key);
      forall i | 0 <= i < |[s[0]] + r| ensures key(([s[0]] + r)[i]) <= b {
        if i > 0 { assert ([s[0]] + r)[i] == r[i - 1]; }
      }
    } else if s != [] {
      forall i | 0 <= i < |[x] + s| ensures key(([x] + s)[i]) <= b {
        if i > 0 { assert ([x] + s)[i] == s[i - 1]; }
      }
    }
  }

  lemma {:induction false} InsertPerm<T>(x: T, s: seq<T>, key: T -> nat)
    ensures multiset(Insert(x, s, key)) == multiset(s) + multiset{x}
    decreases |s|
  {
    if s != [] && key(s[0]) >= key(x) {
      InsertPerm(x, s[1..], key);
      assert s == [s[0]] + s[1..];
    }
  }

  lemma {:induction false} InsertSorted<T>(x: T, s: seq<T>, key: T -> nat)
    requires SortedDesc(s, key)
    ensures SortedDesc(Insert(x, s, key), key)
    decreases |s|
  {
    if s != [] && key(s[0]) >= key(x) {
      var t := s[1..];
      assert SortedDesc(t, key) by {
        forall i, j | 0 <= i < j < |t| ensures key(t[i]) >= key(t[j]) { assert t[i] == s[i + 1] && t[j] == s[j + 1]; }
      }
      assert AllAtMost(t, key, key(s[0])) by {
        forall i | 0 <= i < |t| ensures key(t[i]) <= key(s[0]) { assert t[i] == s[i + 1]; }
      }
      InsertSorted(x, t, key);
      InsertAtMost(x, t, key, key(s[0]));
      var r := Insert(x, t, key);
      forall i, j | 0 <= i < j < |[s[0]] + r| ensures key(([s[0]] + r)[i]) >= key(([s[0]] + r)[j]) {
        assert ([s[0]] + r)[j] == r[j - 1];
        if i > 0 { assert ([s[0]] + r)[i] == r[i - 1]; }
      }
    } else if s != [] {
      forall i, j | 0 <= i < j < |[x] + s| ensures key(([x] + s)[i]) >= key(([x] + s)[j]) {
        assert ([x] + s)[j] == s[j - 1];
        if i == 0 {
          if j - 1 > 0 { assert key(s[0]) >= key(s[j - 1]); }
        } else {
          assert ([x] + s)[i] == s[i - 1];
        }
      }
    }
  }

  lemma {:induction false} WithKeyConcat<T>(a: seq<T>, b: seq<T>, key: T -> nat, k: nat)
    ensures WithKey(a + b, key, k) == WithKey(a, key, k) + WithKey(b, key, k)
    decreases |a|
  {
    if a != [] {
      assert (a + b)[1..] == a[1..] + b;
      WithKeyConcat(a[1..], b, key, k);
    } else {
      assert a + b == b;
    }
  }

  lemma {:induction false} WithKeyNone<T>(s: seq<T>, key: T -> nat, k: nat)
    requires forall i :: 0 <= i < |s| ==> key(s[i]) != k
    ensures WithKey(s, key, k) == []
    decreases |s|
  {
    if s != [] { WithKeyNone(s[1..], key, k); }
  }

  /** Inserting into a sorted list puts `x` behind the earlier items of its own key. */
  lemma {:induction false} InsertWithKey<T>(x: T, s: seq<T>, key: T -> nat, k: nat)
    requires SortedDesc(s, key)
    ensures WithKey(Insert(x, s, key), key, k) == WithKey(s, key, k) + (if key(x) == k then [x] else [])
    decreases |s|
  {
    if s == [] {
    } else if key(s[0]) < key(x) {
      assert ([x] + s)[1..] == s;
      if key(x) == k {
        forall i | 0 <= i < |s| ensures key(s[i]) != k {
          if i > 0 { assert key(s[0]) >= key(s[i]); }
        }
        WithKeyNone(s, key, k);
      }
    } else {
      var t := s[1..];
      assert SortedDesc(t, key) by {
        forall i, j | 0 <= i < j < |t| ensures key(t[i]) >= key(t[j]) { assert t[i] == s[i + 1] && t[j] == s[j + 1]; }
      }
      InsertWithKey(x, t, key, k);
      assert ([s[0]] + Insert(x, t, key))[1..] == Insert(x, t, key);
    }
  }

  // ---------------------------------------------------------------- the sort

  /** The result is ordered, is a rearrangement of the input, and keeps the order of equal keys. */
  lemma {:induction false} SortDescCorrect<T>(s: seq<T>, key: T -> nat)
    ensures SortedDesc(SortDesc(s, key), key)
    ensures multiset(SortDesc(s, key)) == multiset(s)
    ensures |SortDesc(s, key)| == |s|
    ensures forall k: nat :: WithKey(SortDesc(s, key), key, k) == WithKey(s, key, k)
    decreases |s|
  {
    if s != [] {
      var p := s[..|s| - 1];
      var x := s[|s| - 1];
      SortDescCorrect(p, key);
      InsertSorted(x, SortDesc(p, key), key);
      InsertPerm(x, SortDesc(p, key), key);
      assert s == p + [x];
      forall k: nat ensures WithKey(SortDesc(s, key), key, k) == WithKey(s, key, k) {
        InsertWithKey(x, SortDesc(p, key), key, k);
        WithKeyConcat(p, [x], key, k);
      }
    }
  }

  // ---------------------------------------------------------------- first and last of the result

  /** `s[i]` has the largest key of `s`, and no earlier item has that key. */
  ghost predicate IsFirstMax<T>(s: seq<T>, key: T -> nat, i: int)
  {
    0 <= i < |s| && (forall j :: 0 <= j < |s| ==> key(s[j]) <= key(s[i]))
    && forall j :: 0 <= j < i ==> key(s[j]) != key(s[i])
  }

  /** `s[i]` has the smallest key of `s`, and no later item has that key. */
  ghost predicate IsLastMin<T>(s: seq<T>, key: T -> nat, i: int)
  {
    0 <= i < |s| && (forall j :: 0 <= j < |s| ==> key(s[j]) >= key(s[i]))
    && forall j :: i < j < |s| ==> key(s[j]) != key(s[i])
  }

  /** The first item of `WithKey(s, key, k)` is the first item of `s` with key `k`. */
  lemma {:induction false} WithKeyHead<T>(s: seq<T>, key: T -> nat, k: nat) returns (i: nat)
    requires WithKey(s, key, k) != []
    ensures i < |s| && s[i] == WithKey(s, key, k)[0] && key(s[i]) == k
    ensures forall j :: 0 <= j < i ==> key(s[j]) != k
    decreases |s|
  {
    if key(s[0]) == k {
      i := 0;
    } else {
      var i' := WithKeyHead(s[1..], key, k);
      i := i' + 1;
      forall j | 0 <= j < i ensures key(s[j]) != k {
        if j > 0 { assert s[j] == s[1..][j - 1]; }
      }
    }
  }

  /** The last item of `WithKey(s, key, k)` is the last item of `s` with key `k`. */
  lemma {:induction false} WithKeyLast<T>(s: seq<T>, key: T -> nat, k: nat) returns (i: nat)
    requires WithKey(s, key, k) != []
    ensures i < |s| && s[i] == WithKey(s, key, k)[|WithKey(s, key, k)| - 1] && key(s[i]) == k
    ensures forall j :: i < j < |s| ==> key(s[j]) != k
    decreases |s|
  {
    var rest := WithKey(s[1..], key, k);
    if rest != [] {
      var i' := WithKeyLast(s[1..], key, k);
      i := i' + 1;
      forall j | i < j < |s| ensures key(s[j]) != k { assert s[j] == s[1..][j - 1]; }
    } else {
      i := 0;
      assert key(s[0]) == k;
      forall j | 0 < j < |s| ensures key(s[j]) != k {
        if key(s[j]) == k {
          assert s[1..][j - 1] == s[j];
          WithKeyNonEmpty(s[1..], key, k, j - 1);
        }
      }
    }
  }

  lemma {:induction false} WithKeyNonEmpty<T>(s: seq<T>, key: T -> nat, k: nat, j: nat)
    requires j < |s| && key(s[j]) == k
    ensures WithKey(s, key, k) != []
    decreases |s|
  {
    if key(s[0]) != k { WithKeyNonEmpty(s[1..], key, k, j - 1); }
  }

  /** The head of the sorted list is the first item of the input with the largest key. */
  lemma SortDescHead<T>(s: seq<T>, key: T -> nat) returns (i: nat)
    requires s != []
    ensures IsFirstMax(s, key, i) && SortDesc(s, key)[0] == s[i]
  {
    var r := SortDesc(s, key);
    SortDescCorrect(s, key);
    var k := key(r[0]);
    assert r == [r[0]] + r[1..];
    WithKeyNonEmpty(r, key, k, 0);
    assert WithKey(r, key, k)[0] == r[0];
    i := WithKeyHead(s, key, k);
    forall j | 0 <= j < |s| ensures key(s[j]) <= key(s[i]) {
      assert s[j] in multiset(r);
      var m :| 0 <= m < |r| && r[m] == s[j];
      if m > 0 { assert key(r[0]) >= key(r[m]); }
    }
  }

  /** The last item of the sorted list is the last item of the input with the smallest key. */
  lemma SortDescLast<T>(s: seq<T>, key: T -> nat) returns (i: nat)
    requires s != []
    ensures IsLastMin(s, key, i) && SortDesc(s, key)[|s| - 1] == s[i]
  {
    var r := SortDesc(s, key);
    SortDescCorrect(s, key);
    var n := |r| - 1;
    var k := key(r[n]);
    WithKeyNonEmpty(r, key, k, n);
    var l := WithKeyLast(r, key, k);
    assert l == n;
    i := WithKeyLast(s, key, k);
    forall j | 0 <= j < |s| ensures key(s[j]) >= key(s[i]) {
      assert s[j] in multiset(r);
      var m :| 0 <= m < |r| && r[m] == s[j];
      if m < n { assert key(r[m]) >= key(r[n]); }
    }
  }

  /** The number part of a tagged pair, the key of the example below. */
  function Tag(p: (nat, char)): nat { p.0 }

  /** Four items with keys 2, 0, 2, 1 come out as the first, third, fourth and second. */
  lemma SortDescExample()
    ensures SortDesc([(2, 'a'), (0, 'b'), (2, 'c'), (1, 'd')], Tag) == [(2, 'a'), (2, 'c'), (1, 'd'), (0, 'b')]
  {
    assert SortDesc([(2, 'a')], Tag) == [(2, 'a')];
    assert [(2, 'a'), (0, 'b')][..1] == [(2, 'a')];
    assert SortDesc([(2, 'a'), (0, 'b')], Tag) == [(2, 'a'), (0, 'b')];
    assert [(2, 'a'), (0, 'b'), (2, 'c')][..2] == [(2, 'a'), (0, 'b')];
    assert Insert((2, 'c'), [(0, 'b')], Tag) == [(2, 'c'), (0, 'b')];
    assert SortDesc([(2, 'a'), (0, 'b'), (2, 'c')], Tag) == [(2, 'a'), (2, 'c'), (0, 'b')];
    assert [(2, 'a'), (0, 'b'), (2, 'c'), (1, 'd')][..3] == [(2, 'a'), (0, 'b'), (2, 'c')];
    assert Insert((1, 'd'), [(0, 'b')], Tag) == [(1, 'd'), (0, 'b')];
    assert Insert((1, 'd'), [(2, 'c'), (0, 'b')], Tag) == [(2, 'c'), (1, 'd'), (0, 'b')];
  }
}

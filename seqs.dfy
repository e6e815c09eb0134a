/**
 * Keep-the-first-occurrence filtering, the pattern every dedup loop of the crawlers follows:
 * walk a list once, skip an item that fails a test or whose key was already seen, otherwise
 * remember its key and keep it.
 */
module Seqs {
  import opened Wrappers

  predicate NoDup<T(==)>(s: seq<T>)
  {
    forall i, j :: 0 <= i < j < |s| ==> s[i] != s[j]
  }

  function ToSet<T>(s: seq<T>): set<T>
  {
    set x | x in s
  }

  /** Extending a prefix by the next element gives the next prefix. */
  lemma PrefixSnoc<T>(s: seq<T>, i: nat)
    requires i < |s|
    ensures s[..i] + [s[i]] == s[..i + 1]
  {
  }

  /** Appending an item not yet present keeps a sequence free of repeats and adds the item to its set. */
  lemma AppendFresh<T>(s: seq<T>, x: T)
    requires NoDup(s) && x !in s
    ensures NoDup(s + [x]) && ToSet(s + [x]) == ToSet(s) + {x}
  {
  }

  /** The keys of the items of `s`: the loops' `seen` set. */
  function KeySet<T, K>(s: seq<T>, key: T -> K): set<K>
  {
    set i | 0 <= i < |s| :: key(s[i])
  }

  lemma KeySetAppend<T, K>(s: seq<T>, x: T, key: T -> K)
    ensures KeySet(s + [x], key) == KeySet(s, key) + {key(x)}
  {
    var l := KeySet(s + [x], key);
    var r := KeySet(s, key) + {key(x)};
    forall k | k in l ensures k in r {
      var i :| 0 <= i < |s + [x]| && key((s + [x])[i]) == k;
      if i < |s| { assert key(s[i]) == k; }
    }
    forall k | k in r ensures k in l {
      if k == key(x) {
        assert key((s + [x])[|s|]) == k;
      } else {
        var i :| 0 <= i < |s| && key(s[i]) == k;
        assert key((s + [x])[i]) == k;
      }
    }
  }

  /**
   * The items of `s` that pass `ok` and whose key no earlier passing item has, in order:
   * the result of the loop `for x in s: if ok(x) and key(x) not in seen: seen.add(key(x)); out.append(x)`.
   */
  function FirstByKey<T, K(==)>(s: seq<T>, ok: T -> bool, key: T -> K): seq<T>
    decreases |s|
  {
    if s == [] then []
    else
      var r := FirstByKey(s[..|s| - 1], ok, key);
      var x := s[|s| - 1];
      if ok(x) && key(x) !in KeySet(r, key) then r + [x] else r
  }

  /** One more item read: it is kept exactly when it passes and its key is new. */
  lemma FirstByKeySnoc<T, K>(s: seq<T>, x: T, ok: T -> bool, key: T -> K)
    ensures FirstByKey(s + [x], ok, key)
            == if ok(x) && key(x) !in KeySet(FirstByKey(s, ok, key), key)
               then FirstByKey(s, ok, key) + [x] else FirstByKey(s, ok, key)
  {
    assert (s + [x])[..|s|] == s;
  }

  /** The identity-keyed form of `FirstByKeySnoc`: `if x not in out: out.append(x)`. */
  lemma DedupSnoc<T>(s: seq<T>, x: T)
    ensures FirstByKey(s + [x], Always, Id)
            == if x in FirstByKey(s, Always, Id) then FirstByKey(s, Always, Id) else FirstByKey(s, Always, Id) + [x]
  {
    FirstByKeySnoc(s, x, Always, Id);
    KeySetId(FirstByKey(s, Always, Id));
  }

  /** Item i of `s` passes and no earlier item passes with the same key. */
  ghost predicate IsFirstOk<T, K>(s: seq<T>, ok: T -> bool, key: T -> K, i: nat)
    requires i < |s|
  {
    ok(s[i]) && forall j :: 0 <= j < i ==> !(ok(s[j]) && key(s[j]) == key(s[i]))
  }

  /** Reference definition: the items of the first n of `s` that are first passing occurrences of their key. */
  ghost function FirstOccurrences<T, K>(s: seq<T>, ok: T -> bool, key: T -> K, n: nat): seq<T>
    requires n <= |s|
    decreases n
  {
    if n == 0 then []
    else FirstOccurrences(s, ok, key, n - 1) + (if IsFirstOk(s, ok, key, n - 1) then [s[n - 1]] else [])
  }

  /** Every kept item passes the test, and every key of a passing item is kept. */
  lemma {:induction false} FirstByKeyKeys<T, K>(s: seq<T>, ok: T -> bool, key: T -> K)
    ensures forall i :: 0 <= i < |FirstByKey(s, ok, key)| ==> ok(FirstByKey(s, ok, key)[i])
    ensures forall j :: 0 <= j < |s| && ok(s[j]) ==> key(s[j]) in KeySet(FirstByKey(s, ok, key), key)
    ensures forall k :: k in KeySet(FirstByKey(s, ok, key), key) ==>
                          exists j :: 0 <= j < |s| && ok(s[j]) && key(s[j]) == k
    decreases |s|
  {
    if s != [] {
      var p := s[..|s| - 1];
      var x := s[|s| - 1];
      var r := FirstByKey(p, ok, key);
      FirstByKeyKeys(p, ok, key);
      if ok(x) && key(x) !in KeySet(r, key) {
        KeySetAppend(r, x, key);
        assert FirstByKey(s, ok, key) == r + [x];
        forall i | 0 <= i < |r + [x]| ensures ok((r + [x])[i]) {
          if i < |r| { assert (r + [x])[i] == r[i]; }
        }
      }
      forall j | 0 <= j < |s| && ok(s[j]) ensures key(s[j]) in KeySet(FirstByKey(s, ok, key), key) {
        if j < |p| {
          assert p[j] == s[j];
        } else if key(x) in KeySet(r, key) {
        } else {
          KeySetAppend(r, x, key);
        }
      }
      forall k | k in KeySet(FirstByKey(s, ok, key), key)
        ensures exists j :: 0 <= j < |s| && ok(s[j]) && key(s[j]) == k
      {
        if k in KeySet(r, key) {
          var j :| 0 <= j < |p| && ok(p[j]) && key(p[j]) == k;
          assert s[j] == p[j];
        } else {
          KeySetAppend(r, x, key);
          assert ok(s[|s| - 1]) && key(s[|s| - 1]) == k;
        }
      }
    }
  }

  /** No two kept items share a key. */
  lemma {:induction false} FirstByKeyDistinctKeys<T, K>(s: seq<T>, ok: T -> bool, key: T -> K)
    ensures forall i, j :: 0 <= i < j < |FirstByKey(s, ok, key)| ==>
              key(FirstByKey(s, ok, key)[i]) != key(FirstByKey(s, ok, key)[j])
    decreases |s|
  {
    if s != [] {
      var p := s[..|s| - 1];
      var x := s[|s| - 1];
      var r := FirstByKey(p, ok, key);
      FirstByKeyDistinctKeys(p, ok, key);
      if ok(x) && key(x) !in KeySet(r, key) {
        forall i, j | 0 <= i < j < |r + [x]| ensures key((r + [x])[i]) != key((r + [x])[j]) {
          if j == |r| {
            assert (r + [x])[i] == r[i];
            assert key(r[i]) in KeySet(r, key);
          } else {
            assert (r + [x])[i] == r[i] && (r + [x])[j] == r[j];
          }
        }
      }
    }
  }

  lemma {:induction false} FirstOccurrencesPrefix<T, K>(s: seq<T>, ok: T -> bool, key: T -> K, n: nat)
    requires 0 < |s| && n < |s|
    ensures FirstOccurrences(s, ok, key, n) == FirstOccurrences(s[..|s| - 1], ok, key, n)
    decreases n
  {
    if n > 0 {
      FirstOccurrencesPrefix(s, ok, key, n - 1);
      var p := s[..|s| - 1];
      assert IsFirstOk(s, ok, key, n - 1) == IsFirstOk(p, ok, key, n - 1) by {
        assert forall j :: 0 <= j < n ==> s[j] == p[j];
      }
    }
  }

  /** The loop keeps exactly the first passing occurrence of each key, in the order of `s`. */
  lemma {:induction false} FirstByKeyIsFirstOccurrences<T, K>(s: seq<T>, ok: T -> bool, key: T -> K)
    ensures FirstByKey(s, ok, key) == FirstOccurrences(s, ok, key, |s|)
    decreases |s|
  {
    if s != [] {
      var p := s[..|s| - 1];
      var x := s[|s| - 1];
      var n := |s| - 1;
      FirstByKeyIsFirstOccurrences(p, ok, key);
      FirstOccurrencesPrefix(s, ok, key, n);
      FirstByKeyKeys(p, ok, key);
      var r := FirstByKey(p, ok, key);
      if ok(x) && key(x) !in KeySet(r, key) {
        forall j | 0 <= j < n ensures !(ok(s[j]) && key(s[j]) == key(s[n])) {
          assert s[j] == p[j];
        }
        assert IsFirstOk(s, ok, key, n);
      } else if ok(x) {
        assert key(x) in KeySet(r, key);
        var j :| 0 <= j < |p| && ok(p[j]) && key(p[j]) == key(x);
        assert s[j] == p[j];
        assert !IsFirstOk(s, ok, key, n);
      }
    }
  }

  /** `idx` lists increasing positions of `s`. */
  ghost predicate IncreasingIndices<T>(idx: seq<nat>, s: seq<T>)
  {
    (forall k :: 0 <= k < |idx| ==> idx[k] < |s|) && forall k, l :: 0 <= k < l < |idx| ==> idx[k] < idx[l]
  }

  /**
   * `r` is a subsequence of `s`: item k of `r` sits at position idx[k] of `s`, the positions
   * increase, and each is the first passing occurrence of its key.
   */
  ghost predicate KeptPositions<T, K>(s: seq<T>, ok: T -> bool, key: T -> K, idx: seq<nat>, r: seq<T>)
  {
    |idx| == |r| && IncreasingIndices(idx, s)
    && forall k :: 0 <= k < |idx| ==> r[k] == s[idx[k]] && IsFirstOk(s, ok, key, idx[k])
  }

  /** The kept items are a subsequence of `s`, each the first passing occurrence of its key. */
  lemma {:induction false} FirstByKeyPositions<T, K>(s: seq<T>, ok: T -> bool, key: T -> K) returns (idx: seq<nat>)
    ensures KeptPositions(s, ok, key, idx, FirstByKey(s, ok, key))
    decreases |s|
  {
    if s == [] {
      idx := [];
    } else {
      var p := s[..|s| - 1];
      var pidx := FirstByKeyPositions(p, ok, key);
      FirstByKeyKeys(p, ok, key);
      idx := KeptPositionsSnoc(s, ok, key, pidx, FirstByKey(p, ok, key));
    }
  }

  /** The positions kept from `s[..|s| - 1]` extend to those kept from `s` by the last position, when it is kept. */
  lemma KeptPositionsSnoc<T, K>(s: seq<T>, ok: T -> bool, key: T -> K, pidx: seq<nat>, r: seq<T>) returns (idx: seq<nat>)
    requires s != [] && KeptPositions(s[..|s| - 1], ok, key, pidx, r)
    requires forall j :: 0 <= j < |s| - 1 && ok(s[j]) ==> key(s[j]) in KeySet(r, key)
    ensures var x := s[|s| - 1];
            KeptPositions(s, ok, key, idx, if ok(x) && key(x) !in KeySet(r, key) then r + [x] else r)
  {
    var n := |s| - 1;
    var p := s[..n];
    forall k | 0 <= k < |pidx| ensures s[pidx[k]] == p[pidx[k]] && IsFirstOk(s, ok, key, pidx[k]) {
      assert IsFirstOk(p, ok, key, pidx[k]);
      forall j | 0 <= j < pidx[k] ensures !(ok(s[j]) && key(s[j]) == key(s[pidx[k]])) {
        assert s[j] == p[j] && s[pidx[k]] == p[pidx[k]];
      }
    }
    if ok(s[n]) && key(s[n]) !in KeySet(r, key) {
      idx := pidx + [n];
      forall j | 0 <= j < n ensures !(ok(s[j]) && key(s[j]) == key(s[n])) {
        assert s[j] == p[j];
      }
    } else {
      idx := pidx;
    }
  }

  /** The loop never keeps more items than it reads. */
  lemma {:induction false} FirstByKeyLength<T, K>(s: seq<T>, ok: T -> bool, key: T -> K)
    ensures |FirstByKey(s, ok, key)| <= |s|
    decreases |s|
  {
    if s != [] { FirstByKeyLength(s[..|s| - 1], ok, key); }
  }

  /** Every kept item is one of the items read. */
  lemma {:induction false} FirstByKeyMembers<T, K>(s: seq<T>, ok: T -> bool, key: T -> K)
    ensures forall i :: 0 <= i < |FirstByKey(s, ok, key)| ==> FirstByKey(s, ok, key)[i] in s
    decreases |s|
  {
    if s != [] {
      var p := s[..|s| - 1];
      FirstByKeyMembers(p, ok, key);
      var r := FirstByKey(p, ok, key);
      forall i | 0 <= i < |FirstByKey(s, ok, key)| ensures FirstByKey(s, ok, key)[i] in s {
        if i < |r| { assert r[i] in p; }
      }
    }
  }

  /** A key function that is the item itself, and a test that admits every item. */
  function Id<T>(x: T): T { x }
  function Always<T>(x: T): bool { true }

  lemma KeySetId<T>(s: seq<T>)
    ensures KeySet(s, Id) == ToSet(s)
  {
    forall x | x in ToSet(s) ensures x in KeySet(s, Id) {
      var i :| 0 <= i < |s| && s[i] == x;
      assert Id(s[i]) == x;
    }
  }

  /** Items kept under the identity key are pairwise distinct. */
  lemma DedupNoDup<T>(s: seq<T>)
    ensures NoDup(FirstByKey(s, Always, Id))
  {
    FirstByKeyDistinctKeys(s, Always, Id);
  }

  /** The present results of `f` over `s`, in order: a loop that appends for some items and skips the others. */
  function FilterMap<A, B>(s: seq<A>, f: A -> Option<B>): seq<B>
    decreases |s|
  {
    if s == [] then []
    else FilterMap(s[..|s| - 1], f) + (if f(s[|s| - 1]).Some? then [f(s[|s| - 1]).value] else [])
  }

  lemma FilterMapSnoc<A, B>(s: seq<A>, i: nat, f: A -> Option<B>)
    requires i < |s|
    ensures FilterMap(s[..i + 1], f) == FilterMap(s[..i], f) + (if f(s[i]).Some? then [f(s[i]).value] else [])
  {
    assert s[..i + 1][..i] == s[..i];
  }

  /**
   * `idx` lists, in increasing order, exactly the positions of `s` whose result under `f` is
   * present, and `r` holds those results.
   */
  ghost predicate PresentPositions<A, B>(s: seq<A>, f: A -> Option<B>, idx: seq<nat>, r: seq<B>)
  {
    |idx| == |r| && IncreasingIndices(idx, s)
    && (forall k :: 0 <= k < |idx| ==> f(s[idx[k]]).Some? && r[k] == f(s[idx[k]]).value)
    && (forall j :: 0 <= j < |s| && f(s[j]).Some? ==> j in idx)
  }

  /**
   * Item k of the result is the result for `s[idx[k]]`, the positions increase, and they are
   * exactly the positions whose result is present.
   */
  lemma {:induction false} FilterMapPositions<A, B>(s: seq<A>, f: A -> Option<B>) returns (idx: seq<nat>)
    ensures PresentPositions(s, f, idx, FilterMap(s, f))
    decreases |s|
  {
    if s == [] {
      idx := [];
    } else {
      var n := |s| - 1;
      var pidx := FilterMapPositions(s[..n], f);
      idx := PresentPositionsSnoc(s, f, pidx, FilterMap(s[..n], f));
    }
  }

  /** The positions of `s[..|s| - 1]` extend to those of `s` by the last position, when its result is present. */
  lemma PresentPositionsSnoc<A, B>(s: seq<A>, f: A -> Option<B>, pidx: seq<nat>, r: seq<B>) returns (idx: seq<nat>)
    requires s != [] && PresentPositions(s[..|s| - 1], f, pidx, r)
    ensures PresentPositions(s, f, idx, r + (if f(s[|s| - 1]).Some? then [f(s[|s| - 1]).value] else []))
  {
    var n := |s| - 1;
    var p := s[..n];
    forall k | 0 <= k < |pidx| ensures s[pidx[k]] == p[pidx[k]] { }
    if f(s[n]).Some? {
      idx := pidx + [n];
      forall j | 0 <= j < |s| && f(s[j]).Some? ensures j in idx {
        if j < n { assert s[j] == p[j]; assert j in pidx; }
      }
    } else {
      idx := pidx;
      forall j | 0 <= j < |s| && f(s[j]).Some? ensures j in idx {
        assert s[j] == p[j];
      }
    }
  }

  /** The set of the present results of `f` over `s`: a loop that adds to a set for some items and skips the others. */
  function PresentSet<A, B>(s: seq<A>, f: A -> Option<B>): set<B>
    decreases |s|
  {
    if s == [] then {}
    else PresentSet(s[..|s| - 1], f) + (if f(s[|s| - 1]).Some? then {f(s[|s| - 1]).value} else {})
  }

  lemma PresentSetSnoc<A, B>(s: seq<A>, i: nat, f: A -> Option<B>)
    requires i < |s|
    ensures PresentSet(s[..i + 1], f) == PresentSet(s[..i], f) + (if f(s[i]).Some? then {f(s[i]).value} else {})
  {
    assert s[..i + 1][..i] == s[..i];
  }

  /** An item is in the set exactly when some position of `s` gives it. */
  lemma {:induction false} PresentSetMembers<A, B>(s: seq<A>, f: A -> Option<B>)
    ensures forall y :: y in PresentSet(s, f) <==> exists i :: 0 <= i < |s| && f(s[i]) == Some(y)
    decreases |s|
  {
    if s != [] {
      var n := |s| - 1;
      var p := s[..n];
      PresentSetMembers(p, f);
      forall y ensures y in PresentSet(s, f) <==> exists i :: 0 <= i < |s| && f(s[i]) == Some(y) {
        if y in PresentSet(p, f) {
          var i :| 0 <= i < |p| && f(p[i]) == Some(y);
          assert s[i] == p[i];
        } else if exists i :: 0 <= i < |s| && f(s[i]) == Some(y) {
          var i :| 0 <= i < |s| && f(s[i]) == Some(y);
          if i < n { assert p[i] == s[i]; }
        }
      }
    }
  }

  /** Filter a list by a test, keeping order. */
  function Filter<T>(s: seq<T>, ok: T -> bool): (r: seq<T>)
    ensures |r| <= |s|
    ensures forall i :: 0 <= i < |r| ==> ok(r[i]) && r[i] in s
    decreases |s|
  {
    if s == [] then []
    else Filter(s[..|s| - 1], ok) + (if ok(s[|s| - 1]) then [s[|s| - 1]] else [])
  }
}

/** Order-preserving de-duplication and flattening of sequences: the
    generator's `unique`, `new Set(list)` iterated in insertion order, and
    the "keep the first import with this text" loop are all `DistinctBy`. */
module Sequences {

  /** Some element of `s` has key `k`. */
  predicate HasKey<T, K(==)>(s: seq<T>, key: T -> K, k: K) {
    exists i :: 0 <= i < |s| && key(s[i]) == k
  }

  /** Scans `s` from the left and keeps an element only when no element
      kept before it has the same key. */
  function DistinctBy<T, K(==)>(s: seq<T>, key: T -> K): (r: seq<T>)
    ensures |r| <= |s|
    decreases |s|
  {
    if s == [] then []
    else
      var u := DistinctBy(s[..|s| - 1], key);
      if HasKey(u, key, key(s[|s| - 1])) then u else u + [s[|s| - 1]]
  }

  /** `s[i]` is the first element of `s` with its key. */
  predicate IsFirst<T, K(==)>(s: seq<T>, key: T -> K, i: nat)
    requires i < |s|
  {
    forall j :: 0 <= j < i ==> key(s[j]) != key(s[i])
  }

  /** Reference definition: the first occurrences among `s[..n]`, in the
      order they appear. */
  function Firsts<T, K(==)>(s: seq<T>, key: T -> K, n: nat): seq<T>
    requires n <= |s|
  {
    if n == 0 then []
    else Firsts(s, key, n - 1) + (if IsFirst(s, key, n - 1) then [s[n - 1]] else [])
  }

  /** De-duplication loses no key and invents none. */
  lemma {:induction false} DistinctByKeys<T, K>(s: seq<T>, key: T -> K, k: K)
    ensures HasKey(DistinctBy(s, key), key, k) <==> HasKey(s, key, k)
    decreases |s|
  {
    if s != [] {
      var p := s[..|s| - 1];
      DistinctByKeys(p, key, k);
      DistinctByKeys(p, key, key(s[|s| - 1]));
      var u := DistinctBy(p, key);
      if HasKey(s, key, k) {
        var i :| 0 <= i < |s| && key(s[i]) == k;
        if i < |s| - 1 {
          assert p[i] == s[i];
        } else if !HasKey(u, key, k) {
          assert (u + [s[|s| - 1]])[|u|] == s[i];
        }
      }
      if HasKey(DistinctBy(s, key), key, k) && !HasKey(u, key, k) {
        assert key(s[|s| - 1]) == k;
      }
      if HasKey(p, key, k) {
        var i :| 0 <= i < |p| && key(p[i]) == k;
        assert s[i] == p[i];
      }
      if HasKey(u, key, k) && !HasKey(u, key, key(s[|s| - 1])) {
        var i :| 0 <= i < |u| && key(u[i]) == k;
        assert (u + [s[|s| - 1]])[i] == u[i];
      }
    }
  }

  /** No two survivors share a key. */
  lemma {:induction false} DistinctByNoDuplicates<T, K>(s: seq<T>, key: T -> K)
    ensures forall i, j :: 0 <= i < j < |DistinctBy(s, key)| ==>
      key(DistinctBy(s, key)[i]) != key(DistinctBy(s, key)[j])
    decreases |s|
  {
    if s != [] {
      DistinctByNoDuplicates(s[..|s| - 1], key);
    }
  }

  /** The survivors are exactly the first occurrences, in their original
      order. */
  lemma DistinctByIsFirsts<T, K>(s: seq<T>, key: T -> K)
    ensures DistinctBy(s, key) == Firsts(s, key, |s|)
  {
    DistinctByPrefixIsFirsts(s, key, |s|);
    assert s[..|s|] == s;
  }

  lemma {:induction false} DistinctByPrefixIsFirsts<T, K>(s: seq<T>, key: T -> K, n: nat)
    requires n <= |s|
    ensures DistinctBy(s[..n], key) == Firsts(s, key, n)
    decreases n
  {
    if n > 0 {
      DistinctByPrefixIsFirsts(s, key, n - 1);
      var p := s[..n];
      assert p[..|p| - 1] == s[..n - 1];
      assert p[|p| - 1] == s[n - 1];
      DistinctByKeys(s[..n - 1], key, key(s[n - 1]));
      if HasKey(s[..n - 1], key, key(s[n - 1])) {
        var j :| 0 <= j < n - 1 && key(s[..n - 1][j]) == key(s[n - 1]);
        assert key(s[j]) == key(s[n - 1]);
      } else {
        forall j | 0 <= j < n - 1 ensures key(s[j]) != key(s[n - 1]) {
          assert s[..n - 1][j] == s[j];
        }
      }
    }
  }

  /** Every survivor is an element of the input. */
  lemma {:induction false} DistinctByElements<T, K>(s: seq<T>, key: T -> K)
    ensures forall x :: x in DistinctBy(s, key) ==> x in s
    decreases |s|
  {
    if s != [] {
      DistinctByElements(s[..|s| - 1], key);
      assert forall x :: x in s[..|s| - 1] ==> x in s;
    }
  }

  function Identity<T>(x: T): T { x }

  /** The generator's `unique` and a `Set` read back in insertion order:
      every value once, at the place it first appears. */
  function Unique<T(==)>(s: seq<T>): seq<T> {
    DistinctBy(s, Identity)
  }

  /** `Unique` keeps exactly the values of its input, each once. */
  lemma UniqueProperties<T>(s: seq<T>)
    ensures forall x :: x in Unique(s) <==> x in s
    ensures forall i, j :: 0 <= i < j < |Unique(s)| ==> Unique(s)[i] != Unique(s)[j]
  {
    DistinctByNoDuplicates(s, Identity);
    forall x ensures x in Unique(s) <==> x in s {
      DistinctByKeys(s, Identity, x);
      if x in s {
        var i :| 0 <= i < |s| && s[i] == x;
        assert Identity(s[i]) == x;
      }
      if x in Unique(s) {
        var i :| 0 <= i < |Unique(s)| && Unique(s)[i] == x;
        assert Identity(Unique(s)[i]) == x;
      }
    }
  }

  /** Concatenation of a sequence of sequences, built from the left. */
  function Flatten<T>(ss: seq<seq<T>>): seq<T>
    decreases |ss|
  {
    if ss == [] then [] else Flatten(ss[..|ss| - 1]) + ss[|ss| - 1]
  }

  lemma {:induction false} FlattenMembers<T>(ss: seq<seq<T>>, x: T)
    ensures x in Flatten(ss) <==> exists i :: 0 <= i < |ss| && x in ss[i]
    decreases |ss|
  {
    if ss != [] {
      var p := ss[..|ss| - 1];
      FlattenMembers(p, x);
      if exists i :: 0 <= i < |ss| && x in ss[i] {
        var i :| 0 <= i < |ss| && x in ss[i];
        if i < |ss| - 1 {
          assert p[i] == ss[i];
        }
      }
      if exists i :: 0 <= i < |p| && x in p[i] {
        var i :| 0 <= i < |p| && x in p[i];
        assert ss[i] == p[i];
      }
    }
  }

    /** A non-empty sequence is its front followed by its last element. */
  lemma FrontLast<T>(s: seq<T>)
    requires s != []
    ensures s[..|s| - 1] + [s[|s| - 1]] == s
  {
  }

  /** Some element of a non-empty sequence has `P` iff some element of its
      prefix does or its last one does. */
  lemma ExistsSnoc<T>(s: seq<T>, p: seq<T>, P: T -> bool)
    requires s != [] && p == s[..|s| - 1]
    ensures (exists i :: 0 <= i < |s| && P(s[i])) <==> (exists i :: 0 <= i < |p| && P(p[i])) || P(s[|s| - 1])
  {
    if exists i :: 0 <= i < |s| && P(s[i]) {
      var i :| 0 <= i < |s| && P(s[i]);
      if i < |p| { assert p[i] == s[i]; }
    }
    if exists i :: 0 <= i < |p| && P(p[i]) {
      var i :| 0 <= i < |p| && P(p[i]);
      assert s[i] == p[i];
    }
  }
}

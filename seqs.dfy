/** Order-keeping selections over sequences: `Array.prototype.filter` and
    the "first occurrence of each key wins" pass that a `Set` of seen keys
    implements, with a reference definition of the latter by index. */
module Seqs {
  import opened Basics

  /** `s.filter(p)`. Written from the back so that it grows like a loop that
      appends. */
  function Filter<T>(s: seq<T>, p: T -> bool): (r: seq<T>)
    ensures |r| <= |s|
  {
    if s == [] then []
    else Filter(s[..|s| - 1], p) + (if p(s[|s| - 1]) then [s[|s| - 1]] else [])
  }

  /** The filter keeps exactly the elements that satisfy `p`. */
  lemma {:induction false} FilterMembers<T(!new)>(s: seq<T>, p: T -> bool)
    ensures forall x :: x in Filter(s, p) <==> x in s && p(x)
    decreases |s|
  {
    if s != [] {
      var n := |s| - 1;
      FilterMembers(s[..n], p);
      assert s == s[..n] + [s[n]];
    }
  }

  /** A filter every element passes keeps the sequence as it is. */
  lemma {:induction false} FilterAll<T(!new)>(s: seq<T>, p: T -> bool)
    requires forall i :: 0 <= i < |s| ==> p(s[i])
    ensures Filter(s, p) == s
    decreases |s|
  {
    if s != [] {
      var n := |s| - 1;
      var init := s[..n];
      forall i | 0 <= i < n
        ensures p(init[i])
      {
        assert init[i] == s[i];
      }
      FilterAll(init, p);
      assert p(s[n]);
      assert Filter(s, p) == Filter(init, p) + [s[n]];
      assert init + [s[n]] == s;
    }
  }

  /** `a` is `b` with some elements left out and the rest in order. */
  ghost predicate IsSubsequence<T>(a: seq<T>, b: seq<T>)
    decreases |b|
  {
    if a == [] then true
    else if b == [] then false
    else
      (a[|a| - 1] == b[|b| - 1] && IsSubsequence(a[..|a| - 1], b[..|b| - 1]))
      || IsSubsequence(a, b[..|b| - 1])
  }

  lemma {:induction false} SubsequenceOfItself<T>(s: seq<T>)
    ensures IsSubsequence(s, s)
    decreases |s|
  {
    if s != [] {
      SubsequenceOfItself(s[..|s| - 1]);
    }
  }

  lemma {:induction false} FilterIsSubsequence<T(!new)>(s: seq<T>, p: T -> bool)
    ensures IsSubsequence(Filter(s, p), s)
    decreases |s|
  {
    if s != [] {
      var init := s[..|s| - 1];
      FilterIsSubsequence(init, p);
      var r := Filter(s, p);
      if p(s[|s| - 1]) {
        assert r[..|r| - 1] == Filter(init, p);
      } else if r != [] {
        assert r == Filter(init, p);
      }
    }
  }

  predicate NoDuplicates<T(==)>(s: seq<T>) {
    forall i, j :: 0 <= i < j < |s| ==> s[i] != s[j]
  }

  /** The element at index `i` has a wanted key that no earlier element of
      `s` has. */
  predicate IsFirst<T, K(==)>(s: seq<T>, key: T -> K, wanted: K -> bool, i: nat)
    requires i < |s|
  {
    wanted(key(s[i])) && forall k :: 0 <= k < i ==> key(s[k]) != key(s[i])
  }

  /** Reference definition of "first occurrence wins": the elements of `s` at
      the indices where `IsFirst` holds, in their original order. */
  function Firsts<T, K(==)>(s: seq<T>, key: T -> K, wanted: K -> bool): seq<T>
  {
    if s == [] then []
    else
      var n := |s| - 1;
      Firsts(s[..n], key, wanted) + (if IsFirst(s, key, wanted, n) then [s[n]] else [])
  }

  /** Appending one element extends `Firsts` by that element exactly when it
      is the first with its key: the step a loop over the input takes. */
  lemma FirstsAppend<T, K>(s: seq<T>, x: T, key: T -> K, wanted: K -> bool)
    ensures Firsts(s + [x], key, wanted)
         == Firsts(s, key, wanted) + (if IsFirst(s + [x], key, wanted, |s|) then [x] else [])
  {
    assert (s + [x])[..|s|] == s;
  }

  /** The wanted keys among the elements of `s`: what a set of seen keys
      holds after a pass over `s`. */
  function KeySet<T, K(==)>(s: seq<T>, key: T -> K, wanted: K -> bool): set<K> {
    if s == [] then {}
    else
      var x := s[|s| - 1];
      KeySet(s[..|s| - 1], key, wanted) + (if wanted(key(x)) then {key(x)} else {})
  }

  lemma {:induction false} KeySetMembers<T, K>(s: seq<T>, key: T -> K, wanted: K -> bool)
    ensures forall k :: k in KeySet(s, key, wanted) <==> wanted(k) && exists j :: 0 <= j < |s| && key(s[j]) == k
    decreases |s|
  {
    if s != [] {
      var n := |s| - 1;
      KeySetMembers(s[..n], key, wanted);
      assert forall j :: 0 <= j < n ==> s[..n][j] == s[j];
    }
  }

  /** One step of a pass with a set of seen keys: `x` is kept exactly when
      its key is wanted and not yet in the set, and its key joins the set
      when it is wanted. */
  lemma FirstsStep<T, K>(s: seq<T>, x: T, key: T -> K, wanted: K -> bool)
    ensures Firsts(s + [x], key, wanted) == Firsts(s, key, wanted)
      + (if wanted(key(x)) && key(x) !in KeySet(s, key, wanted) then [x] else [])
    ensures KeySet(s + [x], key, wanted) == KeySet(s, key, wanted) + (if wanted(key(x)) then {key(x)} else {})
  {
    var t := s + [x];
    assert t[..|s|] == s;
    FirstsAppend(s, x, key, wanted);
    KeySetMembers(s, key, wanted);
    assert forall j :: 0 <= j < |s| ==> t[j] == s[j];
  }

  /** No two elements of `s` share a key. */
  ghost predicate KeysDistinct<T, K>(s: seq<T>, key: T -> K) {
    forall i, j :: 0 <= i < j < |s| ==> key(s[i]) != key(s[j])
  }

  lemma {:induction false} FirstsKeysDistinct<T(!new), K>(s: seq<T>, key: T -> K, wanted: K -> bool)
    ensures KeysDistinct(Firsts(s, key, wanted), key)
    decreases |s|
  {
    if s != [] {
      var n := |s| - 1;
      FirstsKeysDistinct(s[..n], key, wanted);
      FirstsMembers(s[..n], key, wanted);
      var r := Firsts(s, key, wanted);
      var r0 := Firsts(s[..n], key, wanted);
      if IsFirst(s, key, wanted, n) {
        forall i, j | 0 <= i < j < |r| ensures key(r[i]) != key(r[j]) {
          if j == |r| - 1 {
            assert r[i] == r0[i];
            assert r0[i] in r0;
            var k :| 0 <= k < n && s[..n][k] == r0[i] && IsFirst(s[..n], key, wanted, k);
            assert s[k] == r[i] && r[j] == s[n];
            assert key(s[k]) != key(s[n]);
          } else {
            assert r[i] == r0[i] && r[j] == r0[j];
          }
        }
      } else {
        assert r == r0;
      }
    }
  }

  /** An element survives exactly when it stands at a first-occurrence index. */
  lemma {:induction false} FirstsMembers<T(!new), K>(s: seq<T>, key: T -> K, wanted: K -> bool)
    ensures forall x :: x in Firsts(s, key, wanted) <==>
      exists i :: 0 <= i < |s| && s[i] == x && IsFirst(s, key, wanted, i)
    decreases |s|
  {
    if s != [] {
      var n := |s| - 1;
      var init := s[..n];
      FirstsMembers(init, key, wanted);
      forall x ensures x in Firsts(s, key, wanted) <==>
        exists i :: 0 <= i < |s| && s[i] == x && IsFirst(s, key, wanted, i)
      {
        if x in Firsts(init, key, wanted) {
          var i :| 0 <= i < |init| && init[i] == x && IsFirst(init, key, wanted, i);
          IsFirstInPrefix(s, key, wanted, n, i);
          assert s[i] == x;
        }
        if exists i :: 0 <= i < |s| && s[i] == x && IsFirst(s, key, wanted, i) {
          var i :| 0 <= i < |s| && s[i] == x && IsFirst(s, key, wanted, i);
          if i < n {
            IsFirstInPrefix(s, key, wanted, n, i);
            assert init[i] == x;
          }
        }
      }
    }
  }

  /** Whether an index is a first occurrence depends only on what precedes it. */
  lemma IsFirstInPrefix<T, K>(s: seq<T>, key: T -> K, wanted: K -> bool, n: nat, i: nat)
    requires i < n <= |s|
    ensures IsFirst(s[..n], key, wanted, i) <==> IsFirst(s, key, wanted, i)
  {
    assert forall k :: 0 <= k <= i ==> s[..n][k] == s[k];
  }

  /** Every wanted key of the input is represented in the output. */
  lemma FirstsCovers<T(!new), K>(s: seq<T>, key: T -> K, wanted: K -> bool, i: nat)
    requires i < |s| && wanted(key(s[i]))
    ensures exists x :: x in Firsts(s, key, wanted) && key(x) == key(s[i])
  {
    FirstsMembers(s, key, wanted);
    var m := EarliestWithKey(s, key, i);
    assert IsFirst(s, key, wanted, m);
    assert s[m] in Firsts(s, key, wanted);
  }

  /** The smallest index whose element has the same key as `s[i]`. */
  lemma {:induction false} EarliestWithKey<T, K>(s: seq<T>, key: T -> K, i: nat) returns (m: nat)
    requires i < |s|
    ensures m <= i && key(s[m]) == key(s[i])
    ensures forall k :: 0 <= k < m ==> key(s[k]) != key(s[i])
    decreases i
  {
    if k :| 0 <= k < i && key(s[k]) == key(s[i]) {
      m := EarliestWithKey(s, key, k);
    } else {
      m := i;
    }
  }

  lemma {:induction false} FirstsIsSubsequence<T, K>(s: seq<T>, key: T -> K, wanted: K -> bool)
    ensures IsSubsequence(Firsts(s, key, wanted), s)
    decreases |s|
  {
    if s != [] {
      var n := |s| - 1;
      FirstsIsSubsequence(s[..n], key, wanted);
      var r := Firsts(s, key, wanted);
      if IsFirst(s, key, wanted, n) {
        assert r[..|r| - 1] == Firsts(s[..n], key, wanted);
      } else if r != [] {
        assert r == Firsts(s[..n], key, wanted);
      }
    }
  }

  /** `s.findIndex(p)`: the first index whose element satisfies `p`. */
  function Find<T>(s: seq<T>, p: T -> bool): (r: Option<nat>)
    ensures r.Some? ==> r.value < |s| && p(s[r.value]) && forall j :: 0 <= j < r.value ==> !p(s[j])
    ensures r.None? ==> forall j :: 0 <= j < |s| ==> !p(s[j])
  {
    if s == [] then None
    else if p(s[0]) then Some(0)
    else match Find(s[1..], p)
      case Some(i) => Some(i + 1)
      case None => None
  }

  /** `s.find(p)`: the first element that satisfies `p`. */
  function FindValue<T>(s: seq<T>, p: T -> bool): (r: Option<T>)
    ensures r.Some? ==> r.value in s && p(r.value)
    ensures r.None? ==> forall j :: 0 <= j < |s| ==> !p(s[j])
  {
    match Find(s, p)
    case Some(i) => Some(s[i])
    case None => None
  }

  lemma {:induction false} FindAppend<T>(a: seq<T>, b: seq<T>, p: T -> bool)
    ensures Find(a + b, p) ==
      match Find(a, p)
      case Some(i) => Some(i)
      case None => match Find(b, p) case Some(j) => Some(|a| + j) case None => None
    decreases |a|
  {
    if a == [] {
      assert a + b == b;
    } else {
      assert (a + b)[0] == a[0];
      assert (a + b)[1..] == a[1..] + b;
      FindAppend(a[1..], b, p);
    }
  }

  /** Searching the filtered sequence for something the filter keeps finds
      the same element as searching the unfiltered one. */
  lemma {:induction false} FindInFilter<T(!new)>(s: seq<T>, p: T -> bool, q: T -> bool)
    requires forall x :: q(x) ==> p(x)
    ensures FindValue(Filter(s, p), q) == FindValue(s, q)
    decreases |s|
  {
    if s != [] {
      var n := |s| - 1;
      var init, x := s[..n], s[n];
      assert s == init + [x];
      FindInFilter(init, p, q);
      var e := if p(x) then [x] else [];
      assert Filter(s, p) == Filter(init, p) + e;
      FindAppend(Filter(init, p), e, q);
      FindAppend(init, [x], q);
    }
  }

  /** Every element of `Filter(s, p)` satisfies `p`, so its first element is
      what a search for `p` in `s` finds. */
  lemma FilterHead<T(!new)>(s: seq<T>, p: T -> bool)
    ensures Filter(s, p) == [] <==> FindValue(s, p).None?
    ensures Filter(s, p) != [] ==> FindValue(s, p) == Some(Filter(s, p)[0])
  {
    FindInFilter(s, p, p);
    var f := Filter(s, p);
    if f != [] {
      assert f[0] in f;
    }
  }
}

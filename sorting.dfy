/**
 * `Array.prototype.sort` with a numeric comparator `(a, b) => key(a) - key(b)`.
 * The sort JavaScript engines are required to use is stable, so its result is
 * fully determined: the stable insertion sort `SortByKey` below. The one place
 * the site sorts an array in place is `SortInPlace`, proved to compute it.
 */
module Sorting {

  ghost predicate SortedBy<T>(s: seq<T>, key: T -> int) {
    forall i, j :: 0 <= i < j < |s| ==> key(s[i]) <= key(s[j])
  }

  /** Inserts `x` into `t` right after the last element whose key is at most `key(x)`. */
  function Insert<T>(x: T, t: seq<T>, key: T -> int): (r: seq<T>)
    ensures |r| == |t| + 1
  {
    if t == [] then [x]
    else if key(t[|t| - 1]) <= key(x) then t + [x]
    else Insert(x, t[..|t| - 1], key) + [t[|t| - 1]]
  }

  /** Insertion adds `x` and nothing else. */
  lemma {:induction false} InsertPermutation<T>(x: T, t: seq<T>, key: T -> int)
    ensures multiset(Insert(x, t, key)) == multiset(t) + multiset{x}
  {
    if t != [] && key(t[|t| - 1]) > key(x) {
      InsertPermutation(x, t[..|t| - 1], key);
      assert t == t[..|t| - 1] + [t[|t| - 1]];
    }
  }

  /** Every key of `t` and `key(x)` bounded by `b` bounds every key of the insertion. */
  lemma {:induction false} InsertBounded<T>(x: T, t: seq<T>, key: T -> int, b: int)
    requires forall i :: 0 <= i < |t| ==> key(t[i]) <= b
    requires key(x) <= b
    ensures forall i :: 0 <= i < |Insert(x, t, key)| ==> key(Insert(x, t, key)[i]) <= b
  {
    if t != [] && key(t[|t| - 1]) > key(x) {
      InsertBounded(x, t[..|t| - 1], key, b);
    }
  }

  lemma {:induction false} InsertSorted<T>(x: T, t: seq<T>, key: T -> int)
    requires SortedBy(t, key)
    ensures SortedBy(Insert(x, t, key), key)
  {
    if t != [] && key(t[|t| - 1]) > key(x) {
      var init := t[..|t| - 1];
      InsertSorted(x, init, key);
      InsertBounded(x, init, key, key(t[|t| - 1]));
    }
  }

  /** The head of an insertion into a sorted, non-empty `t`. */
  lemma {:induction false} InsertHead<T>(x: T, t: seq<T>, key: T -> int)
    requires t != [] && SortedBy(t, key)
    ensures Insert(x, t, key)[0] == if key(x) < key(t[0]) then x else t[0]
  {
    if key(t[|t| - 1]) > key(x) && |t| > 1 {
      InsertHead(x, t[..|t| - 1], key);
    }
  }

  /** The stable sort of `s` by `key`. */
  function SortByKey<T>(s: seq<T>, key: T -> int): (r: seq<T>)
    ensures |r| == |s|
  {
    if s == [] then []
    else Insert(s[|s| - 1], SortByKey(s[..|s| - 1], key), key)
  }

  /** The sort is a permutation of its input. */
  lemma {:induction false} SortByKeyPermutation<T>(s: seq<T>, key: T -> int)
    ensures multiset(SortByKey(s, key)) == multiset(s)
  {
    if s != [] {
      SortByKeyPermutation(s[..|s| - 1], key);
      InsertPermutation(s[|s| - 1], SortByKey(s[..|s| - 1], key), key);
      assert s == s[..|s| - 1] + [s[|s| - 1]];
    }
  }

  /** The sort's result is ordered by key. */
  lemma {:induction false} SortByKeySorted<T>(s: seq<T>, key: T -> int)
    ensures SortedBy(SortByKey(s, key), key)
  {
    if s != [] {
      SortByKeySorted(s[..|s| - 1], key);
      InsertSorted(s[|s| - 1], SortByKey(s[..|s| - 1], key), key);
    }
  }

  /** Sorting an already sorted sequence leaves it as it is. */
  lemma {:induction false} SortSortedIsIdentity<T>(s: seq<T>, key: T -> int)
    requires SortedBy(s, key)
    ensures SortByKey(s, key) == s
  {
    if s != [] {
      var init := s[..|s| - 1];
      assert SortedBy(init, key);
      SortSortedIsIdentity(init, key);
      if |init| > 0 {
        assert key(init[|init| - 1]) <= key(s[|s| - 1]);
      }
      assert init + [s[|s| - 1]] == s;
    }
  }

  /** Sorting twice is sorting once. */
  lemma SortIdempotent<T>(s: seq<T>, key: T -> int)
    ensures SortByKey(SortByKey(s, key), key) == SortByKey(s, key)
  {
    SortByKeySorted(s, key);
    SortSortedIsIdentity(SortByKey(s, key), key);
  }

  /** `k` is the first position of a minimal key in `s`. */
  ghost predicate IsFirstMinimum<T>(s: seq<T>, key: T -> int, k: int) {
    0 <= k < |s| &&
    (forall j :: 0 <= j < |s| ==> key(s[k]) <= key(s[j])) &&
    (forall j :: 0 <= j < k ==> key(s[k]) < key(s[j]))
  }

  /** Every non-empty sequence has a first position of a least key. */
  lemma {:induction false} FirstMinimumExists<T>(s: seq<T>, key: T -> int) returns (k: nat)
    requires s != []
    ensures IsFirstMinimum(s, key, k)
  {
    if |s| == 1 {
      k := 0;
    } else {
      var init := s[..|s| - 1];
      var j := FirstMinimumExists(init, key);
      assert forall i :: 0 <= i < |init| ==> init[i] == s[i];
      if key(s[|s| - 1]) < key(s[j]) {
        k := |s| - 1;
      } else {
        k := j;
      }
    }
  }

  /** The head of a sort is one of the sorted elements. */
  lemma SortHeadMember<T>(s: seq<T>, key: T -> int) returns (m: nat)
    requires s != []
    ensures m < |s| && SortByKey(s, key)[0] == s[m]
  {
    var r := SortByKey(s, key);
    SortByKeyPermutation(s, key);
    assert r[0] in multiset(r);
    assert r[0] in multiset(s);
    m :| 0 <= m < |s| && s[m] == r[0];
  }

  /** The head after inserting `x` into the sort of a non-empty `t`. */
  lemma InsertIntoSortHead<T>(x: T, t: seq<T>, key: T -> int)
    requires t != []
    ensures var sorted := SortByKey(t, key);
      Insert(x, sorted, key)[0] == if key(x) < key(sorted[0]) then x else sorted[0]
  {
    SortByKeySorted(t, key);
    InsertHead(x, SortByKey(t, key), key);
  }

  /** Because the sort is stable, its head is the first element with the least key. */
  lemma {:induction false} SortHeadIsFirstMinimum<T>(s: seq<T>, key: T -> int, k: int)
    requires IsFirstMinimum(s, key, k)
    ensures SortByKey(s, key)[0] == s[k]
  {
    var init := s[..|s| - 1];
    var x := s[|s| - 1];
    assert SortByKey(s, key) == Insert(x, SortByKey(init, key), key);
    if init == [] {
      assert SortByKey(init, key) == [];
    } else {
      InsertIntoSortHead(x, init, key);
      if k < |init| {
        assert IsFirstMinimum(init, key, k) by {
          forall j | 0 <= j < |init| ensures key(init[k]) <= key(init[j]) {
            assert init[j] == s[j];
          }
          forall j | 0 <= j < k ensures key(init[k]) < key(init[j]) {
            assert init[j] == s[j];
          }
        }
        SortHeadIsFirstMinimum(init, key, k);
        assert key(s[k]) <= key(s[|s| - 1]);
      } else {
        var m := SortHeadMember(init, key);
        assert init[m] == s[m];
        assert key(s[k]) < key(s[m]);
      }
    }
  }

  /**
   * When every element of `p` from `j` on has a larger key than `x`, and the one
   * before `j` (if any) does not, insertion puts `x` exactly at `j`.
   */
  lemma {:induction false} InsertLands<T>(x: T, p: seq<T>, j: nat, key: T -> int)
    requires j <= |p| && (j == 0 || key(p[j - 1]) <= key(x))
    requires forall k :: j <= k < |p| ==> key(p[k]) > key(x)
    ensures Insert(x, p, key) == p[..j] + [x] + p[j..]
    decreases |p|
  {
    if j == |p| {
      assert p[..j] == p && p[j..] == [];
    } else {
      var init := p[..|p| - 1];
      var last := p[|p| - 1];
      assert p == init + [last];
      InsertLands(x, init, j, key);
      assert init[..j] == p[..j];
      assert init[j..] + [last] == p[j..];
    }
  }

  /**
   * One step of the in-place insertion sort: `a[..i]` holds `p`; the element at `i`
   * moves left past every larger key, giving `Insert(a[i], p)` in `a[..i + 1]`.
   */
  method InsertStep<T>(a: array<T>, i: nat, key: T -> int)
    requires i < a.Length
    modifies a
    ensures a[..i + 1] == Insert(old(a[i]), old(a[..i]), key)
    ensures a[i + 1..] == old(a[i + 1..])
  {
    var x := a[i];
    ghost var s0 := a[..];
    ghost var p := s0[..i];
    var j := ShiftLarger(a, i, x, key);
    InsertLands(x, p, j, key);
    a[j] := x;
    ShiftedIn(a[..], p, x, j);
    forall k | i < k < a.Length ensures a[k] == s0[k] { }
    assert a[i + 1..] == s0[i + 1..];
  }

  /**
   * Moves the elements of `a[..i]` whose key exceeds `key(x)` one place right,
   * starting from the end, and answers the gap `j` left for `x`.
   */
  method ShiftLarger<T>(a: array<T>, i: nat, x: T, key: T -> int) returns (j: nat)
    requires i < a.Length
    modifies a
    ensures j <= i
    ensures forall k :: 0 <= k < j ==> a[k] == old(a[k])
    ensures forall k :: j < k <= i ==> a[k] == old(a[k - 1])
    ensures forall k :: i < k < a.Length ==> a[k] == old(a[k])
    ensures j == 0 || key(old(a[j - 1])) <= key(x)
    ensures forall k :: j <= k < i ==> key(old(a[k])) > key(x)
  {
    ghost var s0 := a[..];
    j := i;
    while j > 0 && key(a[j - 1]) > key(x)
      invariant 0 <= j <= i
      invariant forall k :: 0 <= k < j ==> a[k] == s0[k]
      invariant forall k :: j < k <= i ==> a[k] == s0[k - 1]
      invariant forall k :: i < k < a.Length ==> a[k] == s0[k]
      invariant forall k :: j <= k < i ==> key(s0[k]) > key(x)
    {
      a[j] := a[j - 1];
      j := j - 1;
    }
  }

  /** After the shift, the first `|p| + 1` places hold `p` with `x` put in at `j`. */
  lemma ShiftedIn<T>(fin: seq<T>, p: seq<T>, x: T, j: nat)
    requires j <= |p| < |fin| && fin[j] == x
    requires forall k :: 0 <= k < j ==> fin[k] == p[k]
    requires forall k :: j < k <= |p| ==> fin[k] == p[k - 1]
    ensures fin[..|p| + 1] == p[..j] + [x] + p[j..]
  {
    var r := p[..j] + [x] + p[j..];
    forall k | 0 <= k < |p| + 1 ensures fin[k] == r[k] {
      if k < j {
        assert r[k] == p[k];
      } else if k > j {
        assert r[k] == p[k - 1];
      }
    }
  }

  /** Sorts `a` in place, as `a.sort((u, v) => key(u) - key(v))` does. */
  method SortInPlace<T>(a: array<T>, key: T -> int)
    modifies a
    ensures a[..] == SortByKey(old(a[..]), key)
  {
    ghost var s := a[..];
    var i := 0;
    while i < a.Length
      invariant 0 <= i <= a.Length
      invariant a[..i] == SortByKey(s[..i], key)
      invariant a[i..] == s[i..]
    {
      ghost var before := a[..];
      InsertStep(a, i, key);
      assert before[i] == s[i];
      assert s[..i + 1][..i] == s[..i];
      assert a[i + 1..] == s[i + 1..];
      i := i + 1;
    }
    assert a[..] == a[..a.Length];
    assert s == s[..a.Length];
  }
}

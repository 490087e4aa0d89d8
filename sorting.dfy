/** Stable ascending sort of a sequence by an integer key: the model of
    `stream().sorted(Comparator.comparing(key))` and `List.sort`, which are
    stable in Java. */
module Sorting {
  import opened Sequences

  ghost predicate SortedBy<T>(s: seq<T>, key: T -> int) {
    forall i, j :: 0 <= i < j < |s| ==> key(s[i]) <= key(s[j])
  }

  /** Every key in `s` is at most `bound`. */
  ghost predicate KeysAtMost<T>(s: seq<T>, key: T -> int, bound: int) {
    forall i :: 0 <= i < |s| ==> key(s[i]) <= bound
  }

  /** `x` inserted into the sorted `s` after every element whose key is not larger. */
  function InsertBy<T>(s: seq<T>, x: T, key: T -> int): (r: seq<T>)
    requires SortedBy(s, key)
    ensures SortedBy(r, key)
    ensures multiset(r) == multiset(s) + multiset{x}
    ensures |r| == |s| + 1
    ensures forall b :: KeysAtMost(s, key, b) && key(x) <= b ==> KeysAtMost(r, key, b)
    decreases |s|
  {
    if s == [] || key(s[|s| - 1]) <= key(x) then
      SortedAppend(s, x, key);
      s + [x]
    else
      var last := s[|s| - 1];
      var init := s[..|s| - 1];
      assert s == init + [last];
      assert KeysAtMost(init, key, key(last));
      var front := InsertBy(init, x, key);
      SortedAppend(front, last, key);
      front + [last]
  }

  /** Appending an element whose key bounds every element keeps a sequence sorted. */
  lemma SortedAppend<T>(s: seq<T>, x: T, key: T -> int)
    requires SortedBy(s, key)
    requires KeysAtMost(s, key, key(x))
    ensures SortedBy(s + [x], key)
  {
  }

  /** A non-empty sequence is its front plus its last element. */
  lemma SplitLast<T>(s: seq<T>)
    requires s != []
    ensures s[..|s| - 1] + [s[|s| - 1]] == s
  {
  }

  /** Inserting an element whose key is at least the last key appends it. */
  lemma InsertAtEnd<T>(s: seq<T>, x: T, key: T -> int)
    requires SortedBy(s, key)
    requires s == [] || key(s[|s| - 1]) <= key(x)
    ensures InsertBy(s, x, key) == s + [x]
  {
  }

  /** A sorted, non-empty sequence is its sorted front plus a last element with
      the largest key. */
  lemma SortedSplit<T>(s: seq<T>, key: T -> int)
    requires SortedBy(s, key) && s != []
    ensures SortedBy(s[..|s| - 1], key)
    ensures |s| == 1 || key(s[..|s| - 1][|s| - 2]) <= key(s[|s| - 1])
  {
  }

  /** Insertion sort: the stable ascending sort of `s` by `key`. */
  function SortBy<T>(s: seq<T>, key: T -> int): (r: seq<T>)
    ensures SortedBy(r, key)
    ensures multiset(r) == multiset(s)
    ensures |r| == |s|
    decreases |s|
  {
    if s == [] then []
    else
      assert s == s[..|s| - 1] + [s[|s| - 1]];
      InsertBy(SortBy(s[..|s| - 1], key), s[|s| - 1], key)
  }

  /** The elements whose key is `k`. */
  function KeyIs<T(!new)>(key: T -> int, k: int): (r: T -> bool)
    ensures forall x :: r(x) <==> key(x) == k
  {
    x => key(x) == k
  }

  /** Inserting `x` into a sorted sequence puts it after every element with its key:
      among the elements of one key, `x` comes last. */
  lemma {:induction false} InsertByStable<T(!new)>(s: seq<T>, x: T, key: T -> int, k: int)
    requires SortedBy(s, key)
    ensures Filter(InsertBy(s, x, key), KeyIs(key, k)) == Filter(s + [x], KeyIs(key, k))
    decreases |s|
  {
    var p := KeyIs(key, k);
    if s != [] && key(s[|s| - 1]) > key(x) {
      var last, init := s[|s| - 1], s[..|s| - 1];
      var front := InsertBy(init, x, key);
      assert s == init + [last];
      assert InsertBy(s, x, key) == front + [last];
      InsertByStable(init, x, key, k);
      FilterAppend(front, [last], p);
      FilterAppend(init, [x], p);
      FilterAppend(init, [last], p);
      FilterAppend(s, [x], p);
      OneOfTwo(Filter(init, p), x, last, p);
    }
  }

  /** Two elements of which at most one passes `p` can follow `a` in either order. */
  lemma OneOfTwo<T(!new)>(a: seq<T>, x: T, y: T, p: T -> bool)
    requires !(p(x) && p(y))
    ensures a + Filter([x], p) + Filter([y], p) == a + Filter([y], p) + Filter([x], p)
  {
    assert Filter([x], p) == (if p(x) then [x] else []);
    assert Filter([y], p) == (if p(y) then [y] else []);
  }

  /** The sort is stable: the elements of any one key come out in the order they
      went in. */
  lemma {:induction false} SortByStable<T(!new)>(s: seq<T>, key: T -> int, k: int)
    ensures Filter(SortBy(s, key), KeyIs(key, k)) == Filter(s, KeyIs(key, k))
    decreases |s|
  {
    if s != [] {
      var init, last := s[..|s| - 1], s[|s| - 1];
      SortByStable(init, key, k);
      InsertByStable(SortBy(init, key), last, key, k);
      FilterAppend(SortBy(init, key), [last], KeyIs(key, k));
      FilterAppend(init, [last], KeyIs(key, k));
      SplitLast(s);
    }
  }

  /** Sorting keeps exactly the elements it was given. */
  lemma SortByMembers<T>(s: seq<T>, key: T -> int)
    ensures forall x :: x in SortBy(s, key) <==> x in s
  {
    var r := SortBy(s, key);
    forall x ensures x in r <==> x in s {
      calc {
        x in r;
        x in multiset(r);
        x in multiset(s);
        x in s;
      }
    }
  }

  /** Sorting an already sorted sequence changes nothing. */
  lemma {:induction false} SortBySorted<T>(s: seq<T>, key: T -> int)
    requires SortedBy(s, key)
    ensures SortBy(s, key) == s
    decreases |s|
  {
    if s != [] {
      var init, last := s[..|s| - 1], s[|s| - 1];
      SortedSplit(s, key);
      SortBySorted(init, key);
      InsertAtEnd(init, last, key);
      SplitLast(s);
    }
  }

  /** The keys of a sequence, in order. */
  function Keys<T>(s: seq<T>, key: T -> int): (r: seq<int>)
    ensures |r| == |s|
    ensures forall i :: 0 <= i < |s| ==> r[i] == key(s[i])
  {
    seq(|s|, i requires 0 <= i < |s| => key(s[i]))
  }

  /** The last element of a sorted sequence carries its largest key. */
  lemma LastIsLargest<T>(s: seq<T>, key: T -> int, y: T)
    requires SortedBy(s, key) && y in multiset(s)
    ensures key(y) <= key(s[|s| - 1])
  {
    var i :| 0 <= i < |s| && s[i] == y;
  }

  /** `b` without its element at index `j`. */
  function RemoveAt<T>(b: seq<T>, j: int): (r: seq<T>)
    requires 0 <= j < |b|
    ensures |r| == |b| - 1
    ensures forall p :: 0 <= p < j ==> r[p] == b[p]
    ensures forall p :: j <= p < |r| ==> r[p] == b[p + 1]
    ensures multiset(r) == multiset(b) - multiset{b[j]}
  {
    assert b == b[..j] + [b[j]] + b[j + 1..];
    b[..j] + b[j + 1..]
  }

  /** Removing one element keeps a sequence sorted. */
  lemma SortedRemove<T>(b: seq<T>, j: int, key: T -> int)
    requires SortedBy(b, key) && 0 <= j < |b|
    ensures SortedBy(RemoveAt(b, j), key)
  {
    var r := RemoveAt(b, j);
    forall p, q | 0 <= p < q < |r| ensures key(r[p]) <= key(r[q]) {
      assert r[p] == b[if p < j then p else p + 1];
      assert r[q] == b[if q < j then q else q + 1];
    }
  }

  /** In a sorted sequence, every element from `j` on whose key equals the
      last key shares that key. */
  lemma SortedTailKeys<T>(b: seq<T>, j: int, key: T -> int)
    requires SortedBy(b, key) && 0 <= j < |b|
    requires key(b[j]) == key(b[|b| - 1])
    ensures forall k :: j <= k < |b| ==> key(b[k]) == key(b[j])
  {
    forall k | j <= k < |b| ensures key(b[k]) == key(b[j]) {
      assert key(b[j]) <= key(b[k]) <= key(b[|b| - 1]);
    }
  }

  /** The inductive step of `SortedKeysUnique`: when the keys agree once the last
      element of `a` is dropped from `a` and from `b` (at index `j`), they agree. */
  lemma KeysAfterRemoval<T>(a: seq<T>, b: seq<T>, j: int, key: T -> int)
    requires |a| == |b| > 0 && 0 <= j < |b| && b[j] == a[|a| - 1]
    requires SortedBy(b, key)
    requires key(a[|a| - 1]) == key(b[|b| - 1])
    requires Keys(a[..|a| - 1], key) == Keys(RemoveAt(b, j), key)
    ensures Keys(a, key) == Keys(b, key)
  {
    var n := |a| - 1;
    var a', b' := a[..n], RemoveAt(b, j);
    SortedTailKeys(b, j, key);
    forall k | 0 <= k <= n ensures Keys(a, key)[k] == Keys(b, key)[k] {
      if k < n {
        assert Keys(a', key)[k] == Keys(b', key)[k];
        assert a[k] == a'[k];
        if k < j { assert b'[k] == b[k]; } else { assert b'[k] == b[k + 1]; }
      }
    }
  }

  /** Dropping the last element of `a` from two sequences with equal multisets. */
  lemma DropMatching<T>(a: seq<T>, b: seq<T>, j: int)
    requires multiset(a) == multiset(b) && a != [] && 0 <= j < |b| && b[j] == a[|a| - 1]
    ensures multiset(a[..|a| - 1]) == multiset(RemoveAt(b, j))
  {
    assert a == a[..|a| - 1] + [a[|a| - 1]];
  }

  /** Two sorted sequences holding the same elements have the same key sequence:
      as far as the keys go, a sort is determined by the multiset it sorts. */
  lemma {:induction false} SortedKeysUnique<T>(a: seq<T>, b: seq<T>, key: T -> int)
    requires multiset(a) == multiset(b)
    requires SortedBy(a, key) && SortedBy(b, key)
    ensures Keys(a, key) == Keys(b, key)
    decreases |a|
  {
    assert |a| == |multiset(a)| == |b|;
    if a != [] {
      var n := |a| - 1;
      assert b[n] in multiset(a);
      LastIsLargest(a, key, b[n]);
      assert a[n] in multiset(b);
      LastIsLargest(b, key, a[n]);
      // drop a's last element from both sides: from b, at one of its occurrences j
      var j :| 0 <= j < |b| && b[j] == a[n];
      DropMatching(a, b, j);
      SortedRemove(b, j, key);
      assert SortedBy(a[..n], key);
      SortedKeysUnique(a[..n], RemoveAt(b, j), key);
      KeysAfterRemoval(a, b, j, key);
    } else {
      assert b == [];
    }
  }
}

/**
 * `Array.prototype.sort` with a comparator, as the pages use it: a stable sort, in place, by a
 * comparison that is a total preorder. Each comparator of the pages is expressed as a sort key
 * `Key(rank, tie, text)`, compared by rank, then tie, then text.
 */
module Sorting {
  import opened Text
  import opened Seqs

  datatype Key = Key(rank: int, tie: int, text: string)

  /** `a` may come before `b`. */
  predicate KeyLe(a: Key, b: Key)
  {
    a.rank < b.rank || (a.rank == b.rank && (a.tie < b.tie || (a.tie == b.tie && LexLe(a.text, b.text))))
  }

  lemma KeyLeTotal(a: Key, b: Key)
    ensures KeyLe(a, b) || KeyLe(b, a)
  {
    LexLeTotal(a.text, b.text);
  }

  lemma KeyLeTransitive(a: Key, b: Key, c: Key)
    requires KeyLe(a, b) && KeyLe(b, c)
    ensures KeyLe(a, c)
  {
    if a.rank == b.rank == c.rank && a.tie == b.tie == c.tie {
      LexLeTransitive(a.text, b.text, c.text);
    }
  }

  /** Every key is at or before every later key. */
  ghost predicate Sorted<T>(s: seq<T>, key: T -> Key)
  {
    forall i, j :: 0 <= i < j < |s| ==> KeyLe(key(s[i]), key(s[j]))
  }

  /**
   * One step of insertion sort: `x` is placed after the last element of `s` whose key is at or
   * before its own, so equal keys keep their order.
   */
  function Insert<T>(s: seq<T>, x: T, key: T -> Key): seq<T>
  {
    if s == [] then [x]
    else if !KeyLe(key(s[|s| - 1]), key(x)) then Insert(s[..|s| - 1], x, key) + [s[|s| - 1]]
    else s + [x]
  }

  /** The stable sort of `s` by `key`: the reference for what `items.sort(cmp)` leaves in `items`. */
  function SortBy<T>(s: seq<T>, key: T -> Key): seq<T>
  {
    if s == [] then [] else Insert(SortBy(s[..|s| - 1], key), s[|s| - 1], key)
  }

  lemma {:induction false} InsertMultiset<T>(s: seq<T>, x: T, key: T -> Key)
    ensures multiset(Insert(s, x, key)) == multiset(s) + multiset{x}
  {
    if s != [] && !KeyLe(key(s[|s| - 1]), key(x)) {
      InsertMultiset(s[..|s| - 1], x, key);
      assert s == s[..|s| - 1] + [s[|s| - 1]];
    }
  }

  lemma {:induction false} InsertSorted<T>(s: seq<T>, x: T, key: T -> Key)
    requires Sorted(s, key)
    ensures Sorted(Insert(s, x, key), key)
  {
    if s == [] {
    } else if !KeyLe(key(s[|s| - 1]), key(x)) {
      var init, last := s[..|s| - 1], s[|s| - 1];
      InsertSorted(init, x, key);
      InsertMultiset(init, x, key);
      var ins := Insert(init, x, key);
      KeyLeTotal(key(last), key(x));
      forall i | 0 <= i < |ins|
        ensures KeyLe(key(ins[i]), key(last))
      {
        assert ins[i] in multiset(ins);
        if ins[i] != x {
          assert ins[i] in multiset(init);
          var k :| 0 <= k < |init| && init[k] == ins[i];
          assert s[k] == ins[i];
        }
      }
      var r := ins + [last];
      forall i, j | 0 <= i < j < |r|
        ensures KeyLe(key(r[i]), key(r[j]))
      {
        if j < |ins| {
          assert r[i] == ins[i] && r[j] == ins[j];
        }
      }
    } else {
      var last := s[|s| - 1];
      var r := s + [x];
      forall i, j | 0 <= i < j < |r|
        ensures KeyLe(key(r[i]), key(r[j]))
      {
        if j == |s| && i < |s| - 1 {
          KeyLeTransitive(key(s[i]), key(last), key(x));
        }
      }
    }
  }

  /** The sort leaves every key at or before every later one. */
  lemma {:induction false} SortBySorted<T>(s: seq<T>, key: T -> Key)
    ensures Sorted(SortBy(s, key), key)
  {
    if s != [] {
      SortBySorted(s[..|s| - 1], key);
      InsertSorted(SortBy(s[..|s| - 1], key), s[|s| - 1], key);
    }
  }

  /** The sort is a permutation: it neither drops, adds nor duplicates an element. */
  lemma {:induction false} SortByPermutes<T>(s: seq<T>, key: T -> Key)
    ensures multiset(SortBy(s, key)) == multiset(s)
    ensures |SortBy(s, key)| == |s|
  {
    if s != [] {
      SortByPermutes(s[..|s| - 1], key);
      InsertMultiset(SortBy(s[..|s| - 1], key), s[|s| - 1], key);
      assert s == s[..|s| - 1] + [s[|s| - 1]];
    }
    assert |SortBy(s, key)| == |multiset(SortBy(s, key))|;
  }

  /** The elements whose key is `k`. */
  function KeyIs<T>(key: T -> Key, k: Key): T -> bool
  {
    y => key(y) == k
  }

  lemma {:induction false} InsertKeepsEqualKeysInOrder<T>(s: seq<T>, x: T, key: T -> Key, k: Key)
    ensures Filter(Insert(s, x, key), KeyIs(key, k))
         == Filter(s, KeyIs(key, k)) + (if key(x) == k then [x] else [])
  {
    var p := KeyIs(key, k);
    if s == [] {
      FilterSingle(x, p);
    } else {
      var init, last := s[..|s| - 1], s[|s| - 1];
      assert s == init + [last];
      FilterAppend(init, [last], p);
      FilterSingle(last, p);
      if !KeyLe(key(last), key(x)) {
        InsertKeepsEqualKeysInOrder(init, x, key, k);
        FilterAppend(Insert(init, x, key), [last], p);
        if key(x) == k {
          assert key(last) != k by {
            LexLeTotal(key(last).text, key(x).text);
          }
        }
      } else {
        FilterAppend(s, [x], p);
        FilterSingle(x, p);
      }
    }
  }

  /** Stability: elements with equal keys keep their original relative order. */
  lemma {:induction false} SortByStable<T>(s: seq<T>, key: T -> Key, k: Key)
    ensures Filter(SortBy(s, key), KeyIs(key, k)) == Filter(s, KeyIs(key, k))
  {
    var p := KeyIs(key, k);
    if s != [] {
      var init, last := s[..|s| - 1], s[|s| - 1];
      SortByStable(init, key, k);
      InsertKeepsEqualKeysInOrder(SortBy(init, key), last, key, k);
      assert s == init + [last];
      FilterAppend(init, [last], p);
      FilterSingle(last, p);
    }
  }

  /** `x` goes right after the last element at or before it, ahead of the larger ones that follow. */
  lemma {:induction false} InsertAt<T>(d: seq<T>, x: T, key: T -> Key, j: nat)
    requires j <= |d| && (j == 0 || KeyLe(key(d[j - 1]), key(x)))
    requires forall k :: j <= k < |d| ==> !KeyLe(key(d[k]), key(x))
    ensures Insert(d, x, key) == d[..j] + [x] + d[j..]
  {
    if j < |d| {
      var init, last := d[..|d| - 1], d[|d| - 1];
      assert !KeyLe(key(last), key(x));
      InsertAt(init, x, key, j);
      assert init[..j] == d[..j];
      assert init[j..] + [last] == d[j..];
    } else if d != [] {
      assert KeyLe(key(d[|d| - 1]), key(x));
    }
  }

  /** A sequence that agrees with `done` before `j`, holds `x` at `j` and `done` shifted after it. */
  lemma Placed<T>(cur: seq<T>, done: seq<T>, x: T, j: nat)
    requires |cur| == |done| + 1 && j <= |done|
    requires forall k :: 0 <= k < j ==> cur[k] == done[k]
    requires cur[j] == x
    requires forall k :: j < k < |cur| ==> cur[k] == done[k - 1]
    ensures cur == done[..j] + [x] + done[j..]
  {
    var placed := done[..j] + [x] + done[j..];
    forall k | 0 <= k < |cur|
      ensures cur[k] == placed[k]
    {
      if k > j {
        assert placed[k] == done[j..][k - j - 1];
      }
    }
  }

  /** The scan of one Insert step: elements after `x` are moved one place right until one is at or before it. */
  method ShiftRight<T>(a: array<T>, i: nat, x: T, key: T -> Key) returns (j: nat)
    requires i < a.Length
    modifies a
    ensures j <= i && (j == 0 || KeyLe(key(a[j - 1]), key(x)))
    ensures forall k :: 0 <= k < j ==> a[k] == old(a[k])
    ensures forall k :: j < k <= i ==> a[k] == old(a[k - 1])
    ensures forall k :: i < k < a.Length ==> a[k] == old(a[k])
    ensures forall k :: j <= k < i ==> !KeyLe(key(old(a[k])), key(x))
  {
    j := i;
    while j > 0 && !KeyLe(key(a[j - 1]), key(x))
      invariant 0 <= j <= i
      invariant forall k :: 0 <= k < j ==> a[k] == old(a[k])
      invariant forall k :: j < k <= i ==> a[k] == old(a[k - 1])
      invariant forall k :: i < k < a.Length ==> a[k] == old(a[k])
      invariant forall k :: j <= k < i ==> !KeyLe(key(old(a[k])), key(x))
    {
      a[j] := a[j - 1];
      j := j - 1;
    }
  }

  /** One Insert step on the prefix: the element at `i` is shifted left into the sorted part. */
  method InsertInPlace<T>(a: array<T>, i: nat, key: T -> Key)
    requires i < a.Length
    modifies a
    ensures a[..i + 1] == Insert(old(a[..i]), old(a[i]), key)
    ensures a[i + 1..] == old(a[i + 1..])
  {
    var x := a[i];
    ghost var done := a[..i];
    var j := ShiftRight(a, i, x, key);
    a[j] := x;
    InsertAt(done, x, key, j);
    Placed(a[..i + 1], done, x, j);
  }

  /** `items.sort(cmp)`: insertion sort in place, proved to leave the reference sort behind. */
  method SortInPlace<T>(a: array<T>, key: T -> Key)
    modifies a
    ensures a[..] == SortBy(old(a[..]), key)
  {
    ghost var input := a[..];
    var i := 0;
    while i < a.Length
      invariant 0 <= i <= a.Length
      invariant a[..i] == SortBy(input[..i], key)
      invariant a[i..] == input[i..]
    {
      InsertInPlace(a, i, key);
      assert input[..i + 1][..i] == input[..i];
      assert a[i + 1..] == input[i + 1..];
      i := i + 1;
    }
    assert input[..a.Length] == input;
  }
}

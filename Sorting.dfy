/**
 * Python's `sorted(xs, key=...)` (also with `reverse=True`), as a stable
 * insertion sort. `le(a, b)` says that `a` may stand before `b`; for a key
 * sorted in descending order it is `key(a) >= key(b)`.
 */
module Sorting {

  ghost predicate TotalPreorder<T(!new)>(le: (T, T) -> bool)
  {
    && (forall a, b :: le(a, b) || le(b, a))
    && (forall a, b, c :: le(a, b) && le(b, c) ==> le(a, c))
  }

  ghost predicate SortedBy<T>(s: seq<T>, le: (T, T) -> bool)
  {
    forall i, j :: 0 <= i < j < |s| ==> le(s[i], s[j])
  }

  /** Put `x`, which came later in the input, after every element it may follow. */
  function Insert<T>(x: T, s: seq<T>, le: (T, T) -> bool): (r: seq<T>)
    ensures multiset(r) == multiset(s) + multiset{x}
  {
    if s == [] then [x]
    else if le(s[0], x) then
      assert s == [s[0]] + s[1..];
      [s[0]] + Insert(x, s[1..], le)
    else [x] + s
  }

  /** `sorted(s, key=...)`. */
  function Sort<T>(s: seq<T>, le: (T, T) -> bool): (r: seq<T>)
    ensures multiset(r) == multiset(s)
  {
    if s == [] then []
    else
      assert s == s[..|s| - 1] + [s[|s| - 1]];
      Insert(s[|s| - 1], Sort(s[..|s| - 1], le), le)
  }

  lemma {:induction false} InsertSorted<T(!new)>(x: T, s: seq<T>, le: (T, T) -> bool)
    requires TotalPreorder(le) && SortedBy(s, le)
    ensures SortedBy(Insert(x, s, le), le)
    decreases |s|
  {
    if s != [] && le(s[0], x) {
      InsertSorted(x, s[1..], le);
      var r := Insert(x, s, le);
      var t := Insert(x, s[1..], le);
      assert r == [s[0]] + t;
      assert forall y :: y in t ==> le(s[0], y) by {
        forall y | y in t ensures le(s[0], y) {
          assert y in multiset(t);
          assert y == x || y in multiset(s[1..]);
          if y != x {
            var k :| 0 <= k < |s[1..]| && s[1..][k] == y;
            assert s[k + 1] == y;
          }
        }
      }
      forall i, j | 0 <= i < j < |r| ensures le(r[i], r[j]) {
        if i == 0 { assert r[j] == t[j - 1]; assert t[j - 1] in t; }
        else { assert r[i] == t[i - 1] && r[j] == t[j - 1]; }
      }
    } else if s != [] {
      var r := [x] + s;
      forall i, j | 0 <= i < j < |r| ensures le(r[i], r[j]) {
        if i == 0 {
          assert le(x, s[0]);
          if j > 1 { assert le(s[0], s[j - 1]); }
        } else {
          assert r[i] == s[i - 1] && r[j] == s[j - 1];
        }
      }
    }
  }

  /** A prefix of a sorted sequence is sorted and takes no element the sequence lacks. */
  lemma PrefixSorted<T>(s: seq<T>, n: nat, le: (T, T) -> bool)
    requires SortedBy(s, le) && n <= |s|
    ensures SortedBy(s[..n], le) && multiset(s[..n]) <= multiset(s)
  {
    assert s == s[..n] + s[n..];
  }

  /** The first element of a sorted sequence may stand before every element of it. */
  lemma HeadFirst<T(!new)>(s: seq<T>, x: T, le: (T, T) -> bool)
    requires TotalPreorder(le) && SortedBy(s, le) && x in s
    ensures le(s[0], x)
  {
    var j :| 0 <= j < |s| && s[j] == x;
    if j == 0 {
      assert le(x, x) || le(x, x);
    }
  }

  /** The sort's result is in order and is a permutation of its input. */
  lemma {:induction false} SortSorted<T(!new)>(s: seq<T>, le: (T, T) -> bool)
    requires TotalPreorder(le)
    ensures SortedBy(Sort(s, le), le) && multiset(Sort(s, le)) == multiset(s)
    decreases |s|
  {
    if s != [] {
      SortSorted(s[..|s| - 1], le);
      InsertSorted(s[|s| - 1], Sort(s[..|s| - 1], le), le);
    }
  }

  // ---------------------------------------------------------------------
  // Stability for an order by a numeric key
  // ---------------------------------------------------------------------

  /** The elements of `s` whose key is `v`, in their order in `s`. */
  function Keep<T>(s: seq<T>, key: T -> int, v: int): (r: seq<T>)
    ensures |r| <= |s|
    decreases |s|
  {
    if s == [] then []
    else (if key(s[0]) == v then [s[0]] else []) + Keep(s[1..], key, v)
  }

  lemma {:induction false} KeepAppend<T>(a: seq<T>, b: seq<T>, key: T -> int, v: int)
    ensures Keep(a + b, key, v) == Keep(a, key, v) + Keep(b, key, v)
    decreases |a|
  {
    if a == [] {
      assert a + b == b;
    } else {
      var h := if key(a[0]) == v then [a[0]] else [];
      assert (a + b)[0] == a[0];
      assert (a + b)[1..] == a[1..] + b;
      KeepAppend(a[1..], b, key, v);
      calc {
        Keep(a + b, key, v);
        h + Keep(a[1..] + b, key, v);
        h + (Keep(a[1..], key, v) + Keep(b, key, v));
        (h + Keep(a[1..], key, v)) + Keep(b, key, v);
      }
    }
  }

  /** An order that compares keys, larger first, is a total preorder. */
  lemma KeyOrderIsPreorder<T(!new)>(le: (T, T) -> bool, key: T -> int)
    requires forall a, b :: le(a, b) <==> key(a) >= key(b)
    ensures TotalPreorder(le)
  {
  }

  /** Inserting `x` into a sorted sequence puts it after every element with the same key. */
  lemma {:induction false} InsertStable<T(!new)>(x: T, s: seq<T>, le: (T, T) -> bool, key: T -> int, v: int)
    requires forall a, b :: le(a, b) <==> key(a) >= key(b)
    requires SortedBy(s, le)
    ensures Keep(Insert(x, s, le), key, v) == Keep(s, key, v) + Keep([x], key, v)
    decreases |s|
  {
    if s == [] {
    } else if le(s[0], x) {
      var t := s[1..];
      DropSorted(s, le);
      InsertStable(x, t, le, key, v);
      InsertAfterHead(x, s, le, key, v);
    } else {
      InsertBeforeAll(x, s, le, key, v);
    }
  }

  lemma DropSorted<T>(s: seq<T>, le: (T, T) -> bool)
    requires s != [] && SortedBy(s, le)
    ensures SortedBy(s[1..], le)
  {
    var t := s[1..];
    forall i, j | 0 <= i < j < |t| ensures le(t[i], t[j]) {
      assert t[i] == s[i + 1] && t[j] == s[j + 1];
    }
  }

  /** The step of `InsertStable` where `x` goes after the head. */
  lemma InsertAfterHead<T>(x: T, s: seq<T>, le: (T, T) -> bool, key: T -> int, v: int)
    requires s != [] && le(s[0], x)
    requires Keep(Insert(x, s[1..], le), key, v) == Keep(s[1..], key, v) + Keep([x], key, v)
    ensures Keep(Insert(x, s, le), key, v) == Keep(s, key, v) + Keep([x], key, v)
  {
    var t := Insert(x, s[1..], le);
    var h := if key(s[0]) == v then [s[0]] else [];
    var r := [s[0]] + t;
    assert Insert(x, s, le) == r;
    assert r[0] == s[0] && r[1..] == t;
    calc {
      Keep(r, key, v);
      h + Keep(t, key, v);
      h + (Keep(s[1..], key, v) + Keep([x], key, v));
      (h + Keep(s[1..], key, v)) + Keep([x], key, v);
    }
  }

  /** The step of `InsertStable` where `x` goes in front. */
  lemma InsertBeforeAll<T(!new)>(x: T, s: seq<T>, le: (T, T) -> bool, key: T -> int, v: int)
    requires forall a, b :: le(a, b) <==> key(a) >= key(b)
    requires s != [] && SortedBy(s, le) && !le(s[0], x)
    ensures Keep(Insert(x, s, le), key, v) == Keep(s, key, v) + Keep([x], key, v)
  {
    assert Insert(x, s, le) == [x] + s;
    KeepAppend([x], s, key, v);
    if key(x) == v {
      forall i | 0 <= i < |s| ensures key(s[i]) != v {
        if i > 0 { assert le(s[0], s[i]); }
      }
      KeepNone(s, key, v);
    }
  }

  /** Nothing is kept when no element has the key. */
  lemma {:induction false} KeepNone<T>(s: seq<T>, key: T -> int, v: int)
    requires forall i :: 0 <= i < |s| ==> key(s[i]) != v
    ensures Keep(s, key, v) == []
    decreases |s|
  {
    if s != [] {
      KeepNone(s[1..], key, v);
    }
  }

  /**
   * The sort by a key, larger first, is stable: the elements with any one
   * key come out in the order they went in.
   */
  lemma {:induction false} SortStable<T(!new)>(s: seq<T>, le: (T, T) -> bool, key: T -> int, v: int)
    requires forall a, b :: le(a, b) <==> key(a) >= key(b)
    ensures Keep(Sort(s, le), key, v) == Keep(s, key, v)
    decreases |s|
  {
    if s != [] {
      var init, last := s[..|s| - 1], s[|s| - 1];
      SortStable(init, le, key, v);
      KeyOrderIsPreorder(le, key);
      SortSorted(init, le);
      InsertStable(last, Sort(init, le), le, key, v);
      assert s == init + [last];
      KeepAppend(init, [last], key, v);
    }
  }

  /** Sorting by a key, larger first: in order, a permutation, and stable for every key. */
  lemma SortByKey<T(!new)>(s: seq<T>, le: (T, T) -> bool, key: T -> int)
    requires forall a, b :: le(a, b) <==> key(a) >= key(b)
    ensures multiset(Sort(s, le)) == multiset(s)
    ensures forall i, j :: 0 <= i < j < |Sort(s, le)| ==> key(Sort(s, le)[i]) >= key(Sort(s, le)[j])
    ensures forall v :: Keep(Sort(s, le), key, v) == Keep(s, key, v)
  {
    KeyOrderIsPreorder(le, key);
    SortSorted(s, le);
    forall v ensures Keep(Sort(s, le), key, v) == Keep(s, key, v) {
      SortStable(s, le, key, v);
    }
  }
}

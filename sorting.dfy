/** The two sorts the pages use: `Array.prototype.sort` with a numeric
    comparator (stable, ordered by a key) and the default string sort of
    `Array.from(new Set(xs)).sort()`. */
module Sorting {

  ghost predicate SortedBy<T>(s: seq<T>, key: T -> int)
  {
    forall i, j :: 0 <= i < j < |s| ==> key(s[i]) <= key(s[j])
  }

  /** Inserts `x` after every element whose key is not larger than its own. */
  function InsertBy<T>(x: T, s: seq<T>, key: T -> int): (r: seq<T>)
    requires SortedBy(s, key)
    ensures multiset(r) == multiset(s) + multiset{x}
    ensures |r| == |s| + 1
    ensures SortedBy(r, key)
  {
    if s == [] then [x]
    else if key(x) < key(s[0]) then [x] + s
    else
      var t := InsertBy(x, s[1..], key);
      assert s == [s[0]] + s[1..];
      BoundKept(s[0], s[1..], x, t, key);
      [s[0]] + t
  }

  /** An element no larger than `rest` and `x` is no larger than any
      rearrangement of them, so it may head the sorted result. */
  lemma BoundKept<T>(h: T, rest: seq<T>, x: T, t: seq<T>, key: T -> int)
    requires SortedBy([h] + rest, key) && key(h) <= key(x)
    requires SortedBy(t, key) && multiset(t) == multiset(rest) + multiset{x}
    ensures SortedBy([h] + t, key)
  {
    forall k | 0 <= k < |t| ensures key(h) <= key(t[k]) {
      assert t[k] in multiset(t);
      if t[k] != x {
        assert t[k] in multiset(rest);
        var m :| 0 <= m < |rest| && rest[m] == t[k];
        assert ([h] + rest)[0] == h && ([h] + rest)[m + 1] == t[k];
        assert key(([h] + rest)[0]) <= key(([h] + rest)[m + 1]);
      }
    }
  }

  /** Insertion sort by `key`, ascending. The first element is inserted
      first, so elements with equal keys keep their order (`SortByIsStable`). */
  function SortBy<T>(s: seq<T>, key: T -> int): (r: seq<T>)
    ensures multiset(r) == multiset(s)
    ensures |r| == |s|
    ensures SortedBy(r, key)
  {
    if s == [] then []
    else
      assert s == s[..|s| - 1] + [s[|s| - 1]];
      InsertBy(s[|s| - 1], SortBy(s[..|s| - 1], key), key)
  }

  /** The elements of `s` whose key is `k`, in their order in `s`. */
  function WithKey<T>(s: seq<T>, key: T -> int, k: int): seq<T>
  {
    if s == [] then []
    else WithKey(s[..|s| - 1], key, k) + (if key(s[|s| - 1]) == k then [s[|s| - 1]] else [])
  }

  lemma {:induction false} WithKeyAppend<T>(a: seq<T>, b: seq<T>, key: T -> int, k: int)
    ensures WithKey(a + b, key, k) == WithKey(a, key, k) + WithKey(b, key, k)
    decreases |b|
  {
    if b == [] {
      assert a + b == a;
    } else {
      assert (a + b)[..|a + b| - 1] == a + b[..|b| - 1];
      WithKeyAppend(a, b[..|b| - 1], key, k);
    }
  }

  lemma {:induction false} WithKeyNone<T>(s: seq<T>, key: T -> int, k: int)
    requires forall i :: 0 <= i < |s| ==> key(s[i]) != k
    ensures WithKey(s, key, k) == []
  {
    if s != [] {
      WithKeyNone(s[..|s| - 1], key, k);
    }
  }

  lemma WithKeySingle<T>(x: T, key: T -> int, k: int)
    ensures WithKey([x], key, k) == if key(x) == k then [x] else []
  {
    assert [x][..0] == [];
  }

  /** Inserting `x` puts it after every element with its key. */
  lemma {:induction false} InsertByWithKey<T>(x: T, s: seq<T>, key: T -> int, k: int)
    requires SortedBy(s, key)
    ensures WithKey(InsertBy(x, s, key), key, k) == WithKey(s, key, k) + WithKey([x], key, k)
  {
    if s == [] {
      assert InsertBy(x, s, key) == [x];
      assert WithKey(s, key, k) == [];
    } else if key(x) < key(s[0]) {
      assert InsertBy(x, s, key) == [x] + s;
      InsertBeforeAll(x, s, key, k);
    } else {
      var rest := s[1..];
      assert s == [s[0]] + rest;
      assert SortedBy(rest, key);
      assert InsertBy(x, s, key) == [s[0]] + InsertBy(x, rest, key);
      InsertByWithKey(x, rest, key, k);
      ConsKeepsRuns(s[0], InsertBy(x, rest, key), rest, [x], key, k);
    }
  }

  lemma ConsKeepsRuns<T>(h: T, a: seq<T>, b: seq<T>, c: seq<T>, key: T -> int, k: int)
    requires WithKey(a, key, k) == WithKey(b, key, k) + WithKey(c, key, k)
    ensures WithKey([h] + a, key, k) == WithKey([h] + b, key, k) + WithKey(c, key, k)
  {
    WithKeyAppend([h], a, key, k);
    WithKeyAppend([h], b, key, k);
  }

  /** An element whose key is below every key of `s` may go in front of it
      without changing the order of equal keys. */
  lemma InsertBeforeAll<T>(x: T, s: seq<T>, key: T -> int, k: int)
    requires forall i :: 0 <= i < |s| ==> key(x) < key(s[i])
    ensures WithKey([x] + s, key, k) == WithKey(s, key, k) + WithKey([x], key, k)
  {
    WithKeyAppend([x], s, key, k);
    WithKeySingle(x, key, k);
    if key(x) == k {
      WithKeyNone(s, key, k);
    }
  }

  /** The sort is stable: the elements with any one key come out in the
      order they went in. */
  lemma {:induction false} SortByIsStable<T>(s: seq<T>, key: T -> int, k: int)
    ensures WithKey(SortBy(s, key), key, k) == WithKey(s, key, k)
  {
    if s != [] {
      SortByIsStable(s[..|s| - 1], key, k);
      InsertKeepsRuns(s, SortBy(s[..|s| - 1], key), key, k);
    }
  }

  /** Inserting the last element of `s` into a sorted list with the runs of
      the rest of `s` gives the runs of `s`. */
  lemma InsertKeepsRuns<T>(s: seq<T>, sorted: seq<T>, key: T -> int, k: int)
    requires s != []
    requires SortedBy(sorted, key) && WithKey(sorted, key, k) == WithKey(s[..|s| - 1], key, k)
    ensures WithKey(InsertBy(s[|s| - 1], sorted, key), key, k) == WithKey(s, key, k)
  {
    InsertByWithKey(s[|s| - 1], sorted, key, k);
    WithKeySingle(s[|s| - 1], key, k);
  }

  // ---------------------------------------------------------------------------
  // Strings in the order of the default sort (character by character)

  predicate StrLess(a: string, b: string)
  {
    (a == [] && b != []) || (a != [] && b != [] && (a[0] < b[0] || (a[0] == b[0] && StrLess(a[1..], b[1..]))))
  }

  lemma {:induction false} StrLessIrreflexive(a: string)
    ensures !StrLess(a, a)
  {
    if a != [] { StrLessIrreflexive(a[1..]); }
  }

  lemma {:induction false} StrLessTransitive(a: string, b: string, c: string)
    requires StrLess(a, b) && StrLess(b, c)
    ensures StrLess(a, c)
  {
    if a != [] && a[0] == b[0] && b[0] == c[0] {
      StrLessTransitive(a[1..], b[1..], c[1..]);
    }
  }

  lemma {:induction false} StrLessTotal(a: string, b: string)
    requires a != b
    ensures StrLess(a, b) || StrLess(b, a)
  {
    if a != [] && b != [] && a[0] == b[0] {
      assert a == [a[0]] + a[1..] && b == [b[0]] + b[1..];
      StrLessTotal(a[1..], b[1..]);
    }
  }

  ghost predicate StrictlySorted(s: seq<string>)
  {
    forall i, j :: 0 <= i < j < |s| ==> StrLess(s[i], s[j])
  }

  /** Inserts `x` into a strictly sorted list unless it is already there. */
  function InsertDistinct(x: string, s: seq<string>): (r: seq<string>)
    requires StrictlySorted(s)
    ensures StrictlySorted(r)
    ensures forall k :: k in r <==> k in s || k == x
  {
    if s == [] then [x]
    else if x == s[0] then s
    else if StrLess(x, s[0]) then
      assert forall j :: 0 <= j < |s| ==> StrLess(x, s[j]) by {
        forall j | 0 <= j < |s| ensures StrLess(x, s[j]) {
          if j > 0 { StrLessTransitive(x, s[0], s[j]); }
        }
      }
      [x] + s
    else
      StrLessTotal(x, s[0]);
      var t := InsertDistinct(x, s[1..]);
      assert forall k :: 0 <= k < |t| ==> StrLess(s[0], t[k]) by {
        forall k | 0 <= k < |t| ensures StrLess(s[0], t[k]) {
          assert t[k] in t;
          if t[k] != x {
            var m :| 0 <= m < |s[1..]| && s[1..][m] == t[k];
            assert s[m + 1] == t[k];
          }
        }
      }
      assert s == [s[0]] + s[1..];
      [s[0]] + t
  }

  /** `Array.from(new Set(xs)).sort()`: the distinct strings of `xs` in
      increasing order. */
  function SortedDistinct(xs: seq<string>): (r: seq<string>)
    ensures StrictlySorted(r)
    ensures forall k :: k in r <==> k in xs
  {
    if xs == [] then []
    else
      assert xs == xs[..|xs| - 1] + [xs[|xs| - 1]];
      InsertDistinct(xs[|xs| - 1], SortedDistinct(xs[..|xs| - 1]))
  }

  /** A strictly sorted list has no repeated element. */
  lemma StrictlySortedIsDistinct(s: seq<string>)
    requires StrictlySorted(s)
    ensures forall i, j :: 0 <= i < j < |s| ==> s[i] != s[j]
  {
    forall i, j | 0 <= i < j < |s| ensures s[i] != s[j] {
      StrLessIrreflexive(s[i]);
    }
  }
}

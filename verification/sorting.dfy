/** Stable insertion sort on a string key, standing in for JavaScript's
    `Array.prototype.sort` with a `localeCompare` comparator (and for the
    default `sort()` on strings). On the fixed-width `HH:MM` and
    `YYYY-MM-DD` labels sorted here both orders agree with code-point order. */
module Sorting {
  import opened Text
  import opened Seqs

  ghost predicate SortedBy<T>(s: seq<T>, key: T -> string) {
    forall i, j :: 0 <= i < j < |s| ==> StrLeq(key(s[i]), key(s[j]))
  }

  /** Places x after every element whose key is not above x's key. */
  function Insert<T>(x: T, s: seq<T>, key: T -> string): (r: seq<T>)
    requires SortedBy(s, key)
    ensures SortedBy(r, key)
    ensures |r| == |s| + 1
    ensures multiset(r) == multiset(s) + multiset{x}
    ensures forall i :: 0 <= i < |r| ==> r[i] == x || r[i] in s
  {
    if |s| == 0 then [x]
    else if StrLess(key(x), key(s[0])) then
      InsertAtFront(x, s, key);
      [x] + s
    else
      var rest := Insert(x, s[1..], key);
      StrLessTotal(key(x), key(s[0]));
      InsertAfterHead(x, s, rest, key);
      assert s == [s[0]] + s[1..];
      [s[0]] + rest
  }

  lemma InsertAtFront<T>(x: T, s: seq<T>, key: T -> string)
    requires |s| > 0 && SortedBy(s, key) && StrLess(key(x), key(s[0]))
    ensures SortedBy([x] + s, key)
  {
    var r := [x] + s;
    forall i, j | 0 <= i < j < |r|
      ensures StrLeq(key(r[i]), key(r[j]))
    {
      if i == 0 {
        assert r[j] == s[j - 1];
        StrLeqTransitive(key(x), key(s[0]), key(s[j - 1]));
      } else {
        assert r[i] == s[i - 1] && r[j] == s[j - 1];
      }
    }
  }

  lemma InsertAfterHead<T>(x: T, s: seq<T>, rest: seq<T>, key: T -> string)
    requires |s| > 0 && SortedBy(s, key) && StrLeq(key(s[0]), key(x))
    requires SortedBy(rest, key)
    requires forall i :: 0 <= i < |rest| ==> rest[i] == x || rest[i] in s[1..]
    ensures SortedBy([s[0]] + rest, key)
  {
    var r := [s[0]] + rest;
    forall i, j | 0 <= i < j < |r|
      ensures StrLeq(key(r[i]), key(r[j]))
    {
      if i == 0 {
        assert r[j] == rest[j - 1];
        if r[j] != x {
          var k :| 1 <= k < |s| && s[k] == r[j];
          assert StrLeq(key(s[0]), key(s[k]));
        }
      } else {
        assert r[i] == rest[i - 1] && r[j] == rest[j - 1];
      }
    }
  }

  /** The elements whose key is k. */
  function KeyIs<T>(key: T -> string, k: string): T -> bool {
    x => key(x) == k
  }

  /** For every key, the elements carrying it appear in the same order in a and b. */
  ghost predicate SameKeyOrder<T>(a: seq<T>, b: seq<T>, key: T -> string) {
    forall k :: Filter(a, KeyIs(key, k)) == Filter(b, KeyIs(key, k))
  }

  /** The list sorted by key; equal keys keep their input order. */
  function SortBy<T>(s: seq<T>, key: T -> string): (r: seq<T>)
    ensures SortedBy(r, key)
    ensures |r| == |s|
    ensures multiset(r) == multiset(s)
    ensures SameKeyOrder(r, s, key)
  {
    if |s| == 0 then []
    else
      var init := s[..|s| - 1];
      assert s == init + [s[|s| - 1]];
      var sorted := SortBy(init, key);
      SortStep(init, s[|s| - 1], sorted, key);
      Insert(s[|s| - 1], sorted, key)
  }

  /** Inserting the next element keeps every key's run in input order. */
  lemma SortStep<T>(init: seq<T>, x: T, sorted: seq<T>, key: T -> string)
    requires SortedBy(sorted, key) && SameKeyOrder(sorted, init, key)
    ensures SameKeyOrder(Insert(x, sorted, key), init + [x], key)
  {
    forall k
      ensures Filter(Insert(x, sorted, key), KeyIs(key, k)) == Filter(init + [x], KeyIs(key, k))
    {
      InsertKeyRun(x, sorted, key, k);
      FilterAppend(init, [x], KeyIs(key, k));
      assert Filter([x], KeyIs(key, k)) == if key(x) == k then [x] else [];
    }
  }

  /** Insertion puts x after every element with the same key: the run of its
      key gains x at the end and every other run is unchanged. */
  lemma {:induction false} InsertKeyRun<T>(x: T, s: seq<T>, key: T -> string, k: string)
    requires SortedBy(s, key)
    ensures Filter(Insert(x, s, key), KeyIs(key, k)) == Filter(s, KeyIs(key, k)) + if key(x) == k then [x] else []
    decreases |s|
  {
    var p := KeyIs(key, k);
    if |s| == 0 {
      assert Insert(x, s, key) == [x];
      assert Filter([x], p) == (if p(x) then [x] else []) + Filter([x][1..], p);
    } else if StrLess(key(x), key(s[0])) {
      var r := [x] + s;
      assert Insert(x, s, key) == r;
      assert r[1..] == s;
      if key(x) == k {
        forall i | 0 <= i < |s|
          ensures !p(s[i])
        {
          BelowSortedHead(x, s, key, i);
        }
        FilterNone(s, p);
      }
    } else {
      var rest := Insert(x, s[1..], key);
      InsertKeyRun(x, s[1..], key, k);
      var r := [s[0]] + rest;
      assert Insert(x, s, key) == r;
      assert r[1..] == rest;
      assert Filter(r, p) == (if p(s[0]) then [s[0]] else []) + Filter(rest, p);
      assert Filter(s, p) == (if p(s[0]) then [s[0]] else []) + Filter(s[1..], p);
    }
  }

  /** A key below the head of a sorted list is below every key in it. */
  lemma BelowSortedHead<T>(x: T, s: seq<T>, key: T -> string, i: int)
    requires SortedBy(s, key) && 0 <= i < |s| && StrLess(key(x), key(s[0]))
    ensures key(s[i]) != key(x)
  {
    if i > 0 && key(s[i]) != key(s[0]) {
      assert StrLeq(key(s[0]), key(s[i]));
      StrLessTransitive(key(x), key(s[0]), key(s[i]));
      StrLessIrreflexive(key(x));
    } else {
      StrLessIrreflexive(key(x));
    }
  }
}

/**
 * `Array.prototype.sort(compare)`, which ECMAScript requires to be stable, for
 * the comparators the profile code uses: each compares a score of two integers,
 * larger first, the second integer breaking ties of the first. The model is an
 * insertion sort; `SortIsUnique` shows that any sequence that is ordered by score
 * and keeps every group of equal scores in input order is this one, so the choice
 * of algorithm does not matter.
 */
module StableSort {

  /** What a comparator looks at: `primary`, then `secondary`, both descending. */
  datatype Score = Score(primary: int, secondary: int)

  /** `compare(a, b) <= 0`: an element scoring `a` may stand ahead of one scoring `b`. */
  predicate AtLeast(a: Score, b: Score) {
    a.primary > b.primary || (a.primary == b.primary && a.secondary >= b.secondary)
  }

  ghost predicate Sorted<T>(s: seq<T>, key: T -> Score) {
    forall i, j :: 0 <= i < j < |s| ==> AtLeast(key(s[i]), key(s[j]))
  }

  /** The elements of `s` that score exactly `k`, in their order in `s`. */
  function Ties<T(!new)>(s: seq<T>, k: Score, key: T -> Score): (r: seq<T>)
    ensures forall x :: x in r <==> x in s && key(x) == k
  {
    if |s| == 0 then []
    else
      assert forall x :: x in s <==> x == s[0] || x in s[1..];
      (if key(s[0]) == k then [s[0]] else []) + Ties(s[1..], k, key)
  }

  /** Places `x` ahead of the first element it may stand ahead of. */
  function Insert<T(!new)>(x: T, s: seq<T>, key: T -> Score): (r: seq<T>)
    requires Sorted(s, key)
    ensures Sorted(r, key)
    ensures |r| == |s| + 1
    ensures multiset(r) == multiset(s) + multiset{x}
    ensures forall k :: Ties(r, k, key) == (if key(x) == k then [x] + Ties(s, k, key) else Ties(s, k, key))
  {
    if |s| == 0 then
      assert forall k :: Ties([x], k, key) == (if key(x) == k then [x] else []) + Ties([x][1..], k, key);
      [x]
    else if AtLeast(key(x), key(s[0])) then
      var r := [x] + s;
      assert r[1..] == s;
      r
    else
      var rest := Insert(x, s[1..], key);
      var r := [s[0]] + rest;
      assert r[1..] == rest;
      assert s == [s[0]] + s[1..];
      InsertBehind(x, s, rest, key);
      r
  }

  /** The inductive step of `Insert` when `x` goes behind the head of `s`. */
  lemma {:induction false} InsertBehind<T(!new)>(x: T, s: seq<T>, rest: seq<T>, key: T -> Score)
    requires 0 < |s| && Sorted(s, key) && !AtLeast(key(x), key(s[0]))
    requires Sorted(rest, key)
    requires multiset(rest) == multiset(s[1..]) + multiset{x}
    requires forall k :: Ties(rest, k, key) == (if key(x) == k then [x] + Ties(s[1..], k, key) else Ties(s[1..], k, key))
    ensures Sorted([s[0]] + rest, key)
    ensures forall k :: Ties([s[0]] + rest, k, key) == (if key(x) == k then [x] + Ties(s, k, key) else Ties(s, k, key))
  {
    InsertBehindSorted(x, s, rest, key);
    var r := [s[0]] + rest;
    assert r[1..] == rest;
  }

  lemma {:induction false} InsertBehindSorted<T(!new)>(x: T, s: seq<T>, rest: seq<T>, key: T -> Score)
    requires 0 < |s| && Sorted(s, key) && !AtLeast(key(x), key(s[0]))
    requires Sorted(rest, key)
    requires multiset(rest) == multiset(s[1..]) + multiset{x}
    ensures Sorted([s[0]] + rest, key)
  {
    var r := [s[0]] + rest;
    forall i, j | 0 <= i < j < |r| ensures AtLeast(key(r[i]), key(r[j])) {
      if i == 0 {
        assert r[j] == rest[j - 1];
        assert r[j] in multiset(rest);
        if r[j] != x {
          assert r[j] in multiset(s[1..]);
          var m :| 0 <= m < |s[1..]| && s[1..][m] == r[j];
          assert s[m + 1] == r[j];
        }
      } else {
        assert r[i] == rest[i - 1] && r[j] == rest[j - 1];
      }
    }
  }

  /** `s.sort(compare)` */
  function Sort<T(!new)>(s: seq<T>, key: T -> Score): (r: seq<T>)
    ensures Sorted(r, key)
    ensures |r| == |s|
    ensures multiset(r) == multiset(s)
    ensures forall k :: Ties(r, k, key) == Ties(s, k, key)
  {
    if |s| == 0 then []
    else
      assert s == [s[0]] + s[1..];
      Insert(s[0], Sort(s[1..], key), key)
  }

  /** Two sequences ordered by score with the same groups of equal scores are equal. */
  lemma {:induction false} SameTiesSameSequence<T(!new)>(r: seq<T>, q: seq<T>, key: T -> Score)
    requires Sorted(r, key) && Sorted(q, key)
    requires forall k :: Ties(r, k, key) == Ties(q, k, key)
    ensures r == q
    decreases |r| + |q|
  {
    if 0 < |r| {
      assert r[0] in Ties(r, key(r[0]), key);
    }
    if 0 < |q| {
      assert q[0] in Ties(q, key(q[0]), key);
    }
    if |r| == 0 {
      assert |q| == 0;
    } else {
      var a, b := r[0], q[0];
      assert a in Ties(q, key(a), key);
      assert b in Ties(r, key(b), key);
      assert key(a) == key(b);
      assert Ties(r, key(a), key)[0] == a;
      assert Ties(q, key(a), key)[0] == b;
      assert a == b;
      forall k ensures Ties(r[1..], k, key) == Ties(q[1..], k, key) {
        var head := if key(a) == k then [a] else [];
        assert Ties(r, k, key) == head + Ties(r[1..], k, key);
        assert Ties(q, k, key) == head + Ties(q[1..], k, key);
        assert Ties(r[1..], k, key) == Ties(r, k, key)[|head|..];
        assert Ties(q[1..], k, key) == Ties(q, k, key)[|head|..];
      }
      SameTiesSameSequence(r[1..], q[1..], key);
      assert r == [a] + r[1..] && q == [a] + q[1..];
    }
  }

  /** Whatever orders `s` by score and keeps each group of equal scores in input order is `Sort(s)`. */
  lemma SortIsUnique<T(!new)>(s: seq<T>, r: seq<T>, key: T -> Score)
    requires Sorted(r, key)
    requires forall k :: Ties(r, k, key) == Ties(s, k, key)
    ensures r == Sort(s, key)
  {
    SameTiesSameSequence(r, Sort(s, key), key);
  }

  /** Any two elements of `s` with equal scores are related by `before`, in their order in `s`. */
  ghost predicate KeepsOrder<T>(s: seq<T>, key: T -> Score, before: (T, T) -> bool) {
    forall i, j :: 0 <= i < j < |s| && key(s[i]) == key(s[j]) ==> before(s[i], s[j])
  }

  /** `x` goes ahead of every element scoring the same, so an order among equal scores survives. */
  lemma {:induction false} InsertKeepsOrder<T(!new)>(x: T, s: seq<T>, key: T -> Score, before: (T, T) -> bool)
    requires Sorted(s, key) && KeepsOrder(s, key, before)
    requires forall y :: y in s && key(y) == key(x) ==> before(x, y)
    ensures KeepsOrder(Insert(x, s, key), key, before)
  {
    if |s| == 0 {
    } else if AtLeast(key(x), key(s[0])) {
      var r := [x] + s;
      forall i, j | 0 <= i < j < |r| && key(r[i]) == key(r[j]) ensures before(r[i], r[j]) {
        assert r[j] == s[j - 1];
        if 0 < i {
          assert r[i] == s[i - 1];
        }
      }
    } else {
      assert forall y :: y in s[1..] ==> y in s;
      InsertKeepsOrder(x, s[1..], key, before);
      InsertBehindKeepsOrder(x, s, Insert(x, s[1..], key), key, before);
    }
  }

  /** The inductive step of `InsertKeepsOrder` when `x` goes behind the head of `s`. */
  lemma {:induction false} InsertBehindKeepsOrder<T(!new)>(x: T, s: seq<T>, rest: seq<T>, key: T -> Score, before: (T, T) -> bool)
    requires 0 < |s| && KeepsOrder(s, key, before) && !AtLeast(key(x), key(s[0]))
    requires multiset(rest) == multiset(s[1..]) + multiset{x}
    requires KeepsOrder(rest, key, before)
    ensures KeepsOrder([s[0]] + rest, key, before)
  {
    var r := [s[0]] + rest;
    forall i, j | 0 <= i < j < |r| && key(r[i]) == key(r[j]) ensures before(r[i], r[j]) {
      assert r[j] == rest[j - 1];
      if i == 0 {
        // `x` scores differently from `s[0]`, so `r[j]` comes from `s`
        assert r[j] != x;
        assert r[j] in multiset(rest);
        var m :| 0 <= m < |s[1..]| && s[1..][m] == r[j];
        assert s[m + 1] == r[j];
      } else {
        assert r[i] == rest[i - 1];
      }
    }
  }

  /** The sort keeps any order that the input already has among equal scores. */
  lemma {:induction false} SortKeepsOrder<T(!new)>(s: seq<T>, key: T -> Score, before: (T, T) -> bool)
    requires KeepsOrder(s, key, before)
    ensures KeepsOrder(Sort(s, key), key, before)
  {
    if 0 < |s| {
      var tail := s[1..];
      assert KeepsOrder(tail, key, before) by {
        forall i, j | 0 <= i < j < |tail| && key(tail[i]) == key(tail[j]) ensures before(tail[i], tail[j]) {
          assert tail[i] == s[i + 1] && tail[j] == s[j + 1];
        }
      }
      SortKeepsOrder(tail, key, before);
      forall y | y in Sort(tail, key) && key(y) == key(s[0]) ensures before(s[0], y) {
        assert y in multiset(tail);
        var m :| 0 <= m < |tail| && tail[m] == y;
        assert s[m + 1] == y;
      }
      InsertKeepsOrder(s[0], Sort(tail, key), key, before);
    }
  }
}

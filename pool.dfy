/** The pool of available tag ids and the list operations the widget applies
    to it and to its session list: removal of every copy of an id (`filter`),
    removal of several ids in turn, and re-sorting by the numeric key after a
    reinsertion.
 */
module Pool {
  import opened TagIds

  /** `s.filter(t => t !== x)`: every copy of `x` is dropped, the other ids
      keep their order. */
  function Without(s: seq<string>, x: string): (r: seq<string>)
    ensures x !in r
    ensures x !in s ==> r == s
  {
    if s == [] then []
    else
      assert s == [s[0]] + s[1..];
      (if s[0] == x then [] else [s[0]]) + Without(s[1..], x)
  }

  /** Filtering drops every copy of `x` and keeps every other id as often as
      it occurred. */
  lemma {:induction false} WithoutCount(s: seq<string>, x: string)
    ensures multiset(Without(s, x)) == multiset(s)[x := 0]
  {
    if s != [] {
      WithoutCount(s[1..], x);
      assert s == [s[0]] + s[1..];
    }
  }

  /** Filtering distributes over concatenation: the ids that survive keep
      their relative order. */
  lemma {:induction false} WithoutConcat(a: seq<string>, b: seq<string>, x: string)
    ensures Without(a + b, x) == Without(a, x) + Without(b, x)
  {
    if a == [] {
      assert a + b == b;
    } else {
      assert (a + b)[0] == a[0];
      assert (a + b)[1..] == a[1..] + b;
      WithoutConcat(a[1..], b, x);
    }
  }

  /** The pool after `for (const x of xs) pool = pool.filter(t => t !== x)`. */
  function WithoutAll(s: seq<string>, xs: seq<string>): seq<string>
  {
    if xs == [] then s
    else Without(WithoutAll(s, xs[..|xs| - 1]), xs[|xs| - 1])
  }

  /** After filtering a list of ids, none of them is left, and every id not
      in the list keeps its count. */
  lemma {:induction false} WithoutAllEffect(s: seq<string>, xs: seq<string>)
    ensures forall x :: x in xs ==> x !in WithoutAll(s, xs)
    ensures forall y :: y !in xs ==> multiset(WithoutAll(s, xs))[y] == multiset(s)[y]
  {
    if xs != [] {
      var front, last := xs[..|xs| - 1], xs[|xs| - 1];
      assert xs == front + [last];
      WithoutAllEffect(s, front);
      var w := WithoutAll(s, front);
      WithoutCount(w, last);
      forall x | x in xs ensures x !in WithoutAll(s, xs) {
        if x != last {
          assert x in front;
          assert multiset(Without(w, last))[x] == multiset(w)[x];
        }
      }
    }
  }

  /** The comparator `(a, b) => key(a) - key(b)` asks to move `a` after `b`:
      both keys are numbers and `a`'s is larger. A NaN key (`None`) makes the
      difference NaN, which never asks for a move. The sort is stated for any
      key function; the widget's is NumKey. */
  predicate Greater(a: string, b: string, key: string -> Option<int>)
  {
    key(a).Some? && key(b).Some? && key(a).value > key(b).value
  }

  predicate AllNumeric(s: seq<string>, key: string -> Option<int>)
  {
    forall x :: x in s ==> key(x).Some?
  }

  /** Ascending by key. */
  predicate KeyAscending(s: seq<string>, key: string -> Option<int>)
    requires AllNumeric(s, key)
  {
    forall i, j :: 0 <= i < j < |s| ==> key(s[i]).value <= key(s[j]).value
  }

  /** Insert `x` at the end of `r` and move it left past every id that is
      Greater than it: one step of a stable insertion sort. */
  function InsertByKey(r: seq<string>, x: string, key: string -> Option<int>): (q: seq<string>)
    ensures |q| == |r| + 1
    ensures multiset(q) == multiset(r) + multiset{x}
  {
    if r == [] then [x]
    else
      var front, last := r[..|r| - 1], r[|r| - 1];
      assert r == front + [last];
      if Greater(last, x, key) then InsertByKey(front, x, key) + [last] else r + [x]
  }

  /** The order `tags.sort(comparator)` produces, as a stable insertion sort. */
  function SortByKey(s: seq<string>, key: string -> Option<int>): (r: seq<string>)
    ensures multiset(r) == multiset(s)
  {
    if s == [] then []
    else
      assert s == s[..|s| - 1] + [s[|s| - 1]];
      InsertByKey(SortByKey(s[..|s| - 1], key), s[|s| - 1], key)
  }

  /** Appending an id whose key bounds every key before it keeps the order. */
  lemma AscendingSnoc(p: seq<string>, y: string, key: string -> Option<int>)
    requires AllNumeric(p, key) && KeyAscending(p, key) && key(y).Some?
    requires forall z :: z in p ==> key(z).value <= key(y).value
    ensures AllNumeric(p + [y], key) && KeyAscending(p + [y], key)
  {
  }

  /** Dropping the last id of an ascending pool leaves an ascending pool whose
      keys are all bounded by the dropped one. */
  lemma AscendingFront(r: seq<string>, key: string -> Option<int>)
    requires r != [] && AllNumeric(r, key) && KeyAscending(r, key)
    ensures AllNumeric(r[..|r| - 1], key) && KeyAscending(r[..|r| - 1], key)
    ensures forall y :: y in r[..|r| - 1] ==> key(y).value <= key(r[|r| - 1]).value
  {
  }

  lemma {:induction false} InsertByKeyAscending(r: seq<string>, x: string, key: string -> Option<int>)
    requires AllNumeric(r, key) && KeyAscending(r, key) && key(x).Some?
    ensures AllNumeric(InsertByKey(r, x, key), key) && KeyAscending(InsertByKey(r, x, key), key)
    decreases |r|, 1
  {
    if r == [] {
      assert InsertByKey(r, x, key) == [x];
    } else if Greater(r[|r| - 1], x, key) {
      InsertPastLast(r, x, key);
    } else {
      InsertAtEnd(r, x, key);
    }
  }

  /** `x` moves past the last id: the last id stays last and bounds the
      rest. */
  lemma {:induction false} InsertPastLast(r: seq<string>, x: string, key: string -> Option<int>)
    requires r != [] && AllNumeric(r, key) && KeyAscending(r, key) && key(x).Some?
    requires Greater(r[|r| - 1], x, key)
    ensures AllNumeric(InsertByKey(r, x, key), key) && KeyAscending(InsertByKey(r, x, key), key)
    decreases |r|, 0
  {
    var front, last := r[..|r| - 1], r[|r| - 1];
    AscendingFront(r, key);
    InsertByKeyAscending(front, x, key);
    var p := InsertByKey(front, x, key);
    assert InsertByKey(r, x, key) == p + [last];
    forall y | y in p ensures key(y).value <= key(last).value {
      assert y in multiset(front) + multiset{x};
    }
    AscendingSnoc(p, last, key);
  }

  /** `x` stays at the end: its key bounds every key before it. */
  lemma InsertAtEnd(r: seq<string>, x: string, key: string -> Option<int>)
    requires r != [] && AllNumeric(r, key) && KeyAscending(r, key) && key(x).Some?
    requires !Greater(r[|r| - 1], x, key)
    ensures AllNumeric(InsertByKey(r, x, key), key) && KeyAscending(InsertByKey(r, x, key), key)
  {
  }

  lemma {:induction false} SortByKeyAscending(s: seq<string>, key: string -> Option<int>)
    requires AllNumeric(s, key)
    ensures AllNumeric(SortByKey(s, key), key) && KeyAscending(SortByKey(s, key), key)
  {
    if s != [] {
      var front := s[..|s| - 1];
      assert AllNumeric(front, key) by {
        forall y | y in front ensures key(y).Some? { assert y in s; }
      }
      SortByKeyAscending(front, key);
      InsertByKeyAscending(SortByKey(front, key), s[|s| - 1], key);
    }
  }

  /** The ids of `s` whose key is `v`, in the order of `s`. */
  function WithKey(s: seq<string>, v: Option<int>, key: string -> Option<int>): seq<string>
  {
    if s == [] then []
    else WithKey(s[..|s| - 1], v, key) + (if key(s[|s| - 1]) == v then [s[|s| - 1]] else [])
  }

  lemma {:induction false} WithKeyConcat(a: seq<string>, b: seq<string>, v: Option<int>, key: string -> Option<int>)
    ensures WithKey(a + b, v, key) == WithKey(a, v, key) + WithKey(b, v, key)
  {
    if b == [] {
      assert a + b == a;
    } else {
      var front, last := b[..|b| - 1], b[|b| - 1];
      assert (a + b)[..|a + b| - 1] == a + front;
      WithKeyConcat(a, front, v, key);
    }
  }

  /** One insertion step never moves `x` past an id with the same key. */
  lemma {:induction false} InsertByKeyStable(r: seq<string>, x: string, v: Option<int>, key: string -> Option<int>)
    ensures WithKey(InsertByKey(r, x, key), v, key) == WithKey(r, v, key) + (if key(x) == v then [x] else [])
  {
    if r == [] {
      assert WithKey([x], v, key) == WithKey([], v, key) + (if key(x) == v then [x] else []);
    } else {
      var front, last := r[..|r| - 1], r[|r| - 1];
      if Greater(last, x, key) {
        InsertByKeyStable(front, x, v, key);
        WithKeyConcat(InsertByKey(front, x, key), [last], v, key);
      } else {
        WithKeyConcat(r, [x], v, key);
      }
    }
  }

  /** The sort is stable: the ids that share a key, numeric or NaN, keep
      their relative order from the input. */
  lemma {:induction false} SortByKeyStable(s: seq<string>, v: Option<int>, key: string -> Option<int>)
    ensures WithKey(SortByKey(s, key), v, key) == WithKey(s, v, key)
  {
    if s != [] {
      var front, last := s[..|s| - 1], s[|s| - 1];
      SortByKeyStable(front, v, key);
      InsertByKeyStable(SortByKey(front, key), last, v, key);
    }
  }

  /** `tags.sort(comparator)`: insertion sort, one id at a time. The result is
      always a permutation; it is ascending by key when every key is a number
      (with a NaN key the comparator is inconsistent and no order is
      promised). */
  method SortPool(s: seq<string>, key: string -> Option<int>) returns (r: seq<string>)
    ensures r == SortByKey(s, key)
    ensures multiset(r) == multiset(s)
    ensures AllNumeric(s, key) ==> AllNumeric(r, key) && KeyAscending(r, key)
  {
    r := [];
    var i := 0;
    while i < |s|
      invariant 0 <= i <= |s|
      invariant r == SortByKey(s[..i], key)
    {
      assert s[..i + 1][..i] == s[..i];
      r := InsertByKey(r, s[i], key);
      i := i + 1;
    }
    assert s[..i] == s;
    if AllNumeric(s, key) {
      SortByKeyAscending(s, key);
    }
  }

  /** The pool after `removeTagFromTarget` puts `id` back: unchanged when the
      id is already there, otherwise the id is appended and the pool
      re-sorted. */
  function Reinsert(pool: seq<string>, id: string): seq<string>
  {
    if id in pool then pool else SortByKey(pool + [id], NumKey)
  }

  /** `if (!tags.includes(id)) { tags.push(id); tags.sort(comparator); }` */
  method ReinsertSorted(pool: seq<string>, id: string) returns (r: seq<string>)
    ensures r == Reinsert(pool, id)
  {
    r := pool;
    if id !in pool {
      r := r + [id];
      r := SortPool(r, NumKey);
    }
  }

  lemma ReinsertEffect(pool: seq<string>, id: string)
    ensures id in pool ==> Reinsert(pool, id) == pool
    ensures id !in pool ==> multiset(Reinsert(pool, id)) == multiset(pool) + multiset{id}
    ensures multiset(Reinsert(pool, id))[id] == if id in pool then multiset(pool)[id] else 1
    ensures id !in pool && AllNumeric(pool, NumKey) && NumKey(id).Some? ==>
              AllNumeric(Reinsert(pool, id), NumKey) && KeyAscending(Reinsert(pool, id), NumKey)
  {
    if id !in pool {
      assert multiset(pool + [id]) == multiset(pool) + multiset{id};
      if AllNumeric(pool, NumKey) && NumKey(id).Some? {
        assert AllNumeric(pool + [id], NumKey);
        SortByKeyAscending(pool + [id], NumKey);
      }
    }
  }

  /** Confirming `x` (filtering it out of the pool, appending it to the session
      list) and then unassigning it leaves `x` in the pool exactly once, the
      other ids as they were, and no `x` in the session list. */
  lemma ConfirmThenUnassignLists(pool: seq<string>, added: seq<string>, x: string)
    ensures multiset(Reinsert(Without(pool, x), x)) == multiset(pool)[x := 1]
    ensures Without(added + [x], x) == Without(added, x)
    ensures x in Reinsert(Without(pool, x), x) && x !in Without(added + [x], x)
  {
    var w := Without(pool, x);
    WithoutCount(pool, x);
    ReinsertEffect(w, x);
    assert multiset(w) + multiset{x} == multiset(pool)[x := 1];
    WithoutConcat(added, [x], x);
    assert Without([x], x) == [];
    assert x in multiset(Reinsert(w, x));
  }
}

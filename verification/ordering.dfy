/**
 * `Array.prototype.sort` with a numeric comparator `(a, b) => key(a) - key(b)` (a stable sort,
 * as the language has required since 2019) and `Array.prototype.filter`, on sequences.
 * A descending sort, `(a, b) => key(b) - key(a)`, is the ascending sort by the negated key.
 */
module Ordering {

  /** Ascending by `key`. */
  ghost predicate SortedBy<T>(s: seq<T>, key: T -> int)
  {
    forall i, j :: 0 <= i < j < |s| ==> key(s[i]) <= key(s[j])
  }

  /** Inserting `x` into a sorted sequence after every element whose key is not greater. */
  function InsertBy<T>(x: T, s: seq<T>, key: T -> int): (r: seq<T>)
    requires SortedBy(s, key)
    ensures |r| == |s| + 1 && multiset(r) == multiset(s) + multiset{x}
    ensures SortedBy(r, key)
    ensures r[0] == x || (s != [] && r[0] == s[0])
  {
    if s == [] || key(x) < key(s[0]) then
      SortedCons(x, s, key);
      [x] + s
    else
      SortedTail(s, key);
      var rest := InsertBy(x, s[1..], key);
      assert s == [s[0]] + s[1..];
      SortedCons(s[0], rest, key);
      [s[0]] + rest
  }

  /** An element no greater than the head of a sorted sequence can go in front of it. */
  lemma SortedCons<T>(h: T, s: seq<T>, key: T -> int)
    requires SortedBy(s, key) && (s == [] || key(h) <= key(s[0]))
    ensures SortedBy([h] + s, key)
  {
    forall j | 0 <= j < |s| ensures key(h) <= key(s[j]) {
      if j > 0 {
        assert key(s[0]) <= key(s[j]);
      }
    }
  }

  /** The stable sort: each element is inserted, in input order, after the equal keys before it. */
  function SortBy<T>(s: seq<T>, key: T -> int): (r: seq<T>)
    ensures |r| == |s| && multiset(r) == multiset(s)
    ensures SortedBy(r, key)
  {
    if s == [] then []
    else
      assert s == s[..|s| - 1] + [s[|s| - 1]];
      InsertBy(s[|s| - 1], SortBy(s[..|s| - 1], key), key)
  }

  /** The elements whose key is `k`, in their order. */
  function KeyRun<T>(s: seq<T>, key: T -> int, k: int): seq<T>
  {
    if s == [] then [] else (if key(s[0]) == k then [s[0]] else []) + KeyRun(s[1..], key, k)
  }

  lemma {:induction false} KeyRunAppend<T>(s: seq<T>, t: seq<T>, key: T -> int, k: int)
    ensures KeyRun(s + t, key, k) == KeyRun(s, key, k) + KeyRun(t, key, k)
  {
    if s == [] {
      assert s + t == t;
    } else {
      var head := if key(s[0]) == k then [s[0]] else [];
      assert (s + t)[0] == s[0] && (s + t)[1..] == s[1..] + t;
      KeyRunAppend(s[1..], t, key, k);
      calc {
        KeyRun(s + t, key, k);
        head + KeyRun(s[1..] + t, key, k);
        head + (KeyRun(s[1..], key, k) + KeyRun(t, key, k));
        (head + KeyRun(s[1..], key, k)) + KeyRun(t, key, k);
      }
    }
  }

  /** No element of a sequence whose keys all exceed `k` has key `k`. */
  lemma {:induction false} KeyRunAbove<T>(s: seq<T>, key: T -> int, k: int)
    requires forall i :: 0 <= i < |s| ==> k < key(s[i])
    ensures KeyRun(s, key, k) == []
  {
    if s != [] {
      KeyRunAbove(s[1..], key, k);
    }
  }

  /** Inserting `x` puts it after every element with its key, so among equal keys it comes last. */
  lemma {:induction false} InsertByStable<T>(x: T, s: seq<T>, key: T -> int, k: int)
    requires SortedBy(s, key)
    ensures KeyRun(InsertBy(x, s, key), key, k) == KeyRun(s, key, k) + KeyRun([x], key, k)
  {
    if s == [] || key(x) < key(s[0]) {
      InsertInFront(x, s, key, k);
    } else {
      SortedTail(s, key);
      InsertByStable(x, s[1..], key, k);
      InsertAfterHead(x, s, key);
      assert s == [s[0]] + s[1..];
      KeyRunCons(s[0], InsertBy(x, s[1..], key), s[1..], KeyRun([x], key, k), key, k);
    }
  }

  /** In front of greater keys only, `x` comes after nothing with its key. */
  lemma InsertInFront<T>(x: T, s: seq<T>, key: T -> int, k: int)
    requires SortedBy(s, key) && (s == [] || key(x) < key(s[0]))
    ensures KeyRun(InsertBy(x, s, key), key, k) == KeyRun(s, key, k) + KeyRun([x], key, k)
  {
    assert InsertBy(x, s, key) == [x] + s;
    if key(x) == k {
      KeyRunAbove(s, key, k);
    }
    KeyRunAppend([x], s, key, k);
  }

  /** Inserting behind the head keeps the head in front. */
  lemma InsertAfterHead<T>(x: T, s: seq<T>, key: T -> int)
    requires SortedBy(s, key) && s != [] && key(s[0]) <= key(x) && SortedBy(s[1..], key)
    ensures InsertBy(x, s, key) == [s[0]] + InsertBy(x, s[1..], key)
  {
  }

  /** A common head stays in front of both sides of an equation between runs. */
  lemma KeyRunCons<T>(h: T, rest: seq<T>, t: seq<T>, tail: seq<T>, key: T -> int, k: int)
    requires KeyRun(rest, key, k) == KeyRun(t, key, k) + tail
    ensures KeyRun([h] + rest, key, k) == KeyRun([h] + t, key, k) + tail
  {
    assert ([h] + rest)[1..] == rest;
    assert ([h] + t)[1..] == t;
  }

  lemma SortedTail<T>(s: seq<T>, key: T -> int)
    requires s != [] && SortedBy(s, key)
    ensures SortedBy(s[1..], key)
  {
    forall i, j | 0 <= i < j < |s[1..]| ensures key(s[1..][i]) <= key(s[1..][j]) {
      assert s[1..][i] == s[i + 1] && s[1..][j] == s[j + 1];
    }
  }

  /** The sort is stable: the elements with any one key come out in the order they went in. */
  lemma {:induction false} SortByStable<T>(s: seq<T>, key: T -> int, k: int)
    ensures KeyRun(SortBy(s, key), key, k) == KeyRun(s, key, k)
  {
    if s != [] {
      var init, last := s[..|s| - 1], s[|s| - 1];
      SortByStable(init, key, k);
      SortByLast(s, key);
      InsertByStable(last, SortBy(init, key), key, k);
      KeyRunLast(s, key, k);
    }
  }

  lemma SortByLast<T>(s: seq<T>, key: T -> int)
    requires s != []
    ensures SortBy(s, key) == InsertBy(s[|s| - 1], SortBy(s[..|s| - 1], key), key)
  {
  }

  lemma KeyRunLast<T>(s: seq<T>, key: T -> int, k: int)
    requires s != []
    ensures KeyRun(s, key, k) == KeyRun(s[..|s| - 1], key, k) + KeyRun([s[|s| - 1]], key, k)
  {
    assert s == s[..|s| - 1] + [s[|s| - 1]];
    KeyRunAppend(s[..|s| - 1], [s[|s| - 1]], key, k);
  }

  /** The first element of a sorted sequence has the smallest key of all its elements. */
  lemma SortedFirstIsLeast<T>(s: seq<T>, key: T -> int, x: T)
    requires SortedBy(s, key) && x in s
    ensures key(s[0]) <= key(x)
  {
    var j :| 0 <= j < |s| && s[j] == x;
    if j > 0 {
      assert key(s[0]) <= key(s[j]);
    }
  }

  /** In a sorted sequence every element of a prefix has a key no greater than any element after it. */
  lemma SortedPrefixFirst<T>(s: seq<T>, key: T -> int, k: nat, t: T, u: T)
    requires SortedBy(s, key) && k <= |s| && t in s[..k] && u in s[k..]
    ensures key(t) <= key(u)
  {
    var i :| 0 <= i < k && s[..k][i] == t;
    var j :| 0 <= j < |s| - k && s[k..][j] == u;
    assert s[i] == t && s[k + j] == u;
  }

  /** A prefix of a sorted sequence is sorted, and no element left out has a smaller key than one kept. */
  lemma SortedPrefix<T>(s: seq<T>, key: T -> int, k: nat)
    requires SortedBy(s, key) && k <= |s|
    ensures multiset(s[..k]) <= multiset(s) && SortedBy(s[..k], key)
    ensures forall u, t :: u in multiset(s) - multiset(s[..k]) && t in s[..k] ==> key(t) <= key(u)
  {
    assert s == s[..k] + s[k..];
    assert multiset(s) - multiset(s[..k]) == multiset(s[k..]);
    forall u, t | u in multiset(s) - multiset(s[..k]) && t in s[..k] ensures key(t) <= key(u) {
      SortedPrefixFirst(s, key, k, t, u);
    }
  }

  /** `s.filter(p)`: the elements satisfying `p`, in their order. */
  function Filter<T>(s: seq<T>, p: T -> bool): (r: seq<T>)
    ensures |r| <= |s|
    ensures forall i :: 0 <= i < |r| ==> p(r[i])
    ensures multiset(r) <= multiset(s)
  {
    if s == [] then []
    else
      assert s == [s[0]] + s[1..];
      (if p(s[0]) then [s[0]] else []) + Filter(s[1..], p)
  }

  /** Filtering keeps every element of `s` that satisfies `p`. */
  lemma {:induction false} FilterKeeps<T>(s: seq<T>, p: T -> bool, x: T)
    requires x in s && p(x)
    ensures x in Filter(s, p)
  {
    if s[0] != x {
      FilterKeeps(s[1..], p, x);
    }
  }

  /** What is filtered out and what is kept together make up `s`. */
  lemma {:induction false} FilterPartition<T>(s: seq<T>, p: T -> bool, q: T -> bool)
    requires forall x :: x in s ==> (q(x) <==> !p(x))
    ensures multiset(Filter(s, p)) + multiset(Filter(s, q)) == multiset(s)
  {
    if s != [] {
      var h, t := s[0], s[1..];
      assert s == [h] + t;
      assert h in s;
      FilterPartition(t, p, q);
      var fp, fq := multiset(Filter(t, p)), multiset(Filter(t, q));
      if p(h) {
        assert Filter(s, p) == [h] + Filter(t, p);
        assert Filter(s, q) == Filter(t, q);
        assert multiset(Filter(s, p)) == multiset{h} + fp;
      } else {
        assert Filter(s, p) == Filter(t, p);
        assert Filter(s, q) == [h] + Filter(t, q);
        assert multiset(Filter(s, q)) == multiset{h} + fq;
      }
    }
  }

  /** Nothing is kept when no element satisfies `p`. */
  lemma {:induction false} FilterNone<T>(s: seq<T>, p: T -> bool)
    requires forall x :: x in s ==> !p(x)
    ensures Filter(s, p) == []
  {
    if s != [] {
      assert s[0] in s;
      FilterNone(s[1..], p);
    }
  }

  /** Every element kept by the filter comes from `s` and satisfies `p`. */
  lemma FilterFrom<T>(s: seq<T>, p: T -> bool)
    ensures forall x :: x in Filter(s, p) ==> x in s && p(x)
  {
    var m := Filter(s, p);
    forall x | x in m ensures x in s && p(x) {
      assert x in multiset(m);
    }
  }

  /**
   * The elements satisfying `p`, sorted by `key`: they all come from `s` and satisfy `p`, there
   * are none exactly when no element of `s` satisfies `p`, and the first has the smallest key.
   */
  lemma SortedMatches<T>(s: seq<T>, p: T -> bool, key: T -> int)
    ensures var r := SortBy(Filter(s, p), key);
      && (forall x :: x in r ==> x in s && p(x))
      && (r == [] <==> forall x :: x in s ==> !p(x))
      && (r != [] ==> forall x :: x in s && p(x) ==> key(r[0]) <= key(x))
  {
    var m := Filter(s, p);
    var r := SortBy(m, key);
    forall x | x in r ensures x in s && p(x) {
      assert x in multiset(m);
      var i :| 0 <= i < |m| && m[i] == x;
    }
    forall x | x in s && p(x) ensures x in r {
      FilterKeeps(s, p, x);
      assert x in multiset(r);
    }
    if forall x :: x in s ==> !p(x) {
      FilterNone(s, p);
    }
    if r != [] {
      forall x | x in s && p(x) ensures key(r[0]) <= key(x) {
        SortedFirstIsLeast(r, key, x);
      }
    }
  }
  /**
   * Among the elements that pass the test, the one the sort puts in front comes first in the
   * input among those with its key: it sits at index `i`, and no passing element before it has its key.
   */
  lemma SortedMatchesFirst<T>(s: seq<T>, p: T -> bool, key: T -> int) returns (i: nat)
    requires SortBy(Filter(s, p), key) != []
    ensures i < |s| && s[i] == SortBy(Filter(s, p), key)[0]
    ensures forall j :: 0 <= j < i && p(s[j]) ==> key(s[j]) != key(s[i])
  {
    var m := Filter(s, p);
    var h := SortBy(m, key)[0];
    RunHeadOfSorted(m, key);
    i := FirstOfRun(s, p, key, key(h), h);
  }

  /** The run of the sorted head's key starts, in the unsorted input too, with that head. */
  lemma RunHeadOfSorted<T>(m: seq<T>, key: T -> int)
    requires SortBy(m, key) != []
    ensures var h := SortBy(m, key)[0]; KeyRun(m, key, key(h)) != [] && KeyRun(m, key, key(h))[0] == h
  {
    var r := SortBy(m, key);
    SortByStable(m, key, key(r[0]));
    KeyRunHead(r, key);
  }

  /** The first element `x` of the run of key `k` among the passing elements sits at index `i` of `s`, after no other. */
  lemma {:induction false} FirstOfRun<T>(s: seq<T>, p: T -> bool, key: T -> int, k: int, x: T) returns (i: nat)
    requires KeyRun(Filter(s, p), key, k) != [] && KeyRun(Filter(s, p), key, k)[0] == x
    ensures i < |s| && s[i] == x
    ensures forall j :: 0 <= j < i && p(s[j]) ==> key(s[j]) != k
  {
    var m := Filter(s, p);
    var run := KeyRun(m, key, k);
    if p(s[0]) && key(s[0]) == k {
      assert m == [s[0]] + Filter(s[1..], p);
      i := 0;
    } else {
      var tail := Filter(s[1..], p);
      if p(s[0]) {
        assert m == [s[0]] + tail;
        assert m[1..] == tail;
      } else {
        assert m == tail;
      }
      assert run == KeyRun(tail, key, k);
      var i' := FirstOfRun(s[1..], p, key, k, x);
      i := i' + 1;
      forall j | 0 <= j < i && p(s[j]) ensures key(s[j]) != k {
        if j > 0 {
          assert s[j] == s[1..][j - 1];
        }
      }
    }
  }

  /** A sequence's run of its head's key starts with the head. */
  lemma KeyRunHead<T>(s: seq<T>, key: T -> int)
    requires s != []
    ensures KeyRun(s, key, key(s[0])) != [] && KeyRun(s, key, key(s[0]))[0] == s[0]
  {
  }





  /** Filtering a sorted sequence leaves it sorted. */
  lemma {:induction false} FilterSorted<T>(s: seq<T>, p: T -> bool, key: T -> int)
    requires SortedBy(s, key)
    ensures SortedBy(Filter(s, p), key)
  {
    if s != [] {
      FilterSorted(s[1..], p, key);
      var rest := Filter(s[1..], p);
      forall i | 0 <= i < |rest| ensures key(s[0]) <= key(rest[i]) {
        assert rest[i] in multiset(s[1..]);
        var j :| 0 <= j < |s[1..]| && s[1..][j] == rest[i];
        assert s[j + 1] == rest[i];
      }
    }
  }

  /** The number of elements satisfying `p`. */
  function Count<T>(s: seq<T>, p: T -> bool): nat
  {
    if s == [] then 0 else (if p(s[0]) then 1 else 0) + Count(s[1..], p)
  }

  lemma {:induction false} FilterLength<T>(s: seq<T>, p: T -> bool)
    ensures |Filter(s, p)| == Count(s, p)
  {
    if s != [] {
      FilterLength(s[1..], p);
    }
  }

  /** A weaker test counts at least as many elements. */
  lemma {:induction false} CountWeaker<T>(s: seq<T>, p: T -> bool, q: T -> bool)
    requires forall x :: x in s && p(x) ==> q(x)
    ensures Count(s, p) <= Count(s, q)
  {
    if s != [] {
      assert forall x :: x in s[1..] ==> x in s;
      CountWeaker(s[1..], p, q);
    }
  }
}

/**
 * `Array.prototype.filter` by index, as the form screens use it to drop one row of a list, and
 * the list a `forEach` loop builds by pushing a few elements per input element.
 */
module Lists {

  /** `s.filter((_, j) => j !== i)`: every element but the one at index `i`, in order. */
  function RemoveAt<T>(s: seq<T>, i: int): (r: seq<T>)
    ensures 0 <= i < |s| ==> (|r| == |s| - 1
      && (forall j :: 0 <= j < i ==> r[j] == s[j])
      && (forall j :: i <= j < |r| ==> r[j] == s[j + 1]))
    ensures !(0 <= i < |s|) ==> r == s
  {
    if s == [] then []
    else if i == 0 then s[1..]
    else [s[0]] + RemoveAt(s[1..], i - 1)
  }

  /** Removing an element takes exactly that element out of the list's contents. */
  lemma {:induction false} RemoveAtTakesOne<T>(s: seq<T>, i: int)
    requires 0 <= i < |s|
    ensures multiset(RemoveAt(s, i)) + multiset{s[i]} == multiset(s)
  {
    assert s == [s[0]] + s[1..];
    if i > 0 {
      RemoveAtTakesOne(s[1..], i - 1);
      assert s[1..][i - 1] == s[i];
      assert RemoveAt(s, i) == [s[0]] + RemoveAt(s[1..], i - 1);
    }
  }

  /** Removing the element just appended gives back the list before the append. */
  lemma RemoveUndoesAppend<T>(s: seq<T>, x: T)
    ensures RemoveAt(s + [x], |s|) == s
  {
    var r := RemoveAt(s + [x], |s|);
    assert |r| == |s|;
    assert forall j :: 0 <= j < |s| ==> r[j] == s[j];
  }

  /** The elements `f` gives for each element of `s`, pushed in order. */
  function FlatMap<T, U>(s: seq<T>, f: T -> seq<U>): seq<U>
  {
    if s == [] then [] else FlatMap(s[..|s| - 1], f) + f(s[|s| - 1])
  }

  /** When every element `f` gives satisfies `p`, so does every element of the flattened result. */
  lemma {:induction false} FlatMapAll<T, U>(s: seq<T>, f: T -> seq<U>, p: U -> bool)
    requires forall x, j :: x in s && 0 <= j < |f(x)| ==> p(f(x)[j])
    ensures forall i :: 0 <= i < |FlatMap(s, f)| ==> p(FlatMap(s, f)[i])
  {
    if s != [] {
      var n := |s| - 1;
      assert forall x :: x in s[..n] ==> x in s;
      FlatMapAll(s[..n], f, p);
      assert s[n] in s;
      var a, b := FlatMap(s[..n], f), f(s[n]);
      forall i | 0 <= i < |a + b| ensures p((a + b)[i]) {
        if i >= |a| {
          assert (a + b)[i] == b[i - |a|];
        }
      }
    }
  }

  /** One more input element appends its elements at the end. */
  lemma FlatMapSnoc<T, U>(s: seq<T>, f: T -> seq<U>, i: nat)
    requires i < |s|
    ensures FlatMap(s[..i + 1], f) == FlatMap(s[..i], f) + f(s[i])
  {
    assert s[..i + 1][..i] == s[..i];
  }

  /** An element of the flattened result is exactly an element that some input element gives. */
  lemma {:induction false} FlatMapMember<T, U>(s: seq<T>, f: T -> seq<U>)
    ensures forall e, x :: e in s && x in f(e) ==> x in FlatMap(s, f)
    ensures forall x :: x in FlatMap(s, f) ==> exists e :: e in s && x in f(e)
  {
    if s != [] {
      var n := |s| - 1;
      var init := s[..n];
      FlatMapMember(init, f);
      assert FlatMap(s, f) == FlatMap(init, f) + f(s[n]);
      forall e, x | e in s && x in f(e) ensures x in FlatMap(s, f) {
        var i :| 0 <= i < |s| && s[i] == e;
        if i < n {
          assert init[i] == e;
        }
      }
      forall x | x in FlatMap(s, f) ensures exists e :: e in s && x in f(e) {
        if x in FlatMap(init, f) {
          var e :| e in init && x in f(e);
          assert e in s;
        } else {
          assert s[n] in s && x in f(s[n]);
        }
      }
    }
  }

  /** When every element gives `k` elements, the result has `k` per input element. */
  lemma {:induction false} FlatMapUniform<T, U>(s: seq<T>, f: T -> seq<U>, k: nat)
    requires forall x :: x in s ==> |f(x)| == k
    ensures |FlatMap(s, f)| == k * |s|
  {
    if s != [] {
      var n := |s| - 1;
      assert forall x :: x in s[..n] ==> x in s;
      FlatMapUniform(s[..n], f, k);
      assert s[n] in s;
      assert |FlatMap(s, f)| == k * n + k;
      MulSucc(k, n);
    }
  }

  lemma MulSucc(k: nat, n: nat)
    ensures k * (n + 1) == k * n + k
  {
  }

  /** With two elements per input element, those of element `i` sit at `2 * i` and `2 * i + 1`. */
  lemma {:induction false} FlatMapPairAt<T, U>(s: seq<T>, f: T -> seq<U>, i: nat, j: nat)
    requires forall x :: x in s ==> |f(x)| == 2
    requires i < |s| && j < 2
    ensures 2 * i + j < |FlatMap(s, f)| && FlatMap(s, f)[2 * i + j] == f(s[i])[j]
  {
    var n := |s| - 1;
    assert forall x :: x in s[..n] ==> x in s;
    FlatMapUniform(s[..n], f, 2);
    assert s[n] in s;
    if i < n {
      FlatMapPairAt(s[..n], f, i, j);
    }
  }

  /** The indices of the elements for which `f` gives exactly one element. */
  function GivingOne<T, U>(s: seq<T>, f: T -> seq<U>): set<int>
  {
    set i | 0 <= i < |s| && |f(s[i])| == 1
  }

  /** When every element gives at most one element, the result has one per element that gives one. */
  lemma {:induction false} FlatMapAtMostOne<T, U>(s: seq<T>, f: T -> seq<U>)
    requires forall x :: x in s ==> |f(x)| <= 1
    ensures |FlatMap(s, f)| == |GivingOne(s, f)|
  {
    if s != [] {
      var n := |s| - 1;
      assert forall x :: x in s[..n] ==> x in s;
      FlatMapAtMostOne(s[..n], f);
      assert s[n] in s;
      GivingOneSnoc(s, f);
    }
  }

  /** The indices giving one element in `s` are those of its prefix, and the last one if it gives one. */
  lemma GivingOneSnoc<T, U>(s: seq<T>, f: T -> seq<U>)
    requires s != []
    ensures var n := |s| - 1;
      |GivingOne(s, f)| == |GivingOne(s[..n], f)| + (if |f(s[n])| == 1 then 1 else 0)
  {
    var n := |s| - 1;
    var before, all := GivingOne(s[..n], f), GivingOne(s, f);
    forall i ensures i in all <==> i in before || (i == n && |f(s[n])| == 1) {
      if 0 <= i < n {
        assert s[..n][i] == s[i];
      }
    }
    if |f(s[n])| == 1 {
      assert all == before + {n};
    } else {
      assert all == before;
    }
  }
}

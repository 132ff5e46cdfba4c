/** Sums of an integer function over a finite set. */
module Sums {

  ghost function SumSet<T>(s: set<T>, f: T -> int): int
    decreases s
  {
    if s == {} then 0
    else
      var x :| x in s;
      f(x) + SumSet(s - {x}, f)
  }

  lemma {:induction false} SumSetRemove<T>(s: set<T>, f: T -> int, x: T)
    requires x in s
    ensures SumSet(s, f) == f(x) + SumSet(s - {x}, f)
    decreases s
  {
    var y :| y in s && SumSet(s, f) == f(y) + SumSet(s - {y}, f);
    if y != x {
      SumSetRemove(s - {y}, f, x);
      SumSetRemove(s - {x}, f, y);
      assert s - {y} - {x} == s - {x} - {y};
    }
  }

  lemma {:induction false} SumSetCongruence<T>(s: set<T>, f: T -> int, g: T -> int)
    requires forall x :: x in s ==> f(x) == g(x)
    ensures SumSet(s, f) == SumSet(s, g)
    decreases s
  {
    if s == {} {
    } else {
      var x :| x in s;
      SumSetRemove(s, f, x);
      SumSetRemove(s, g, x);
      SumSetCongruence(s - {x}, f, g);
    }
  }

  /** Elements on which the function vanishes do not matter. */
  lemma {:induction false} SumSetIgnoresZeros<T>(s: set<T>, r: set<T>, f: T -> int)
    requires r <= s
    requires forall x :: x in s - r ==> f(x) == 0
    ensures SumSet(s, f) == SumSet(r, f)
    decreases s
  {
    if s == r {
    } else {
      assert s == (s - r) + r;
      var x :| x in s - r;
      SumSetRemove(s, f, x);
      SumSetIgnoresZeros(s - {x}, r, f);
    }
  }

  /** Changing the function at one element, which may be new. */
  lemma SumSetBump<T>(s: set<T>, f: T -> int, g: T -> int, a: T)
    requires forall x :: x in s && x != a ==> f(x) == g(x)
    requires a !in s ==> f(a) == 0
    ensures SumSet(s + {a}, g) == SumSet(s, f) - f(a) + g(a)
  {
    SumSetRemove(s + {a}, g, a);
    assert s + {a} - {a} == s - {a};
    SumSetCongruence(s - {a}, f, g);
    if a in s {
      SumSetRemove(s, f, a);
    } else {
      assert s - {a} == s;
    }
  }

  /** Elements may be new, and the function changes by `v` at one of them. */
  lemma SumSetShift<T>(s: set<T>, r: set<T>, f: T -> int, g: T -> int, a: T, v: int)
    requires r <= s && forall x :: x in s - r ==> f(x) == 0
    requires forall x :: x in s ==> g(x) == f(x) + if x == a then v else 0
    requires a !in s ==> v == 0
    ensures SumSet(s, g) == SumSet(r, f) + v
  {
    SumSetIgnoresZeros(s, r, f);
    if a in s {
      SumSetBump(s, f, g, a);
      assert s + {a} == s;
    } else {
      SumSetCongruence(s, f, g);
    }
  }

  /******* Sums over sequences *******/

  function SumSeq<T>(s: seq<T>, f: T -> int): int {
    if s == [] then 0 else SumSeq(s[..|s| - 1], f) + f(s[|s| - 1])
  }

  lemma {:induction false} SumSeqAppend<T>(a: seq<T>, b: seq<T>, f: T -> int)
    ensures SumSeq(a + b, f) == SumSeq(a, f) + SumSeq(b, f)
  {
    if b == [] {
      assert a + b == a;
    } else {
      assert (a + b)[..|a + b| - 1] == a + b[..|b| - 1];
      SumSeqAppend(a, b[..|b| - 1], f);
    }
  }

  lemma {:induction false} SumSeqPointwise<S, T>(a: seq<S>, b: seq<T>, f: S -> int, g: T -> int)
    requires |a| == |b| && forall i :: 0 <= i < |a| ==> f(a[i]) == g(b[i])
    ensures SumSeq(a, f) == SumSeq(b, g)
  {
    if a == [] {
    } else {
      SumSeqPointwise(a[..|a| - 1], b[..|b| - 1], f, g);
    }
  }

  lemma RemoveOne<T>(b: seq<T>, i: nat)
    requires i < |b|
    ensures multiset(b[..i] + b[i + 1..]) == multiset(b) - multiset{b[i]}
  {
    assert b == b[..i] + [b[i]] + b[i + 1..];
  }

  lemma SumSeqSnoc<T>(s: seq<T>, x: T, f: T -> int)
    ensures SumSeq(s + [x], f) == SumSeq(s, f) + f(x)
  {
    assert (s + [x])[..|s|] == s;
  }

  lemma SumSeqSplice<T>(pre: seq<T>, x: T, post: seq<T>, f: T -> int)
    ensures SumSeq((pre + [x]) + post, f) == SumSeq(pre + post, f) + f(x)
  {
    SumSeqAppend(pre + [x], post, f);
    SumSeqSnoc(pre, x, f);
    SumSeqAppend(pre, post, f);
  }

  lemma SplitAt<T>(b: seq<T>, i: nat)
    requires i < |b|
    ensures b == (b[..i] + [b[i]]) + b[i + 1..]
  {
  }

  lemma SumSeqRemove<T>(b: seq<T>, i: nat, f: T -> int)
    requires i < |b|
    ensures SumSeq(b, f) == SumSeq(b[..i] + b[i + 1..], f) + f(b[i])
  {
    SplitAt(b, i);
    SumSeqSplice(b[..i], b[i], b[i + 1..], f);
  }

  /** The order of the elements does not matter. */
  lemma {:induction false} SumSeqPermutation<T>(a: seq<T>, b: seq<T>, f: T -> int)
    requires multiset(a) == multiset(b)
    ensures SumSeq(a, f) == SumSeq(b, f)
  {
    if a == [] {
      assert b == [] by {
        assert |multiset(a)| == |multiset(b)|;
      }
    } else {
      var last := a[|a| - 1];
      var front := a[..|a| - 1];
      assert a == front + [last];
      assert last in multiset(b);
      var i :| 0 <= i < |b| && b[i] == last;
      RemoveOne(b, i);
      SumSeqRemove(b, i, f);
      assert multiset(a) == multiset(front) + multiset{last};
      assert multiset(front) == multiset(a) - multiset{last};
      SumSeqPermutation(front, b[..i] + b[i + 1..], f);
    }
  }
}

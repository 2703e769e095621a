/** Sums over sequences, and the two facts about them that accounting needs. */
module Sums {

  function Sum<T>(s: seq<T>, w: T -> int): int {
    if s == [] then 0 else Sum(s[..|s| - 1], w) + w(s[|s| - 1])
  }

  lemma {:induction false} SumConcat<T>(s: seq<T>, t: seq<T>, w: T -> int)
    ensures Sum(s + t, w) == Sum(s, w) + Sum(t, w)
  {
    if t == [] {
      assert s + t == s;
    } else {
      assert (s + t)[..|s + t| - 1] == s + t[..|t| - 1];
      SumConcat(s, t[..|t| - 1], w);
    }
  }

  /** Taking one element out takes its weight out. */
  lemma SumWithout<T>(t: seq<T>, i: nat, w: T -> int)
    requires i < |t|
    ensures Sum(t, w) == Sum(t[..i] + t[i + 1..], w) + w(t[i])
  {
    assert t == t[..i] + ([t[i]] + t[i + 1..]);
    SumConcat(t[..i], [t[i]] + t[i + 1..], w);
    SumConcat([t[i]], t[i + 1..], w);
    SumConcat(t[..i], t[i + 1..], w);
    assert Sum([t[i]], w) == w(t[i]);
  }

  lemma MultisetWithout<T>(t: seq<T>, i: nat)
    requires i < |t|
    ensures multiset(t[..i] + t[i + 1..]) == multiset(t) - multiset{t[i]}
  {
    assert t == t[..i] + [t[i]] + t[i + 1..];
  }

  /** A sum does not depend on the order. */
  lemma {:induction false} SumPermutes<T>(s: seq<T>, t: seq<T>, w: T -> int)
    requires multiset(s) == multiset(t)
    ensures Sum(s, w) == Sum(t, w)
    decreases |s|
  {
    if s == [] {
      assert |multiset(t)| == 0;
    } else {
      var last := |s| - 1;
      assert s[last] in multiset(t);
      var i :| 0 <= i < |t| && t[i] == s[last];
      MultisetWithout(s, last);
      MultisetWithout(t, i);
      assert s[..last] + s[last + 1..] == s[..last];
      SumPermutes(s[..last], t[..i] + t[i + 1..], w);
      SumWithout(t, i, w);
    }
  }

  lemma {:induction false} SumPointwise<T>(s: seq<T>, v: T -> int, w: T -> int)
    requires forall x :: x in s ==> v(x) == w(x)
    ensures Sum(s, v) == Sum(s, w)
  {
    if s != [] {
      assert s[|s| - 1] in s;
      SumPointwise(s[..|s| - 1], v, w);
    }
  }

  lemma {:induction false} SumMonotone<T>(s: seq<T>, v: T -> int, w: T -> int)
    requires forall x :: x in s ==> v(x) <= w(x)
    ensures Sum(s, v) <= Sum(s, w)
  {
    if s != [] {
      assert s[|s| - 1] in s;
      SumMonotone(s[..|s| - 1], v, w);
    }
  }

  lemma {:induction false} SumAdds<T>(s: seq<T>, u: T -> int, v: T -> int, w: T -> int)
    requires forall x :: x in s ==> w(x) == u(x) + v(x)
    ensures Sum(s, w) == Sum(s, u) + Sum(s, v)
  {
    if s != [] {
      assert s[|s| - 1] in s;
      SumAdds(s[..|s| - 1], u, v, w);
    }
  }

  lemma {:induction false} SumZero<T>(s: seq<T>, w: T -> int)
    requires forall x :: x in s ==> w(x) == 0
    ensures Sum(s, w) == 0
  {
    if s != [] {
      assert s[|s| - 1] in s;
      SumZero(s[..|s| - 1], w);
    }
  }

  /** Only the k-th element weighs anything. */
  lemma {:induction false} SumSingle<T>(s: seq<T>, k: nat, w: T -> int)
    requires k < |s|
    requires forall i :: 0 <= i < |s| && i != k ==> w(s[i]) == 0
    ensures Sum(s, w) == w(s[k])
  {
    if k == |s| - 1 {
      SumZero(s[..k], w);
    } else {
      assert s[..|s| - 1][k] == s[k];
      SumSingle(s[..|s| - 1], k, w);
    }
  }

  lemma {:induction false} SumNotNegative<T>(s: seq<T>, w: T -> int)
    requires forall x :: x in s ==> w(x) >= 0
    ensures Sum(s, w) >= 0
  {
    if s != [] {
      assert s[|s| - 1] in s;
      SumNotNegative(s[..|s| - 1], w);
    }
  }

  lemma {:induction false} SumUpdate<T>(s: seq<T>, k: nat, x: T, w: T -> int)
    requires k < |s|
    ensures Sum(s[k := x], w) == Sum(s, w) - w(s[k]) + w(x)
  {
    var front := s[..|s| - 1];
    if k == |s| - 1 {
      assert s[k := x][..|s| - 1] == front;
    } else {
      assert s[k := x][..|s| - 1] == front[k := x];
      SumUpdate(front, k, x, w);
    }
  }

  /** Less somewhere and nowhere more is less in all. */
  lemma {:induction false} SumStrict<T>(s: seq<T>, x: T, v: T -> int, w: T -> int)
    requires x in s && v(x) < w(x)
    requires forall y :: y in s ==> v(y) <= w(y)
    ensures Sum(s, v) < Sum(s, w)
  {
    var front := s[..|s| - 1];
    assert s[|s| - 1] in s;
    if s[|s| - 1] == x {
      SumMonotone(front, v, w);
    } else {
      assert x in front;
      SumStrict(front, x, v, w);
    }
  }
}

/** Finite sums over sets of keys, and the laws the ledgers and the reports need. */
module Sums {

  ghost function Sum<K(!new)>(s: set<K>, f: K -> int): int
    decreases |s|
  {
    if s == {} then 0
    else
      var k :| k in s;
      f(k) + Sum(s - {k}, f)
  }

  /** Any member may be taken out first: the sum does not depend on the choice made above. */
  lemma {:induction false} SumTake<K(!new)>(s: set<K>, f: K -> int, k: K)
    requires k in s
    ensures Sum(s, f) == f(k) + Sum(s - {k}, f)
    decreases |s|
  {
    var c :| c in s && Sum(s, f) == f(c) + Sum(s - {c}, f);
    if c != k {
      SumTake(s - {c}, f, k);
      SumTake(s - {k}, f, c);
      assert s - {c} - {k} == s - {k} - {c};
    }
  }

  lemma {:induction false} SumSame<K(!new)>(s: set<K>, f: K -> int, g: K -> int)
    requires forall k :: k in s ==> f(k) == g(k)
    ensures Sum(s, f) == Sum(s, g)
    decreases |s|
  {
    if s != {} {
      var k :| k in s;
      SumTake(s, f, k);
      SumTake(s, g, k);
      SumSame(s - {k}, f, g);
    }
  }

  /** Changing f at one member moves the sum by exactly that change. */
  lemma SumChange<K(!new)>(s: set<K>, f: K -> int, g: K -> int, k: K)
    requires k in s
    requires forall j :: j in s && j != k ==> f(j) == g(j)
    ensures Sum(s, g) == Sum(s, f) - f(k) + g(k)
  {
    SumTake(s, f, k);
    SumTake(s, g, k);
    SumSame(s - {k}, f, g);
  }

  /** Two sums that agree on the common members and are zero on the rest are equal. */
  lemma {:induction false} SumGrow<K(!new)>(s: set<K>, t: set<K>, f: K -> int, g: K -> int)
    requires s <= t
    requires forall k :: k in s ==> f(k) == g(k)
    requires forall k :: k in t && k !in s ==> g(k) == 0
    ensures Sum(s, f) == Sum(t, g)
    decreases |t|
  {
    if k :| k in t && k !in s {
      SumTake(t, g, k);
      SumGrow(s, t - {k}, f, g);
    } else {
      assert s == t;
      SumSame(s, f, g);
    }
  }

  lemma {:induction false} SumNonNegative<K(!new)>(s: set<K>, f: K -> int)
    requires forall k :: k in s ==> 0 <= f(k)
    ensures 0 <= Sum(s, f)
    ensures forall k :: k in s ==> f(k) <= Sum(s, f)
    decreases |s|
  {
    forall k | k in s
      ensures 0 <= f(k) <= Sum(s, f)
    {
      SumTake(s, f, k);
      SumNonNegative(s - {k}, f);
    }
  }

  // ---- sums over sequences ----

  function Total<T>(s: seq<T>, f: T -> nat): nat {
    if s == [] then 0 else Total(s[..|s| - 1], f) + f(s[|s| - 1])
  }

  lemma {:induction false} TotalAppends<T>(s: seq<T>, t: seq<T>, f: T -> nat)
    ensures Total(s + t, f) == Total(s, f) + Total(t, f)
    decreases |t|
  {
    if t == [] {
      assert s + t == s;
    } else {
      assert (s + t)[..|s + t| - 1] == s + t[..|t| - 1];
      TotalAppends(s, t[..|t| - 1], f);
    }
  }

  lemma {:induction false} TotalWithout<T>(s: seq<T>, i: nat, f: T -> nat)
    requires i < |s|
    ensures Total(s, f) == Total(s[..i] + s[i + 1..], f) + f(s[i])
    decreases |s|
  {
    var n := |s| - 1;
    if i == n {
      assert s[..i] + s[i + 1..] == s[..n];
    } else {
      var without := s[..i] + s[i + 1..];
      TotalWithout(s[..n], i, f);
      assert without[..|without| - 1] == s[..n][..i] + s[..n][i + 1..];
      assert without[|without| - 1] == s[n];
    }
  }

  lemma BagWithout<T>(s: seq<T>, i: nat)
    requires i < |s|
    ensures multiset(s[..i] + s[i + 1..]) == multiset(s) - multiset{s[i]}
  {
    assert s == s[..i] + [s[i]] + s[i + 1..];
  }

  /** A total depends on the bag of terms only. */
  lemma {:induction false} TotalOfBag<T>(s: seq<T>, t: seq<T>, f: T -> nat)
    requires multiset(s) == multiset(t)
    ensures Total(s, f) == Total(t, f)
    decreases |s|
  {
    if s == [] {
      assert |multiset(t)| == |t|;
    } else {
      var rest, x := s[..|s| - 1], s[|s| - 1];
      assert s == rest + [x];
      assert x in multiset(t);
      var i :| 0 <= i < |t| && t[i] == x;
      TotalWithout(t, i, f);
      BagWithout(t, i);
      TotalOfBag(rest, t[..i] + t[i + 1..], f);
    }
  }
}

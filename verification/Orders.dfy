/** Go's string order, and sorting by a string key. */
module Orders {

  /** Byte-wise order; on UTF-8 it is the order of code points. */
  predicate Less(a: string, b: string) {
    b != [] && (a == [] || a[0] < b[0] || (a[0] == b[0] && Less(a[1..], b[1..])))
  }

  predicate AtMost(a: string, b: string) {
    a == b || Less(a, b)
  }

  lemma {:induction false} LessIsTransitive(a: string, b: string, c: string)
    requires Less(a, b) && Less(b, c)
    ensures Less(a, c)
    decreases |a|
  {
    if a != [] && a[0] == b[0] && b[0] == c[0] {
      LessIsTransitive(a[1..], b[1..], c[1..]);
    }
  }

  lemma {:induction false} LessIsTotal(a: string, b: string)
    ensures Less(a, b) || a == b || Less(b, a)
    ensures !(Less(a, b) && Less(b, a)) && !(a == b && Less(a, b))
    decreases |a|
  {
    if a != [] && b != [] && a[0] == b[0] {
      LessIsTotal(a[1..], b[1..]);
      assert a == [a[0]] + a[1..] && b == [b[0]] + b[1..];
    } else if a == b {
      assert a == [];
    }
  }

  ghost predicate SortedBy<T>(s: seq<T>, key: T -> string) {
    forall i, j :: 0 <= i < j < |s| ==> AtMost(key(s[i]), key(s[j]))
  }

  ghost predicate StrictlySortedBy<T>(s: seq<T>, key: T -> string) {
    forall i, j :: 0 <= i < j < |s| ==> Less(key(s[i]), key(s[j]))
  }

  ghost predicate DistinctBy<T>(s: seq<T>, key: T -> string) {
    forall i, j :: 0 <= i < j < |s| ==> key(s[i]) != key(s[j])
  }

  /** Insert into a sorted sequence, before the first element with a greater key. */
  function Insert<T>(s: seq<T>, x: T, key: T -> string): (r: seq<T>)
    ensures multiset(r) == multiset(s) + multiset{x}
  {
    if s == [] || Less(key(x), key(s[0])) then
      assert [x] + s == [x] + s;
      [x] + s
    else
      assert s == [s[0]] + s[1..];
      [s[0]] + Insert(s[1..], x, key)
  }

  lemma {:induction false} InsertKeepsOrder<T>(s: seq<T>, x: T, key: T -> string)
    requires SortedBy(s, key)
    ensures SortedBy(Insert(s, x, key), key)
    decreases |s|
  {
    var r := Insert(s, x, key);
    if s == [] {
    } else if Less(key(x), key(s[0])) {
      forall i, j | 0 <= i < j < |r|
        ensures AtMost(key(r[i]), key(r[j]))
      {
        if i == 0 && j > 1 {
          assert AtMost(key(s[0]), key(s[j - 1]));
          if key(s[0]) != key(s[j - 1]) { LessIsTransitive(key(x), key(s[0]), key(s[j - 1])); }
        } else if i > 0 {
          assert AtMost(key(s[i - 1]), key(s[j - 1]));
        }
      }
    } else {
      var tail := Insert(s[1..], x, key);
      assert forall i, j :: 0 <= i < j < |s[1..]| ==> AtMost(key(s[1..][i]), key(s[1..][j])) by {
        forall i, j | 0 <= i < j < |s[1..]| ensures AtMost(key(s[1..][i]), key(s[1..][j])) {
          assert AtMost(key(s[i + 1]), key(s[j + 1]));
        }
      }
      InsertKeepsOrder(s[1..], x, key);
      LessIsTotal(key(x), key(s[0]));
      forall j | 0 <= j < |tail|
        ensures AtMost(key(s[0]), key(tail[j]))
      {
        assert tail[j] in multiset(tail);
        if tail[j] != x {
          assert tail[j] in multiset(s[1..]);
          var m :| 0 <= m < |s[1..]| && s[1..][m] == tail[j];
          assert AtMost(key(s[0]), key(s[m + 1]));
        }
      }
      forall i, j | 0 <= i < j < |r|
        ensures AtMost(key(r[i]), key(r[j]))
      {
        if i > 0 {
          assert AtMost(key(tail[i - 1]), key(tail[j - 1]));
        }
      }
    }
  }

  function Sort<T>(s: seq<T>, key: T -> string): (r: seq<T>)
    ensures multiset(r) == multiset(s)
  {
    if s == [] then []
    else
      assert s == s[..|s| - 1] + [s[|s| - 1]];
      Insert(Sort(s[..|s| - 1], key), s[|s| - 1], key)
  }

  lemma {:induction false} SortSorts<T>(s: seq<T>, key: T -> string)
    ensures SortedBy(Sort(s, key), key)
    decreases |s|
  {
    if s != [] {
      SortSorts(s[..|s| - 1], key);
      InsertKeepsOrder(Sort(s[..|s| - 1], key), s[|s| - 1], key);
    }
  }

  /** The least element comes first. */
  lemma StrictFirst<T>(s: seq<T>, t: seq<T>, key: T -> string)
    requires StrictlySortedBy(s, key) && StrictlySortedBy(t, key) && multiset(s) == multiset(t) && s != [] && t != []
    ensures s[0] == t[0]
  {
    assert s[0] in multiset(t) && t[0] in multiset(s);
    var i :| 0 <= i < |t| && t[i] == s[0];
    var j :| 0 <= j < |s| && s[j] == t[0];
    LessIsTotal(key(s[0]), key(t[0]));
  }

  lemma BagOfTail<T>(s: seq<T>)
    requires s != []
    ensures multiset(s[1..]) == multiset(s) - multiset{s[0]}
  {
    assert s == [s[0]] + s[1..];
  }

  /** Two strictly sorted permutations are equal. */
  lemma {:induction false} StrictSortIsUnique<T>(s: seq<T>, t: seq<T>, key: T -> string)
    requires StrictlySortedBy(s, key) && StrictlySortedBy(t, key) && multiset(s) == multiset(t)
    ensures s == t
    decreases |s|
  {
    assert |multiset(s)| == |s| && |multiset(t)| == |t|;
    if s != [] {
      StrictFirst(s, t, key);
      BagOfTail(s);
      BagOfTail(t);
      TailStaysStrict(s, key);
      TailStaysStrict(t, key);
      StrictSortIsUnique(s[1..], t[1..], key);
      assert s == [s[0]] + s[1..] && t == [t[0]] + t[1..];
    }
  }

  lemma TailStaysStrict<T>(s: seq<T>, key: T -> string)
    requires StrictlySortedBy(s, key) && s != []
    ensures StrictlySortedBy(s[1..], key)
  {
    forall i, j | 0 <= i < j < |s[1..]|
      ensures Less(key(s[1..][i]), key(s[1..][j]))
    {
      assert Less(key(s[i + 1]), key(s[j + 1]));
    }
  }

  /** Distinct keys make a sorted sequence strictly sorted. */
  lemma DistinctSortsStrictly<T>(s: seq<T>, key: T -> string)
    requires SortedBy(s, key) && DistinctBy(s, key)
    ensures StrictlySortedBy(s, key)
  {
    forall i, j | 0 <= i < j < |s|
      ensures Less(key(s[i]), key(s[j]))
    {
      assert AtMost(key(s[i]), key(s[j]));
    }
  }

  // ---- distinct keys are a matter of the bag ----

  lemma TwoPlaces<T>(s: seq<T>, i: nat, j: nat)
    requires i < j < |s|
    ensures s[i] == s[j] ==> multiset(s)[s[i]] >= 2
  {
    assert s == s[..j] + [s[j]] + s[j + 1..];
    assert s[i] in s[..j];
  }

  lemma {:induction false} Repeats<T>(s: seq<T>, x: T) returns (i: nat, j: nat)
    requires multiset(s)[x] >= 2
    ensures i < j < |s| && s[i] == x && s[j] == x
    decreases |s|
  {
    var rest, last := s[..|s| - 1], s[|s| - 1];
    assert s == rest + [last];
    if last == x {
      assert x in multiset(rest);
      i :| 0 <= i < |rest| && rest[i] == x;
      j := |s| - 1;
    } else {
      i, j := Repeats(rest, x);
    }
  }

  lemma DistinctOfBag<T>(s: seq<T>, t: seq<T>, key: T -> string)
    requires multiset(s) == multiset(t) && DistinctBy(s, key)
    ensures DistinctBy(t, key)
  {
    forall i, j | 0 <= i < j < |t|
      ensures key(t[i]) != key(t[j])
    {
      if t[i] == t[j] {
        TwoPlaces(t, i, j);
        var a, b := Repeats(s, t[i]);
      } else {
        assert t[i] in multiset(s) && t[j] in multiset(s);
        var a, b :| 0 <= a < |s| && 0 <= b < |s| && s[a] == t[i] && s[b] == t[j];
        assert a < b || b < a;
      }
    }
  }

  // ---- sets of strings, listed in order ----

  /** The key of a string sorted as itself. */
  function Itself(s: string): string { s }

  /** A set as its sorted listing: what collecting map keys and sorting them yields. */
  ghost function Listing(keys: set<string>): (s: seq<string>)
    ensures multiset(s) == multiset(keys)
    decreases |keys|
  {
    if keys == {} then []
    else
      var k :| k in keys;
      Insert(Listing(keys - {k}), k, Itself)
  }

  lemma {:induction false} ListingIsSorted(keys: set<string>)
    ensures SortedBy(Listing(keys), Itself) && StrictlySortedBy(Listing(keys), Itself)
    ensures forall k :: k in Listing(keys) <==> k in keys
    decreases |keys|
  {
    var listed := Listing(keys);
    if keys != {} {
      var k :| k in keys && listed == Insert(Listing(keys - {k}), k, Itself);
      ListingIsSorted(keys - {k});
      InsertKeepsOrder(Listing(keys - {k}), k, Itself);
    }
    forall k ensures k in listed <==> k in keys { assert k in multiset(listed) <==> k in multiset(keys); }
    NoRepeatsAreDistinct(listed);
    DistinctSortsStrictly(listed, Itself);
  }

  lemma NoRepeatsAreDistinct(s: seq<string>)
    requires forall k :: multiset(s)[k] <= 1
    ensures DistinctBy(s, Itself)
  {
    forall i, j | 0 <= i < j < |s|
      ensures s[i] != s[j]
    {
      assert s == s[..j] + [s[j]] + s[j + 1..];
      assert s[i] in multiset(s[..j]);
      assert multiset(s)[s[j]] >= multiset(s[..j])[s[j]] + 1;
    }
  }

  lemma {:induction false} DistinctHasNoRepeats(s: seq<string>)
    requires DistinctBy(s, Itself)
    ensures forall k :: multiset(s)[k] <= 1
    decreases |s|
  {
    if s != [] {
      var rest, last := s[..|s| - 1], s[|s| - 1];
      assert s == rest + [last];
      forall i, j | 0 <= i < j < |rest|
        ensures Itself(rest[i]) != Itself(rest[j])
      {
        assert Itself(s[i]) != Itself(s[j]);
      }
      DistinctHasNoRepeats(rest);
      assert forall i :: 0 <= i < |rest| ==> Itself(s[i]) != Itself(s[|s| - 1]) && rest[i] == s[i];
      assert last !in multiset(rest);
    }
  }

  /** Collect a set's members in whatever order they come, and sort them. */
  method ListInOrder(keys: set<string>) returns (listed: seq<string>)
    ensures listed == Listing(keys)
  {
    listed := [];
    var todo := keys;
    while todo != {}
      invariant todo <= keys
      invariant forall k :: k in listed <==> k in keys && k !in todo
      invariant DistinctBy(listed, Itself)
      decreases todo
    {
      var k :| k in todo;
      todo := todo - {k};
      listed := listed + [k];
    }
    SortedListing(listed, keys);
    listed := Sort(listed, Itself);
  }

  lemma SortedListing(s: seq<string>, keys: set<string>)
    requires DistinctBy(s, Itself) && forall k :: k in s <==> k in keys
    ensures Sort(s, Itself) == Listing(keys)
  {
    var t := Sort(s, Itself);
    SortSorts(s, Itself);
    hide Sort;
    BagOfDistinct(s, keys);
    NoRepeatsAreDistinct(t);
    DistinctSortsStrictly(t, Itself);
    ListingIsSorted(keys);
    StrictSortIsUnique(t, Listing(keys), Itself);
  }

  lemma BagOfDistinct(s: seq<string>, keys: set<string>)
    requires DistinctBy(s, Itself) && forall k :: k in s <==> k in keys
    ensures multiset(s) == multiset(keys)
  {
    DistinctHasNoRepeats(s);
    forall k ensures multiset(s)[k] == multiset(keys)[k] { assert k in multiset(s) <==> k in s; }
  }
}

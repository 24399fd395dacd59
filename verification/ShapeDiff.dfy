/** Where two shapes disagree: the recursive diff of their canonical JSON trees. */
module ShapeDiff {
  import opened Orders

  /** A JSON tree. Marshalling is injective on trees, so texts are compared as trees. */
  datatype Json = Null | Scalar(text: string) | Array(items: seq<Json>) | Object(fields: map<string, Json>)

  /** A disagreement at a path, with what the candidate declares and what the frozen shape expects there. */
  datatype Reason = Reason(path: seq<string>, declared: Json, expected: Json)

  /** Looking up an absent key of a decoded object yields null. */
  function Get(fields: map<string, Json>, k: string): Json {
    if k in fields then fields[k] else Null
  }

  function Leaf(a: Json, b: Json): seq<Reason> {
    if a == b then [] else [Reason([], b, a)]
  }

  function Under(k: string, reasons: seq<Reason>): (r: seq<Reason>)
    ensures |r| == |reasons| && forall i :: 0 <= i < |r| ==> r[i] == reasons[i].(path := [k] + reasons[i].path)
  {
    seq(|reasons|, i requires 0 <= i < |reasons| => reasons[i].(path := [k] + reasons[i].path))
  }

  /** The disagreements of frozen a and candidate b, walking the keys of two objects in order. */
  ghost function Diff(a: Json, b: Json): seq<Reason>
    decreases a, 1, 0
  {
    if a.Object? && b.Object? then DiffKeys(a, b, Listing(a.fields.Keys + b.fields.Keys)) else Leaf(a, b)
  }

  ghost function DiffKeys(a: Json, b: Json, keys: seq<string>): seq<Reason>
    requires a.Object? && b.Object?
    decreases a, 0, |keys|
  {
    if keys == [] then []
    else
      var k := keys[|keys| - 1];
      DiffKeys(a, b, keys[..|keys| - 1])
      + Under(k, if k in a.fields && k in b.fields then Diff(a.fields[k], b.fields[k])
              else Leaf(Get(a.fields, k), Get(b.fields, k)))
  }

  // ---- the trees, up to null-valued keys ----

  /** The tree without the null-valued keys of its objects. */
  function Norm(t: Json): Json {
    if t.Object? then Object(map k | k in t.fields && t.fields[k] != Null :: Norm(t.fields[k])) else t
  }

  lemma NormNull(t: Json)
    ensures Norm(t) == Null <==> t == Null
  {
  }

  /** Two objects agree up to null-valued keys just when they agree so at every key. */
  lemma NormByKeys(m: map<string, Json>, n: map<string, Json>)
    ensures Norm(Object(m)) == Norm(Object(n)) <==> forall k :: Norm(Get(m, k)) == Norm(Get(n, k))
  {
    var x, y := Norm(Object(m)).fields, Norm(Object(n)).fields;
    forall k ensures (k in x <==> Norm(Get(m, k)) != Null) && (k in y <==> Norm(Get(n, k)) != Null) {
      NormNull(Get(m, k));
      NormNull(Get(n, k));
    }
    if forall k :: Norm(Get(m, k)) == Norm(Get(n, k)) {
      assert x == y;
    }
    if x == y {
      forall k ensures Norm(Get(m, k)) == Norm(Get(n, k)) {
        if k in x {
          assert x[k] == y[k];
        }
      }
    }
  }

  // ---- replaying a diff ----

  /** Put a value at a path, opening objects as needed. */
  function Patch(t: Json, path: seq<string>, value: Json): Json
    decreases |path|
  {
    if path == [] then value
    else
      var fields := if t.Object? then t.fields else map[];
      Object(fields[path[0] := Patch(Get(fields, path[0]), path[1..], value)])
  }

  function Replay(reasons: seq<Reason>, t: Json): Json {
    if reasons == [] then t
    else
      var last := reasons[|reasons| - 1];
      Patch(Replay(reasons[..|reasons| - 1], t), last.path, last.expected)
  }

  lemma {:induction false} ReplayAppends(first: seq<Reason>, more: seq<Reason>, t: Json)
    ensures Replay(first + more, t) == Replay(more, Replay(first, t))
    decreases |more|
  {
    if more == [] {
      assert first + more == first;
    } else {
      assert (first + more)[..|first + more| - 1] == first + more[..|more| - 1];
      ReplayAppends(first, more[..|more| - 1], t);
    }
  }

  /** Replaying under a key changes that key's subtree and nothing else. */
  lemma {:induction false} ReplayUnder(k: string, reasons: seq<Reason>, fields: map<string, Json>)
    ensures Replay(Under(k, reasons), Object(fields))
            == if reasons == [] then Object(fields) else Object(fields[k := Replay(reasons, Get(fields, k))])
    decreases |reasons|
  {
    if reasons != [] {
      var rest, last := reasons[..|reasons| - 1], reasons[|reasons| - 1];
      ReplayUnder(k, rest, fields);
      assert Under(k, reasons)[..|reasons| - 1] == Under(k, rest);
      assert ([k] + last.path)[1..] == last.path;
      if rest != [] {
        assert fields[k := Replay(rest, Get(fields, k))][k := Replay(reasons, Get(fields, k))]
            == fields[k := Replay(reasons, Get(fields, k))];
      }
    }
  }

  /** The part of the diff found under one key. */
  ghost function DiffAt(a: Json, b: Json, k: string): seq<Reason>
    requires a.Object? && b.Object?
  {
    if k in a.fields && k in b.fields then Diff(a.fields[k], b.fields[k]) else Leaf(Get(a.fields, k), Get(b.fields, k))
  }

  lemma LeafReplays(a: Json, b: Json)
    ensures Replay(Leaf(a, b), b) == a
  {
    if a != b {
      assert Leaf(a, b)[..0] == [];
    }
  }

  /** Replaying every reason onto the candidate yields the frozen tree, up to null-valued keys. */
  lemma {:induction false} DiffReplays(a: Json, b: Json)
    ensures Norm(Replay(Diff(a, b), b)) == Norm(a)
    decreases a, 1, 0
  {
    if a.Object? && b.Object? {
      var keys := Listing(a.fields.Keys + b.fields.Keys);
      ListingIsSorted(a.fields.Keys + b.fields.Keys);
      StrictIsDistinct(keys);
      KeysReplay(a, b, keys, "");
      var fields := Replay(DiffKeys(a, b, keys), b).fields;
      forall k ensures Norm(Get(fields, k)) == Norm(Get(a.fields, k)) {
        KeysReplay(a, b, keys, k);
        assert k !in keys ==> k !in a.fields && k !in b.fields;
      }
      NormByKeys(fields, a.fields);
    } else {
      LeafReplays(a, b);
    }
  }

  lemma StrictIsDistinct(s: seq<string>)
    requires StrictlySortedBy(s, Itself)
    ensures forall i, j :: 0 <= i < j < |s| ==> s[i] != s[j]
  {
    forall i, j | 0 <= i < j < |s|
      ensures s[i] != s[j]
    {
      LessIsTotal(s[i], s[j]);
    }
  }

  /** After replaying the walked keys, a walked key agrees with the frozen tree and any other is as the candidate has
      it. */
  lemma {:induction false} KeysReplay(a: Json, b: Json, keys: seq<string>, j: string)
    requires a.Object? && b.Object? && forall i, j :: 0 <= i < j < |keys| ==> keys[i] != keys[j]
    ensures var t := Replay(DiffKeys(a, b, keys), b);
            && t.Object?
            && (j in keys ==> Norm(Get(t.fields, j)) == Norm(Get(a.fields, j)))
            && (j !in keys ==> Get(t.fields, j) == Get(b.fields, j))
    decreases a, 0, |keys|
  {
    if keys != [] {
      var n := |keys| - 1;
      var rest, k := keys[..n], keys[n];
      assert keys == rest + [k] && k !in rest;
      KeysReplay(a, b, rest, j);
      KeysReplay(a, b, rest, k);
      var t := Replay(DiffKeys(a, b, rest), b);
      DiffKeysStep(a, b, keys);
      ReplayAppends(DiffKeys(a, b, rest), Under(k, DiffAt(a, b, k)), b);
      KeyReplays(a, b, k);
      NextKeyReplays(a, b, t.fields, k);
    }
  }

  lemma NextKeyReplays(a: Json, b: Json, fields: map<string, Json>, k: string)
    requires a.Object? && b.Object? && Get(fields, k) == Get(b.fields, k)
    requires Norm(Replay(DiffAt(a, b, k), Get(b.fields, k))) == Norm(Get(a.fields, k))
    ensures var t := Replay(Under(k, DiffAt(a, b, k)), Object(fields));
            && t.Object? && Norm(Get(t.fields, k)) == Norm(Get(a.fields, k))
            && forall j :: j != k ==> Get(t.fields, j) == Get(fields, j)
  {
    ReplayUnder(k, DiffAt(a, b, k), fields);
  }

  lemma {:induction false} KeyReplays(a: Json, b: Json, k: string)
    requires a.Object? && b.Object?
    ensures Norm(Replay(DiffAt(a, b, k), Get(b.fields, k))) == Norm(Get(a.fields, k))
    decreases a, 0, 0
  {
    if k in a.fields && k in b.fields {
      DiffReplays(a.fields[k], b.fields[k]);
    } else {
      LeafReplays(Get(a.fields, k), Get(b.fields, k));
    }
  }

  /** The diff is empty exactly when the trees agree up to null-valued keys. */
  lemma {:induction false} DiffIsEmptyIffAgree(a: Json, b: Json)
    ensures Diff(a, b) == [] <==> Norm(a) == Norm(b)
    decreases a, 1
  {
    if a.Object? && b.Object? {
      var keys := Listing(a.fields.Keys + b.fields.Keys);
      ListingIsSorted(a.fields.Keys + b.fields.Keys);
      KeysEmpty(a, b, keys);
      forall k ensures (k in keys ==> DiffAt(a, b, k) == []) <==> Norm(Get(a.fields, k)) == Norm(Get(b.fields, k)) {
        if k in a.fields && k in b.fields {
          DiffIsEmptyIffAgree(a.fields[k], b.fields[k]);
        } else {
          NormNull(Get(a.fields, k));
          NormNull(Get(b.fields, k));
        }
      }
      NormByKeys(a.fields, b.fields);
    } else {
      LeafNorms(a, b);
    }
  }

  /** Trees that are not both objects agree only by being equal. */
  lemma LeafNorms(a: Json, b: Json)
    requires !(a.Object? && b.Object?)
    ensures Norm(a) == Norm(b) <==> a == b
  {
  }

  lemma {:induction false} KeysEmpty(a: Json, b: Json, keys: seq<string>)
    requires a.Object? && b.Object?
    ensures DiffKeys(a, b, keys) == [] <==> forall k :: k in keys ==> DiffAt(a, b, k) == []
    decreases |keys|
  {
    if keys != [] {
      var n := |keys| - 1;
      var rest, k := keys[..n], keys[n];
      KeysEmpty(a, b, rest);
      DiffKeysStep(a, b, keys);
      assert |Under(k, DiffAt(a, b, k))| == |DiffAt(a, b, k)|;
      assert forall j :: j in keys <==> j in rest || j == k by { assert keys == rest + [k]; }
    }
  }

  lemma DiffKeysStep(a: Json, b: Json, keys: seq<string>)
    requires a.Object? && b.Object? && keys != []
    ensures var k := keys[|keys| - 1];
            DiffKeys(a, b, keys) == DiffKeys(a, b, keys[..|keys| - 1]) + Under(k, DiffAt(a, b, k))
  {
  }

  // ---- the reasons themselves ----

  function At(t: Json, path: seq<string>): Json
    decreases |path|
  {
    if path == [] then t else if t.Object? then At(Get(t.fields, path[0]), path[1..]) else Null
  }

  /** Reason r names a real disagreement of a and b. */
  ghost predicate Names(r: Reason, a: Json, b: Json) {
    r.expected == At(a, r.path) && r.declared == At(b, r.path) && r.expected != r.declared
  }

  /** No reported path is a prefix of, or equal to, another. */
  ghost predicate PrefixFree(reasons: seq<Reason>) {
    forall i, j :: 0 <= i < |reasons| && 0 <= j < |reasons| && i != j ==> !(reasons[i].path <= reasons[j].path)
  }

  lemma SamePrefixUnder(k: string, p: seq<string>, q: seq<string>)
    ensures [k] + p <= [k] + q <==> p <= q
  {
    assert ([k] + p)[1..] == p && ([k] + q)[1..] == q;
  }

  lemma UnderKeeps(k: string, reasons: seq<Reason>, a: Json, b: Json)
    requires a.Object? && b.Object? && PrefixFree(reasons)
    requires forall r :: r in reasons ==> Names(r, Get(a.fields, k), Get(b.fields, k))
    ensures PrefixFree(Under(k, reasons))
    ensures forall r :: r in Under(k, reasons) ==> Names(r, a, b) && r.path != [] && r.path[0] == k
  {
    var under := Under(k, reasons);
    forall i, j | 0 <= i < |under| && 0 <= j < |under| && i != j
      ensures !(under[i].path <= under[j].path)
    {
      SamePrefixUnder(k, reasons[i].path, reasons[j].path);
    }
    forall r | r in under
      ensures Names(r, a, b) && r.path != [] && r.path[0] == k
    {
      var i :| 0 <= i < |under| && under[i] == r;
      assert reasons[i] in reasons && r.path[1..] == reasons[i].path;
    }
  }

  /** Every reason names a real disagreement, and the reported paths are prefix free. */
  lemma {:induction false} DiffNamesDisagreements(a: Json, b: Json)
    ensures PrefixFree(Diff(a, b)) && forall r :: r in Diff(a, b) ==> Names(r, a, b)
    decreases a, 1, 0
  {
    if a.Object? && b.Object? {
      var keys := Listing(a.fields.Keys + b.fields.Keys);
      ListingIsSorted(a.fields.Keys + b.fields.Keys);
      StrictIsDistinct(keys);
      KeysNameDisagreements(a, b, keys);
    }
  }

  lemma {:induction false} KeysNameDisagreements(a: Json, b: Json, keys: seq<string>)
    requires a.Object? && b.Object? && forall i, j :: 0 <= i < j < |keys| ==> keys[i] != keys[j]
    ensures PrefixFree(DiffKeys(a, b, keys))
    ensures forall r :: r in DiffKeys(a, b, keys) ==> Names(r, a, b) && r.path != [] && r.path[0] in keys
    decreases a, 0, |keys|
  {
    if keys != [] {
      var n := |keys| - 1;
      var rest, k := keys[..n], keys[n];
      KeysNameDisagreements(a, b, rest);
      if k in a.fields && k in b.fields {
        DiffNamesDisagreements(a.fields[k], b.fields[k]);
      }
      UnderKeeps(k, DiffAt(a, b, k), a, b);
      assert k !in rest && forall j :: j in rest ==> j in keys;
      DisjointHeads(DiffKeys(a, b, rest), Under(k, DiffAt(a, b, k)), rest, k);
    }
  }

  lemma DisjointHeads(first: seq<Reason>, more: seq<Reason>, heads: seq<string>, k: string)
    requires PrefixFree(first) && PrefixFree(more) && k !in heads
    requires forall r :: r in first ==> r.path != [] && r.path[0] in heads
    requires forall r :: r in more ==> r.path != [] && r.path[0] == k
    ensures PrefixFree(first + more)
  {
    var all := first + more;
    forall i, j | 0 <= i < |all| && 0 <= j < |all| && i != j
      ensures !(all[i].path <= all[j].path)
    {
      assert if i < |first| then all[i] in first else all[i] in more;
      assert if j < |first| then all[j] in first else all[j] in more;
      if i < |first| && j < |first| {
        assert all[i] == first[i] && all[j] == first[j];
      } else if |first| <= i && |first| <= j {
        assert all[i] == more[i - |first|] && all[j] == more[j - |first|];
      } else {
        assert all[i].path[0] != all[j].path[0];
      }
    }
  }
}

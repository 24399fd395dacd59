/** The identity scan: a key must not be both a leaf and a prefix, checked on neighbours of the sorted keys. */
module IdentityKeys {
  import opened Orders

  predicate StartsSegment(c: char) { 'a' <= c <= 'z' }

  predicate InSegment(c: char) { 'a' <= c <= 'z' || '0' <= c <= '9' || c == '_' || c == '-' }

  /** The grammar of an identity key from position i on, given whether a segment starts there. */
  predicate SegmentsFrom(k: string, i: nat, starting: bool)
    requires i <= |k|
    decreases |k| - i
  {
    if i == |k| then !starting
    else if starting then StartsSegment(k[i]) && SegmentsFrom(k, i + 1, false)
    else if k[i] == '.' then SegmentsFrom(k, i + 1, true)
    else InSegment(k[i]) && SegmentsFrom(k, i + 1, false)
  }

  predicate IsIdentityKey(k: string) {
    SegmentsFrom(k, 0, true)
  }

  // ---- the grammar as a language ----

  ghost predicate IsLetter(c: char) { c in "abcdefghijklmnopqrstuvwxyz" }

  ghost predicate IsRest(s: string) {
    forall i :: 0 <= i < |s| ==> IsLetter(s[i]) || s[i] in "0123456789_-"
  }

  /** A letter, then letters, digits, underscores and hyphens. */
  ghost predicate IsSegment(s: string) {
    s != "" && IsLetter(s[0]) && IsRest(s[1..])
  }

  ghost predicate AreSegments(segments: seq<string>) {
    forall i :: 0 <= i < |segments| ==> IsSegment(segments[i])
  }

  /** What follows the text of a segment: its remaining characters, then each further segment behind a dot. */
  ghost function Dotted(rest: string, segments: seq<string>): string
    decreases |segments|
  {
    if segments == [] then rest else rest + "." + Dotted(segments[0], segments[1..])
  }

  lemma GrammarClasses(c: char)
    ensures StartsSegment(c) <==> IsLetter(c)
    ensures InSegment(c) <==> IsLetter(c) || c in "0123456789_-"
    ensures InSegment(c) ==> c != '.'
  {
  }

  lemma {:induction false} ReadsSegments(k: string, i: nat, rest: string, segments: seq<string>)
    requires i <= |k| && k[i..] == Dotted(rest, segments) && IsRest(rest) && AreSegments(segments)
    ensures SegmentsFrom(k, i, false)
    decreases |k| - i
  {
    hide IsLetter, StartsSegment, InSegment;
    if rest != "" {
      GrammarClasses(k[i]);
      assert k[i] == rest[0] && k[i + 1..] == k[i..][1..] == Dotted(rest[1..], segments);
      ReadsSegments(k, i + 1, rest[1..], segments);
    } else if segments != [] {
      var first := segments[0];
      assert k[i] == '.' && k[i + 1..] == k[i..][1..] == Dotted(first, segments[1..]);
      assert IsSegment(first) && k[i + 1] == first[0];
      GrammarClasses(first[0]);
      assert k[i + 2..] == k[i + 1..][1..] == Dotted(first[1..], segments[1..]);
      ReadsSegments(k, i + 2, first[1..], segments[1..]);
    }
  }

  lemma {:induction false} SplitsIntoSegments(k: string, i: nat) returns (rest: string, segments: seq<string>)
    requires i <= |k| && SegmentsFrom(k, i, false)
    ensures k[i..] == Dotted(rest, segments) && IsRest(rest) && AreSegments(segments)
    decreases |k| - i
  {
    hide IsLetter, StartsSegment, InSegment;
    rest, segments := "", [];
    if i < |k| {
      GrammarClasses(k[i]);
      if k[i] == '.' {
        GrammarClasses(k[i + 1]);
        var tail, more := SplitsIntoSegments(k, i + 2);
        segments := [[k[i + 1]] + tail] + more;
        assert k[i..] == "." + ([k[i + 1]] + k[i + 2..]);
        DottedGrows(k[i + 1], tail, more);
        assert segments[1..] == more;
        assert ([k[i + 1]] + tail)[1..] == tail;
      } else {
        var tail, more := SplitsIntoSegments(k, i + 1);
        rest, segments := [k[i]] + tail, more;
        DottedGrows(k[i], tail, more);
        assert k[i..] == [k[i]] + k[i + 1..];
      }
    }
  }

  lemma DottedGrows(c: char, rest: string, segments: seq<string>)
    ensures Dotted([c] + rest, segments) == [c] + Dotted(rest, segments)
  {
  }

  /** A text is an identity key exactly when it is one or more segments joined by dots. */
  lemma KeysAreDottedSegments(k: string)
    ensures IsIdentityKey(k) <==>
              exists first, more :: IsSegment(first) && AreSegments(more) && k == Dotted(first, more)
  {
    if IsIdentityKey(k) {
      GrammarClasses(k[0]);
      var rest, more := SplitsIntoSegments(k, 1);
      DottedGrows(k[0], rest, more);
      assert k == [k[0]] + k[1..] && ([k[0]] + rest)[1..] == rest;
      assert IsSegment([k[0]] + rest) && k == Dotted([k[0]] + rest, more);
    }
    if first, more :| IsSegment(first) && AreSegments(more) && k == Dotted(first, more) {
      GrammarClasses(k[0]);
      assert first == [first[0]] + first[1..];
      DottedGrows(first[0], first[1..], more);
      assert k[1..] == Dotted(first[1..], more);
      ReadsSegments(k, 1, first[1..], more);
    }
  }

  // ---- conflicts ----

  /** c lies under k: k is a leaf and also a prefix of c. */
  predicate Under(k: string, c: string) {
    k + "." <= c
  }

  /** Some key lies under k. */
  ghost predicate Conflicted(keys: set<string>, k: string) {
    k in keys && exists c :: c in keys && Under(k, c)
  }

  /** Some key extends k by a character that sorts before the dot. */
  ghost predicate Masked(keys: set<string>, k: string) {
    exists m :: m in keys && |k| < |m| && k <= m && m[|k|] < '.'
  }

  // ---- prefixes and order ----

  lemma {:induction false} ExtensionIsGreater(k: string, s: string)
    requires k <= s && |k| < |s|
    ensures Less(k, s)
    decreases |k|
  {
    if k != [] {
      ExtensionIsGreater(k[1..], s[1..]);
    }
  }

  /** What sorts between k and an extension of k extends k too, by no later a character. */
  lemma {:induction false} BetweenExtends(k: string, n: string, c: string)
    requires Less(k, n) && AtMost(n, c) && k <= c && |k| < |c|
    ensures k <= n && |k| < |n| && n[|k|] <= c[|k|]
    decreases |k|
  {
    if k != [] && n != c {
      assert n[0] == c[0] == k[0];
      assert k[1..] <= c[1..];
      BetweenExtends(k[1..], n[1..], c[1..]);
      assert k == [k[0]] + k[1..] && n == [n[0]] + n[1..];
      assert n[|k|] == n[1..][|k| - 1] && c[|k|] == c[1..][|k| - 1];
    } else if k == [] && n != c {
      assert n != [] && n[0] <= c[0];
    }
  }

  lemma {:induction false} EarlierExtensionIsLess(k: string, m: string, n: string)
    requires k <= m && k <= n && |k| < |m| && |k| < |n| && m[|k|] < n[|k|]
    ensures Less(m, n)
    decreases |k|
  {
    if k != [] {
      EarlierExtensionIsLess(k[1..], m[1..], n[1..]);
    }
  }

  // ---- neighbours ----

  lemma StrictOrder(s: seq<string>, i: nat, j: nat)
    requires StrictlySortedBy(s, Itself) && i < |s| && j < |s|
    ensures (i < j ==> Less(s[i], s[j])) && (j < i ==> Less(s[j], s[i]))
  {
    assert i < j ==> Less(Itself(s[i]), Itself(s[j]));
    assert j < i ==> Less(Itself(s[j]), Itself(s[i]));
  }

  /** Nothing sorts strictly between neighbours. */
  lemma NothingBetween(s: seq<string>, i: nat, x: string)
    requires StrictlySortedBy(s, Itself) && i + 1 < |s| && x in s && Less(s[i], x)
    ensures AtMost(s[i + 1], x)
  {
    var j :| 0 <= j < |s| && s[j] == x;
    LessIsTotal(s[i], x);
    StrictOrder(s, i, j);
    StrictOrder(s, i + 1, j);
  }

  /** A key's sorted successor lies under it exactly when the key is conflicted and not masked. */
  lemma NeighbourDecides(keys: set<string>, s: seq<string>, i: nat)
    requires StrictlySortedBy(s, Itself) && (forall k :: k in s <==> k in keys) && i < |s|
    ensures (i + 1 < |s| && Under(s[i], s[i + 1])) <==> Conflicted(keys, s[i]) && !Masked(keys, s[i])
  {
    var k := s[i];
    if i + 1 < |s| && Under(k, s[i + 1]) {
      assert s[i + 1] in keys;
      NotMasked(keys, s, i);
    }
    if Conflicted(keys, k) && !Masked(keys, k) {
      var c :| c in keys && Under(k, c);
      ExtensionIsGreater(k, c);
      SuccessorExists(s, i, c);
      NothingBetween(s, i, c);
      assert Less(Itself(s[i]), Itself(s[i + 1]));
      BetweenExtends(k, s[i + 1], c);
      assert c[|k|] == '.' && s[i + 1] in keys;
      assert s[i + 1][|k|] == '.';
      assert s[i + 1][..|k| + 1] == k + ".";
    }
  }

  lemma NotMasked(keys: set<string>, s: seq<string>, i: nat)
    requires StrictlySortedBy(s, Itself) && (forall k :: k in s <==> k in keys) && i + 1 < |s| && Under(s[i], s[i + 1])
    ensures !Masked(keys, s[i])
  {
    var k, n := s[i], s[i + 1];
    assert n[|k|] == '.';
    forall m | m in keys && |k| < |m| && k <= m
      ensures !(m[|k|] < '.')
    {
      ExtensionIsGreater(k, m);
      NothingBetween(s, i, m);
      LessIsTotal(n, m);
      if m[|k|] < n[|k|] {
        EarlierExtensionIsLess(k, m, n);
      }
    }
  }

  lemma SuccessorExists(s: seq<string>, i: nat, c: string)
    requires StrictlySortedBy(s, Itself) && i < |s| && c in s && Less(s[i], c)
    ensures i + 1 < |s|
  {
    var j :| 0 <= j < |s| && s[j] == c;
    LessIsTotal(s[i], c);
    StrictOrder(s, i, j);
  }

  // ---- the scan ----

  datatype Conflict = Conflict(leaf: string, under: string)

  ghost predicate Reports(conflicts: seq<Conflict>, k: string) {
    exists c :: c in conflicts && c.leaf == k
  }

  /** One of the first n keys is k and its successor lies under it. */
  ghost predicate ReportedBy(s: seq<string>, n: nat, k: string) {
    exists j :: 0 <= j < n && j + 1 < |s| && s[j] == k && Under(s[j], s[j + 1])
  }

  /** The scan after n keys: what was reported, and only real conflicts. */
  ghost predicate Scanned(s: seq<string>, n: nat, conflicts: seq<Conflict>) {
    && (forall k :: Reports(conflicts, k) <==> ReportedBy(s, n, k))
    && (forall c :: c in conflicts ==> c.leaf in s && c.under in s && Under(c.leaf, c.under))
  }

  lemma ScannedOneMore(s: seq<string>, i: nat, conflicts: seq<Conflict>)
    requires i + 1 < |s| && Scanned(s, i, conflicts)
    ensures Scanned(s, i + 1, if Under(s[i], s[i + 1]) then conflicts + [Conflict(s[i], s[i + 1])] else conflicts)
  {
    var found := Conflict(s[i], s[i + 1]);
    var conflicts' := if Under(s[i], s[i + 1]) then conflicts + [found] else conflicts;
    assert forall c :: c in conflicts' <==> c in conflicts || (Under(s[i], s[i + 1]) && c == found);
    forall k ensures Reports(conflicts', k) <==> ReportedBy(s, i + 1, k) {
      assert Reports(conflicts, k) <==> ReportedBy(s, i, k);
      if Under(s[i], s[i + 1]) && k == s[i] {
        assert found in conflicts';
      }
    }
  }

  /** Compare neighbours of the sorted keys. The leaves reported are exactly the conflicted keys that are not masked,
      each with a key that lies under it. */
  method ScanIdentity(identity: map<string, string>) returns (conflicts: seq<Conflict>)
    ensures forall k :: Reports(conflicts, k) <==> Conflicted(identity.Keys, k) && !Masked(identity.Keys, k)
    ensures forall c :: c in conflicts ==> c.leaf in identity && c.under in identity && Under(c.leaf, c.under)
  {
    var idKeys := ListInOrder(identity.Keys);
    conflicts := [];
    var i := 0;
    while i + 1 < |idKeys|
      invariant 0 <= i <= |idKeys| && (i > 0 ==> i < |idKeys|)
      invariant Scanned(idKeys, i, conflicts)
    {
      ScannedOneMore(idKeys, i, conflicts);
      if Under(idKeys[i], idKeys[i + 1]) {
        conflicts := conflicts + [Conflict(idKeys[i], idKeys[i + 1])];
      }
      i := i + 1;
    }
    WholeScan(identity.Keys, idKeys, i, conflicts);
  }

  lemma WholeScan(keys: set<string>, s: seq<string>, n: nat, conflicts: seq<Conflict>)
    requires s == Listing(keys) && n <= |s| <= n + 1 && Scanned(s, n, conflicts)
    ensures forall k :: Reports(conflicts, k) <==> Conflicted(keys, k) && !Masked(keys, k)
    ensures forall c :: c in conflicts ==> c.leaf in keys && c.under in keys && Under(c.leaf, c.under)
  {
    ListingIsSorted(keys);
    forall k ensures Reports(conflicts, k) <==> Conflicted(keys, k) && !Masked(keys, k) {
      NeighboursDecide(keys, s, n, k);
    }
  }

  lemma NeighboursDecide(keys: set<string>, s: seq<string>, n: nat, k: string)
    requires StrictlySortedBy(s, Itself) && (forall x :: x in s <==> x in keys) && n <= |s| <= n + 1
    ensures ReportedBy(s, n, k) <==> Conflicted(keys, k) && !Masked(keys, k)
  {
    if j :| 0 <= j < n && j + 1 < |s| && s[j] == k && Under(s[j], s[j + 1]) {
      NeighbourDecides(keys, s, j);
    }
    if Conflicted(keys, k) && !Masked(keys, k) {
      var j :| 0 <= j < |s| && s[j] == k;
      NeighbourDecides(keys, s, j);
    }
  }

  // ---- what that means for keys in the grammar ----

  lemma {:induction false} GrammarCharacters(k: string, i: nat, starting: bool)
    requires i <= |k| && SegmentsFrom(k, i, starting)
    ensures forall j :: i <= j < |k| ==> k[j] == '-' || '.' <= k[j]
    decreases |k| - i
  {
    if i < |k| {
      GrammarCharacters(k, i + 1, !starting && k[i] == '.');
    }
  }

  /** Among keys of the grammar only a hyphen can mask, so the scan misses a conflict of k just when some key
      extends k with a hyphen; without hyphens it misses none. */
  lemma OnlyHyphensMask(keys: set<string>, k: string)
    requires forall m :: m in keys ==> IsIdentityKey(m)
    ensures Masked(keys, k) <==> exists m :: m in keys && k + "-" <= m
    ensures (forall m :: m in keys ==> '-' !in m) ==> !Masked(keys, k)
  {
    forall m | m in keys ensures forall j :: 0 <= j < |m| ==> m[j] == '-' || '.' <= m[j] {
      GrammarCharacters(m, 0, true);
    }
    if m :| m in keys && |k| < |m| && k <= m && m[|k|] < '.' {
      assert m[|k|] == '-' && '-' in m;
      assert m[..|k| + 1] == k + "-";
    }
    if m :| m in keys && k + "-" <= m {
      assert m[|k|] == '-' && '-' < '.' && k <= m;
    }
  }

  /** The masking is real: among "a", "a-b" and "a.b" the conflict of "a" and "a.b" goes unreported. */
  lemma HyphenHidesAConflict()
    ensures var keys := {"a", "a-b", "a.b"};
            && (forall k :: k in keys ==> IsIdentityKey(k))
            && Conflicted(keys, "a") && forall k :: Conflicted(keys, k) ==> Masked(keys, k)
  {
    var keys := {"a", "a-b", "a.b"};
    assert Under("a", "a.b");
    assert "a" <= "a-b" && "a-b"[1] == '-' && '-' < '.';
    forall k | Conflicted(keys, k)
      ensures Masked(keys, k)
    {
      var c :| c in keys && Under(k, c);
      assert |k| + 1 <= |c|;
      assert c[|k|] == '.';
      assert k == "a" by { assert c == "a.b" && |k| == 1; assert k[0] == c[0]; }
      assert "a-b" in keys;
    }
  }
}

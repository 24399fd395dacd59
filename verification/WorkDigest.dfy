/** The canonical digest of a round's contributions. */
module WorkDigest {
  import opened Optional
  import opened Orders

  datatype Contribution = Contribution(id: string, termsVersion: string, pool: string, source: string, round: string,
                                       member: string, offering: string, backend: string, amountWei: string)

  function IdOf(c: Contribution): string { c.id }

  /** The sorted copy is encoded and hashed, both injectively, so a digest is represented by what it was taken of. */
  type Digest = seq<Contribution>

  /** Any result the library sort may return; it need not be stable. */
  ghost predicate IsSortOf(entries: seq<Contribution>, items: seq<Contribution>) {
    multiset(items) == multiset(entries) && SortedBy(items, IdOf)
  }

  ghost predicate BadAt(items: seq<Contribution>, i: nat)
    requires i < |items|
  {
    items[i].id == "" || (i > 0 && items[i].id == items[i - 1].id)
  }

  ghost function Scanned(items: seq<Contribution>): Option<Digest> {
    if exists i :: 0 <= i < |items| && BadAt(items, i) then None else Some(items)
  }

  /** The scan of the sorted copy, entry by entry. */
  method TakeDigest(entries: seq<Contribution>) returns (digest: Option<Digest>)
    ensures exists items :: IsSortOf(entries, items) && digest == Scanned(items)
    ensures digest == DigestOf(entries)
  {
    var items := Sort(entries, IdOf);
    SortSorts(entries, IdOf);
    assert IsSortOf(entries, items);
    var i := 0;
    while i < |items|
      invariant 0 <= i <= |items|
      invariant forall j :: 0 <= j < i ==> !BadAt(items, j)
    {
      if items[i].id == "" || (i > 0 && items[i].id == items[i - 1].id) {
        assert BadAt(items, i);
        ScanDecides(entries, items);
        return None;
      }
      i := i + 1;
    }
    digest := Some(items);
    ScanDecides(entries, items);
  }

  // ---- what the digest depends on ----

  /** Some identity is missing or repeated. */
  ghost predicate BadIds(entries: seq<Contribution>) {
    (exists c :: c in entries && c.id == "") || !DistinctBy(entries, IdOf)
  }

  lemma BadIsAboutTheBag(s: seq<Contribution>, t: seq<Contribution>)
    requires multiset(s) == multiset(t)
    ensures BadIds(s) <==> BadIds(t)
  {
    forall c ensures c in s <==> c in t { assert c in multiset(s) <==> c in multiset(t); }
    if DistinctBy(s, IdOf) { DistinctOfBag(s, t, IdOf); }
    if DistinctBy(t, IdOf) { DistinctOfBag(t, s, IdOf); }
  }

  /** In a sorted list equal identities are neighbours, so the scan finds them. */
  lemma NeighboursSuffice(items: seq<Contribution>)
    requires SortedBy(items, IdOf)
    ensures BadIds(items) <==> exists i :: 0 <= i < |items| && BadAt(items, i)
  {
    if i, j :| 0 <= i < j < |items| && IdOf(items[i]) == IdOf(items[j]) {
      assert AtMost(IdOf(items[i]), IdOf(items[i + 1])) && (i + 1 < j ==> AtMost(IdOf(items[i + 1]), IdOf(items[j])));
      LessIsTotal(items[i].id, items[i + 1].id);
      LessIsTotal(items[i + 1].id, items[j].id);
      assert BadAt(items, i + 1);
    }
    if c :| c in items && c.id == "" {
      var i :| 0 <= i < |items| && items[i] == c;
      assert BadAt(items, i);
    }
    if i :| 0 <= i < |items| && BadAt(items, i) && items[i].id != "" {
      assert IdOf(items[i - 1]) == IdOf(items[i]);
    }
  }

  /** The digest as a function of the list, whichever sort is used. */
  ghost function DigestOf(entries: seq<Contribution>): Option<Digest> {
    if BadIds(entries) then None else Some(Sort(entries, IdOf))
  }

  /** Every sort leads to the same digest: none when an identity is missing or repeated, else the one strictly
      sorted listing of the contributions. */
  lemma ScanDecides(entries: seq<Contribution>, items: seq<Contribution>)
    requires IsSortOf(entries, items)
    ensures Scanned(items) == DigestOf(entries)
  {
    BadIsAboutTheBag(entries, items);
    NeighboursSuffice(items);
    if !BadIds(entries) {
      BadIsAboutTheBag(entries, Sort(entries, IdOf));
      SortSorts(entries, IdOf);
      GoodIsStrict(items);
      GoodIsStrict(Sort(entries, IdOf));
      StrictSortIsUnique(items, Sort(entries, IdOf), IdOf);
    }
  }

  lemma GoodIsStrict(items: seq<Contribution>)
    requires SortedBy(items, IdOf) && !BadIds(items)
    ensures StrictlySortedBy(items, IdOf)
  {
    DistinctSortsStrictly(items, IdOf);
  }

  /** The digest fails just when an identity is missing or repeated, and two accepted lists share a digest exactly
      when they hold the same contributions; in particular the order of the list does not matter. */
  lemma DigestIdentifiesTheBag(entries: seq<Contribution>, others: seq<Contribution>)
    ensures DigestOf(entries) == None <==> BadIds(entries)
    ensures multiset(entries) == multiset(others) ==> DigestOf(entries) == DigestOf(others)
    ensures DigestOf(entries) != None && DigestOf(entries) == DigestOf(others) ==> multiset(entries) == multiset(others)
  {
    if multiset(entries) == multiset(others) {
      BadIsAboutTheBag(entries, others);
      SortSorts(others, IdOf);
      if !BadIds(entries) {
        ScanDecides(entries, Sort(others, IdOf));
        ScanDecides(others, Sort(others, IdOf));
      }
    }
  }
}

/** The promises of the combined view, over every list of regions. */
module CombineResults {
  import opened Optional
  import opened Sums
  import opened Decimals
  import opened Orders
  import opened MemberReport
  import opened CombineReports
  import opened CombineLaws

  /** The finished group of one period. */
  ghost function GroupFor(regions: seq<Region>, p: Period): Aggregate {
    Finish(GroupOf(For(Items(regions), p), p), PoolsOf(regions))
  }

  predicate Occurs(regions: seq<Region>, p: Period) { For(Items(regions), p) != [] }

  // ---- which groups come out ----

  ghost predicate AllKnown(groups: map<string, Aggregate>, keys: seq<string>) {
    forall i :: 0 <= i < |keys| ==> keys[i] in groups
  }

  lemma {:induction false} FinishedLength(groups: map<string, Aggregate>, keys: seq<string>, pools: set<string>)
    requires AllKnown(groups, keys)
    ensures |FinishKeys(groups, keys, pools)| == |keys|
    decreases |keys|
  {
    if keys != [] {
      var n := |keys| - 1;
      assert keys[..n + 1] == keys;
      FinishNext(groups, keys, n, pools);
      FinishedLength(groups, keys[..n], pools);
    }
  }

  lemma {:induction false} FinishedPrefix(groups: map<string, Aggregate>, keys: seq<string>, pools: set<string>, n: nat)
    requires n <= |keys|
    ensures FinishKeys(groups, keys[..n], pools) <= FinishKeys(groups, keys, pools)
    decreases |keys|
  {
    if n == |keys| {
      assert keys[..n] == keys;
    } else {
      var rest := keys[..|keys| - 1];
      assert rest[..n] == keys[..n];
      FinishedPrefix(groups, rest, pools, n);
    }
  }

  lemma FinishedMember(groups: map<string, Aggregate>, keys: seq<string>, pools: set<string>, i: nat)
    requires AllKnown(groups, keys) && i < |keys|
    ensures |FinishKeys(groups, keys, pools)| == |keys|
    ensures FinishKeys(groups, keys, pools)[i] == Finish(groups[keys[i]], pools)
  {
    FinishedLength(groups, keys, pools);
    FinishedLength(groups, keys[..i], pools);
    FinishNext(groups, keys, i, pools);
    FinishedPrefix(groups, keys, pools, i + 1);
  }

  /** g is the exact group of the period its key was made of. */
  ghost predicate IsGroupOf(regions: seq<Region>, key: string, g: Aggregate) {
    Occurs(regions, g.period) && key == GroupKey(g.period) && g == GroupFor(regions, g.period)
  }

  lemma GroupAtKey(regions: seq<Region>, key: string)
    requires key in AddAll(Items(regions))
    ensures IsGroupOf(regions, key, Finish(AddAll(Items(regions))[key], PoolsOf(regions)))
  {
    var p := KeysComeFromPeriods(Items(regions), key);
    GroupsAreExact(Items(regions), p);
  }

  ghost predicate KeyedOutput(regions: seq<Region>, keys: seq<string>, out: seq<Aggregate>) {
    |out| == |keys| && forall i :: 0 <= i < |keys| ==> IsGroupOf(regions, keys[i], out[i])
  }

  lemma OutputIsKeyed(regions: seq<Region>)
    requires Accepted(regions)
    ensures KeyedOutput(regions, Listing(AddAll(Items(regions)).Keys), Combined(regions).value)
  {
    var groups := AddAll(Items(regions));
    var keys, out := Listing(groups.Keys), Combined(regions).value;
    ListingIsSorted(groups.Keys);
    forall i | 0 <= i < |keys| ensures keys[i] in groups { assert keys[i] in keys; }
    FinishedLength(groups, keys, PoolsOf(regions));
    forall i | 0 <= i < |keys|
      ensures IsGroupOf(regions, keys[i], out[i])
    {
      FinishedMember(groups, keys, PoolsOf(regions), i);
      GroupAtKey(regions, keys[i]);
    }
  }

  lemma OccurringPeriodIsOut(regions: seq<Region>, keys: seq<string>, out: seq<Aggregate>, p: Period)
    requires KeyedOutput(regions, keys, out) && GroupKey(p) in keys
    ensures GroupFor(regions, p) in out
  {
    var i :| 0 <= i < |keys| && keys[i] == GroupKey(p);
    assert IsGroupOf(regions, keys[i], out[i]);
    KeysAreInjective(out[i].period, p);
  }

  ghost predicate OutputIsExact(regions: seq<Region>, out: seq<Aggregate>) {
    forall i :: 0 <= i < |out| ==> IsGroupOf(regions, GroupKey(out[i].period), out[i])
  }

  ghost predicate OutputIsWhole(regions: seq<Region>, out: seq<Aggregate>) {
    forall p :: Occurs(regions, p) ==> GroupFor(regions, p) in out
  }

  lemma KeyedOutputIsExact(regions: seq<Region>, keys: seq<string>, out: seq<Aggregate>)
    requires KeyedOutput(regions, keys, out)
    ensures OutputIsExact(regions, out)
  {
    forall i | 0 <= i < |out| ensures IsGroupOf(regions, GroupKey(out[i].period), out[i]) {
      assert IsGroupOf(regions, keys[i], out[i]);
    }
  }

  lemma KeyedOutputIsSorted(regions: seq<Region>, keys: seq<string>, out: seq<Aggregate>)
    requires KeyedOutput(regions, keys, out) && StrictlySortedBy(keys, Itself)
    ensures StrictlySortedBy(out, GroupKeyOf)
  {
    forall i, j | 0 <= i < j < |out| ensures Less(GroupKeyOf(out[i]), GroupKeyOf(out[j])) {
      assert IsGroupOf(regions, keys[i], out[i]) && IsGroupOf(regions, keys[j], out[j]);
      assert Less(Itself(keys[i]), Itself(keys[j]));
    }
  }

  lemma KeyedOutputIsWhole(regions: seq<Region>, out: seq<Aggregate>)
    requires KeyedOutput(regions, Listing(AddAll(Items(regions)).Keys), out)
    ensures OutputIsWhole(regions, out)
  {
    ListingIsSorted(AddAll(Items(regions)).Keys);
    forall p | Occurs(regions, p) ensures GroupFor(regions, p) in out {
      GroupsAreExact(Items(regions), p);
      OccurringPeriodIsOut(regions, Listing(AddAll(Items(regions)).Keys), out, p);
    }
  }

  function GroupKeyOf(g: Aggregate): string { GroupKey(g.period) }

  /** Exactly one group per period that occurs, in the order of the period keys, each the exact group of its period. */
  lemma GroupsOfExactlyThePeriods(regions: seq<Region>)
    requires Accepted(regions)
    ensures var out := Combined(regions).value;
            OutputIsExact(regions, out) && OutputIsWhole(regions, out) && StrictlySortedBy(out, GroupKeyOf)
  {
    var keys, out := Listing(AddAll(Items(regions)).Keys), Combined(regions).value;
    OutputIsKeyed(regions);
    KeyedOutputIsExact(regions, keys, out);
    KeyedOutputIsWhole(regions, out);
    KeyedOutputIsSorted(regions, keys, out) by { ListingIsSorted(AddAll(Items(regions)).Keys); }
  }

  // ---- what each group says ----

  lemma {:induction false} TotalsConserve(items: seq<Item>)
    requires forall it :: it in items ==> AmountsOk(it.window)
    ensures Total(items, EarnedOf) == Total(items, AwaitingOf) + Total(items, PendingOf) + Total(items, PaidOf)
    decreases |items|
  {
    if items != [] {
      assert items[|items| - 1] in items;
      TotalsConserve(items[..|items| - 1]);
    }
  }

  lemma AcceptedItemsAreSound(regions: seq<Region>, p: Period, it: Item)
    requires Accepted(regions) && it in For(Items(regions), p)
    ensures AmountsOk(it.window)
  {
    AcceptedRegions(regions);
    ForIsAFilter(Items(regions), p, it);
    ItemsComeFromRegions(regions, it);
    var r :| r in regions && Reported(r, it);
    assert RegionOk(r);
    var i :| 0 <= i < |r.report.value.windows| && r.report.value.windows[i] == it.window;
    assert WindowOk(r.report.value.windows[i], r.pool);
  }

  /** In every group each amount is exactly the sum over the period's windows, and what was earned is conserved over
      the categories. */
  lemma EveryGroupConserves(regions: seq<Region>, p: Period)
    requires Accepted(regions)
    ensures var g, items := GroupFor(regions, p), For(Items(regions), p);
            && Number(g.earned) == Some(Total(items, EarnedOf)) && Number(g.awaiting) == Some(Total(items, AwaitingOf))
            && Number(g.pending) == Some(Total(items, PendingOf)) && Number(g.paid) == Some(Total(items, PaidOf))
            && Wei(g.earned) == Wei(g.awaiting) + Wei(g.pending) + Wei(g.paid)
  {
    PeriodConserves(regions, p);
    GroupAmounts(For(Items(regions), p), p);
  }

  lemma PeriodConserves(regions: seq<Region>, p: Period)
    requires Accepted(regions)
    ensures var items := For(Items(regions), p);
            Total(items, EarnedOf) == Total(items, AwaitingOf) + Total(items, PendingOf) + Total(items, PaidOf)
  {
    var items := For(Items(regions), p);
    forall it | it in items ensures AmountsOk(it.window) { AcceptedItemsAreSound(regions, p, it); }
    TotalsConserve(items);
  }

  lemma GroupAmounts(items: seq<Item>, p: Period)
    ensures var g := GroupOf(items, p);
            && Number(g.earned) == Some(Total(items, EarnedOf)) && Number(g.awaiting) == Some(Total(items, AwaitingOf))
            && Number(g.pending) == Some(Total(items, PendingOf)) && Number(g.paid) == Some(Total(items, PaidOf))
  {
    NumberInvertsRender(Render(Total(items, EarnedOf)), Total(items, EarnedOf));
    NumberInvertsRender(Render(Total(items, AwaitingOf)), Total(items, AwaitingOf));
    NumberInvertsRender(Render(Total(items, PendingOf)), Total(items, PendingOf));
    NumberInvertsRender(Render(Total(items, PaidOf)), Total(items, PaidOf));
  }

  ghost predicate ReportsPeriod(r: Region, p: Period) {
    r.report != None && exists w :: w in r.report.value.windows && w.period == p
  }

  lemma {:induction false} ContributionMembers(items: seq<Item>, c: Contribution)
    ensures c in Contributions(items) <==> exists it :: it in items && ContributionOf(it) == c
    decreases |items|
  {
    if items != [] {
      var before, last := items[..|items| - 1], items[|items| - 1];
      assert items == before + [last];
      ContributionMembers(before, c);
      if it :| it in before && ContributionOf(it) == c { assert it in items; }
    }
  }

  /** A pool is present in a group exactly when its region reported that period. */
  lemma PresentPools(regions: seq<Region>, p: Period, r: Region)
    requires Accepted(regions) && r in regions
    ensures r.pool in Present(GroupOf(For(Items(regions), p), p)) <==> ReportsPeriod(r, p)
  {
    var items := For(Items(regions), p);
    var g := GroupOf(items, p);
    AcceptedRegions(regions);
    if r.pool in Present(g) {
      var c :| c in g.sources && c.pool == r.pool;
      ContributionMembers(items, c);
      var it :| it in items && ContributionOf(it) == c;
      ForIsAFilter(Items(regions), p, it);
      ItemsComeFromRegions(regions, it);
      var s :| s in regions && Reported(s, it);
      PoolIsOneRegion(regions, r, s);
    }
    if ReportsPeriod(r, p) {
      var w :| w in r.report.value.windows && w.period == p;
      var it := Item(r.pool, r.status, w);
      assert Reported(r, it);
      ItemsComeFromRegions(regions, it);
      ForIsAFilter(Items(regions), p, it);
      ContributionMembers(items, ContributionOf(it));
    }
  }

  /** Every contribution of the period is fresh exactly when every region that reported it is. */
  lemma FreshGroup(regions: seq<Region>, p: Period)
    requires Accepted(regions)
    ensures AllFresh(For(Items(regions), p)) <==> forall r :: r in regions && ReportsPeriod(r, p) ==> r.status == FRESH
  {
    var items := For(Items(regions), p);
    forall r | r in regions && ReportsPeriod(r, p)
      ensures exists it :: it in items && it.status == r.status
    {
      var w :| w in r.report.value.windows && w.period == p;
      var it := Item(r.pool, r.status, w);
      assert Reported(r, it);
      ItemsComeFromRegions(regions, it);
      ForIsAFilter(Items(regions), p, it);
    }
    forall it | it in items
      ensures exists r :: r in regions && ReportsPeriod(r, p) && r.status == it.status
    {
      ForIsAFilter(Items(regions), p, it);
      ItemsComeFromRegions(regions, it);
    }
  }

  /** A group is complete exactly when every listed pool is fresh and reported that very period; its missing pools
      are exactly the listed ones that did not. */
  lemma CompleteMeansEveryPool(regions: seq<Region>, p: Period)
    requires Accepted(regions)
    ensures var g := GroupFor(regions, p);
            && (g.complete <==> forall r :: r in regions ==> r.status == FRESH && ReportsPeriod(r, p))
            && (forall r :: r in regions ==> (r.pool in g.missing <==> !ReportsPeriod(r, p)))
            && (forall pool :: pool in g.missing ==> pool in PoolsOf(regions))
  {
    var g0, pools := GroupOf(For(Items(regions), p), p), PoolsOf(regions);
    forall r | r in regions ensures r.pool in pools && (r.pool in Present(g0) <==> ReportsPeriod(r, p)) {
      PresentPools(regions, p, r);
    }
    FreshGroup(regions, p);
    ListingIsSorted(pools - Present(g0));
  }

  // ---- every window once ----

  /** Each window is a source of the group of its own period, exactly once, and of no other. */
  lemma EveryWindowIsCountedOnce(regions: seq<Region>, r: Region, w: Window, p: Period)
    requires Accepted(regions) && r in regions && r.report != None && w in r.report.value.windows
    ensures multiset(GroupFor(regions, p).sources)[Contribution(r.pool, w.id, r.status)]
            == if p == w.period then 1 else 0
  {
    var items, c := For(Items(regions), p), Contribution(r.pool, w.id, r.status);
    EachPoolOnce(regions, p);
    StrictSources(items);
    StrictHasOne(Sort(Contributions(items), PoolOf), c, PoolOf);
    assert c in Sort(Contributions(items), PoolOf) <==> c in multiset(Contributions(items));
    WindowIsASource(regions, r, w, p);
  }

  lemma WindowIsASource(regions: seq<Region>, r: Region, w: Window, p: Period)
    requires Accepted(regions) && r in regions && r.report != None && w in r.report.value.windows
    ensures Contribution(r.pool, w.id, r.status) in Contributions(For(Items(regions), p)) <==> p == w.period
  {
    var items, c := For(Items(regions), p), Contribution(r.pool, w.id, r.status);
    ContributionMembers(items, c);
    AcceptedRegions(regions);
    if p == w.period {
      var it := Item(r.pool, r.status, w);
      assert Reported(r, it);
      ItemsComeFromRegions(regions, it);
      ForIsAFilter(Items(regions), p, it);
    } else if it :| it in items && ContributionOf(it) == c {
      ForIsAFilter(Items(regions), p, it);
      ItemsComeFromRegions(regions, it);
      var s :| s in regions && Reported(s, it);
      PoolIsOneRegion(regions, r, s);
      assert RegionOk(r);
      SameIdSameWindow(r.report.value.windows, w, it.window);
    }
  }

  lemma SameIdSameWindow(ws: seq<Window>, v: Window, w: Window)
    requires DistinctWindows(ws) && v in ws && w in ws && v.id == w.id
    ensures v == w
  {
    var i :| 0 <= i < |ws| && ws[i] == v;
    var j :| 0 <= j < |ws| && ws[j] == w;
  }

  // ---- the order of the regions ----

  ghost function CountIn(it: Item): Region -> nat { r => multiset(ItemsOf(r))[it] }

  lemma {:induction false} ItemsCount(regions: seq<Region>, it: Item)
    ensures multiset(Items(regions))[it] == Total(regions, CountIn(it))
    decreases |regions|
  {
    if regions != [] {
      ItemsCount(regions[..|regions| - 1], it);
    }
  }

  lemma SameRegionsSameItems(regions: seq<Region>, others: seq<Region>)
    requires multiset(regions) == multiset(others)
    ensures multiset(Items(regions)) == multiset(Items(others)) && PoolsOf(regions) == PoolsOf(others)
  {
    forall it ensures multiset(Items(regions))[it] == multiset(Items(others))[it] {
      ItemsCount(regions, it);
      ItemsCount(others, it);
      TotalOfBag(regions, others, CountIn(it));
    }
    forall r ensures r in regions <==> r in others { assert r in multiset(regions) <==> r in multiset(others); }
  }

  ghost function IsContribution(c: Contribution): Item -> nat { it => if ContributionOf(it) == c then 1 else 0 }

  lemma {:induction false} ContributionCount(items: seq<Item>, c: Contribution)
    ensures multiset(Contributions(items))[c] == Total(items, IsContribution(c))
    decreases |items|
  {
    if items != [] {
      ContributionCount(items[..|items| - 1], c);
    }
  }

  lemma {:induction false} ContributionsKeepPools(items: seq<Item>)
    ensures |Contributions(items)| == |items|
    ensures forall i :: 0 <= i < |items| ==> PoolOf(Contributions(items)[i]) == ItemPool(items[i])
    decreases |items|
  {
    if items != [] {
      ContributionsKeepPools(items[..|items| - 1]);
    }
  }

  lemma SortedSourcesOfBag(items: seq<Item>, others: seq<Item>)
    requires multiset(items) == multiset(others) && DistinctBy(items, ItemPool)
    ensures Sort(Contributions(items), PoolOf) == Sort(Contributions(others), PoolOf)
  {
    DistinctOfBag(items, others, ItemPool);
    forall c ensures multiset(Contributions(items))[c] == multiset(Contributions(others))[c] {
      ContributionCount(items, c);
      ContributionCount(others, c);
      TotalOfBag(items, others, IsContribution(c));
    }
    StrictSources(items);
    StrictSources(others);
    StrictSortIsUnique(Sort(Contributions(items), PoolOf), Sort(Contributions(others), PoolOf), PoolOf);
  }

  /** Distinct pools make the sorted sources strictly sorted. */
  lemma StrictSources(items: seq<Item>)
    requires DistinctBy(items, ItemPool)
    ensures StrictlySortedBy(Sort(Contributions(items), PoolOf), PoolOf)
  {
    var cs := Contributions(items);
    ContributionsKeepPools(items);
    forall i, j | 0 <= i < j < |cs|
      ensures PoolOf(cs[i]) != PoolOf(cs[j])
    {
      assert ItemPool(items[i]) != ItemPool(items[j]);
    }
    SortSorts(cs, PoolOf);
    DistinctOfBag(cs, Sort(cs, PoolOf), PoolOf);
    DistinctSortsStrictly(Sort(cs, PoolOf), PoolOf);
  }

  lemma GroupOfBag(items: seq<Item>, others: seq<Item>, p: Period, pools: set<string>)
    requires multiset(items) == multiset(others) && DistinctBy(items, ItemPool)
    ensures Finish(GroupOf(items, p), pools) == Finish(GroupOf(others, p), pools)
  {
    SortedSourcesOfBag(items, others);
    TotalOfBag(items, others, EarnedOf);
    TotalOfBag(items, others, AwaitingOf);
    TotalOfBag(items, others, PendingOf);
    TotalOfBag(items, others, PaidOf);
    forall it ensures it in items <==> it in others { assert it in multiset(items) <==> it in multiset(others); }
    SameMembersSamePools(items, others, p);
  }

  lemma SameMembersSamePools(items: seq<Item>, others: seq<Item>, p: Period)
    requires forall it :: it in items <==> it in others
    ensures Present(GroupOf(items, p)) == Present(GroupOf(others, p)) && (AllFresh(items) <==> AllFresh(others))
  {
    forall c ensures c in Contributions(items) <==> c in Contributions(others) {
      ContributionMembers(items, c);
      ContributionMembers(others, c);
    }
  }

  lemma SameGroupFor(regions: seq<Region>, others: seq<Region>, p: Period)
    requires Accepted(regions) && multiset(regions) == multiset(others)
    ensures GroupFor(regions, p) == GroupFor(others, p) && (Occurs(regions, p) <==> Occurs(others, p))
  {
    SameRegionsSameItems(regions, others);
    var items, items' := For(Items(regions), p), For(Items(others), p);
    forall it ensures multiset(items)[it] == multiset(items')[it] {
      ForIsAFilter(Items(regions), p, it);
      ForIsAFilter(Items(others), p, it);
    }
    assert multiset(items) == multiset(items');
    assert |multiset(items)| == |items| && |multiset(items')| == |items'|;
    EachPoolOnce(regions, p);
    GroupOfBag(items, items', p, PoolsOf(regions));
  }

  lemma OutputMembers(regions: seq<Region>, g: Aggregate)
    requires Accepted(regions)
    ensures g in Combined(regions).value <==> Occurs(regions, g.period) && g == GroupFor(regions, g.period)
  {
    GroupsOfExactlyThePeriods(regions);
    var out := Combined(regions).value;
    if g in out {
      var i :| 0 <= i < |out| && out[i] == g;
      assert IsGroupOf(regions, GroupKey(out[i].period), out[i]);
    }
  }

  /** Any two accepted orders of the same regions combine to the same result. */
  lemma OrderDoesNotMatter(regions: seq<Region>, others: seq<Region>)
    requires Accepted(regions) && Accepted(others) && multiset(regions) == multiset(others)
    ensures Combined(regions) == Combined(others)
  {
    var out, out' := Combined(regions).value, Combined(others).value;
    forall g ensures g in out <==> g in out' {
      OutputMembers(regions, g);
      OutputMembers(others, g);
      SameGroupFor(regions, others, g.period);
    }
    GroupsOfExactlyThePeriods(regions);
    GroupsOfExactlyThePeriods(others);
    SameMembersSameBag(out, out');
    StrictSortIsUnique(out, out', GroupKeyOf);
  }

  lemma SameMembersSameBag(s: seq<Aggregate>, t: seq<Aggregate>)
    requires StrictlySortedBy(s, GroupKeyOf) && StrictlySortedBy(t, GroupKeyOf) && forall g :: g in s <==> g in t
    ensures multiset(s) == multiset(t)
  {
    forall g ensures multiset(s)[g] == multiset(t)[g] {
      StrictHasOne(s, g, GroupKeyOf);
      StrictHasOne(t, g, GroupKeyOf);
    }
  }

  lemma StrictHasOne<T>(s: seq<T>, x: T, key: T -> string)
    requires StrictlySortedBy(s, key)
    ensures multiset(s)[x] == if x in s then 1 else 0
  {
    if multiset(s)[x] >= 2 {
      var i, j := Repeats(s, x);
      LessIsTotal(key(s[i]), key(s[j]));
    }
    assert x in s <==> x in multiset(s);
  }

  // ---- when every order is accepted ----

  /** Once a wallet is named, every later report names it too; empty wallets may only come before. */
  ghost predicate WalletsInOrder(regions: seq<Region>) {
    forall i, j :: 0 <= i < j < |regions| && regions[i].report != None && regions[j].report != None ==>
                     || regions[i].report.value.wallet == ""
                     || regions[j].report.value.wallet == regions[i].report.value.wallet
  }

  lemma {:induction false} WalletHeld(regions: seq<Region>)
    ensures WalletAfter(regions) == "" ==> forall r :: r in regions && r.report != None ==> r.report.value.wallet == ""
    ensures WalletAfter(regions) != "" ==>
              exists r :: r in regions && r.report != None && r.report.value.wallet == WalletAfter(regions)
    decreases |regions|
  {
    if regions != [] {
      var before, last := regions[..|regions| - 1], regions[|regions| - 1];
      assert regions == before + [last] && last in regions;
      WalletHeld(before);
      if r :| r in before && r.report != None && r.report.value.wallet == WalletAfter(before) {
        assert r in regions;
      }
    }
  }

  /** Acceptance said outright: sound regions, distinct pools, wallets in order. */
  lemma {:induction false} AcceptedMeans(regions: seq<Region>)
    ensures Accepted(regions) <==> AllRegionsOk(regions) && DistinctBy(regions, RegionPool) && WalletsInOrder(regions)
    decreases |regions|
  {
    if regions != [] {
      var before, last := regions[..|regions| - 1], regions[|regions| - 1];
      assert regions == before + [last];
      AcceptedMeans(before);
      assert AllRegionsOk(regions) <==> AllRegionsOk(before) && RegionOk(last) by {
        assert last in regions && forall r :: r in before ==> r in regions;
      }
      LastPool(regions);
      LastWallet(regions);
    }
  }

  lemma LastPool(regions: seq<Region>)
    requires regions != []
    ensures var before, last := regions[..|regions| - 1], regions[|regions| - 1];
            DistinctBy(regions, RegionPool) <==> DistinctBy(before, RegionPool) && last.pool !in PoolsOf(before)
  {
    var n := |regions| - 1;
    var before, last := regions[..n], regions[n];
    if DistinctBy(regions, RegionPool) {
      forall i, j | 0 <= i < j < n
        ensures RegionPool(before[i]) != RegionPool(before[j])
      {
        assert RegionPool(regions[i]) != RegionPool(regions[j]);
      }
      forall r | r in before ensures r.pool != last.pool {
        var i :| 0 <= i < n && before[i] == r;
        assert RegionPool(regions[i]) != RegionPool(regions[n]);
      }
    }
    if DistinctBy(before, RegionPool) && last.pool !in PoolsOf(before) {
      forall i, j | 0 <= i < j < |regions| ensures RegionPool(regions[i]) != RegionPool(regions[j]) {
        assert before[i] in before && (j < n ==> RegionPool(before[i]) != RegionPool(before[j]));
      }
    }
  }

  lemma LastWallet(regions: seq<Region>)
    requires regions != []
    ensures var before, last := regions[..|regions| - 1], regions[|regions| - 1];
            WalletsInOrder(regions) <==> WalletsInOrder(before) && WalletFits(WalletAfter(before), last)
  {
    var n := |regions| - 1;
    var before, last := regions[..n], regions[n];
    WalletHeld(before);
    if WalletsInOrder(regions) {
      forall i, j | 0 <= i < j < n && before[i].report != None && before[j].report != None
          && before[i].report.value.wallet != ""
        ensures before[j].report.value.wallet == before[i].report.value.wallet
      {
        assert before[i] == regions[i] && before[j] == regions[j];
      }
      if last.report != None && WalletAfter(before) != "" {
        var r :| r in before && r.report != None && r.report.value.wallet == WalletAfter(before);
        var i :| 0 <= i < n && before[i] == r;
        assert regions[i] == r;
      }
    }
    if WalletsInOrder(before) && WalletFits(WalletAfter(before), last) {
      forall i, j | 0 <= i < j < |regions| && regions[i].report != None && regions[j].report != None
          && regions[i].report.value.wallet != ""
        ensures regions[j].report.value.wallet == regions[i].report.value.wallet
      {
        assert before[i] == regions[i] && before[i] in before;
        if j == n {
          var r :| r in before && r.report != None && r.report.value.wallet == WalletAfter(before);
          var k :| 0 <= k < n && before[k] == r;
          assert k < i || i < k || k == i;
        } else {
          assert before[j] == regions[j];
        }
      }
    }
  }

  /** Some report names no wallet and another names one. */
  ghost predicate MixedWallets(regions: seq<Region>) {
    exists r, s :: r in regions && s in regions && r.report != None && s.report != None
                   && r.report.value.wallet == "" && s.report.value.wallet != ""
  }

  lemma UnmixedReordering(regions: seq<Region>, others: seq<Region>)
    requires multiset(regions) == multiset(others) && Accepted(regions) && !MixedWallets(regions)
    ensures Accepted(others)
  {
    AcceptedMeans(regions);
    AcceptedMeans(others);
    forall r ensures r in regions <==> r in others { assert r in multiset(regions) <==> r in multiset(others); }
    DistinctOfBag(regions, others, RegionPool);
    forall i, j | 0 <= i < j < |others| && others[i].report != None && others[j].report != None
        && others[i].report.value.wallet != ""
      ensures others[j].report.value.wallet == others[i].report.value.wallet
    {
      assert others[i] in others && others[j] in others;
      var a, b :| 0 <= a < |regions| && 0 <= b < |regions| && regions[a] == others[i] && regions[b] == others[j];
      assert a < b || b < a || a == b;
    }
  }

  /** Unless empty and non-empty wallets are mixed, the order of the regions changes nothing, refusal included. */
  lemma OrderIsIrrelevant(regions: seq<Region>, others: seq<Region>)
    requires multiset(regions) == multiset(others) && !MixedWallets(regions)
    ensures Combined(regions) == Combined(others)
  {
    forall r ensures r in regions <==> r in others { assert r in multiset(regions) <==> r in multiset(others); }
    assert !MixedWallets(others);
    if Accepted(regions) {
      UnmixedReordering(regions, others);
      OrderDoesNotMatter(regions, others);
    } else if Accepted(others) {
      UnmixedReordering(others, regions);
    }
  }

  /** A list with mixed wallets is refused in some order. */
  lemma MixedWalletsAreRefusedInSomeOrder(regions: seq<Region>) returns (others: seq<Region>)
    requires MixedWallets(regions)
    ensures multiset(others) == multiset(regions) && Combined(others) == None
  {
    var r, s :| r in regions && s in regions && r.report != None && s.report != None
                && r.report.value.wallet == "" && s.report.value.wallet != "";
    others := MoveToFront(regions, s);
    assert r in others by { assert r in multiset(regions); }
    var j :| 0 <= j < |others| && others[j] == r;
    AcceptedMeans(others);
    assert !WalletsInOrder(others);
  }

  /** Every order of these regions combines to what this one does. */
  ghost predicate EveryOrderAgrees(regions: seq<Region>) {
    forall others :: multiset(others) == multiset(regions) ==> Combined(others) == Combined(regions)
  }

  ghost predicate OneWallet(regions: seq<Region>) {
    forall r, s :: r in regions && s in regions && Names(r) && Names(s) ==>
          r.report.value.wallet == s.report.value.wallet
  }

  /** The region's report names a wallet. */
  predicate Names(r: Region) { r.report != None && r.report.value.wallet != "" }

  /** Sound regions of distinct pools that name at most one wallet. */
  ghost predicate Combinable(regions: seq<Region>) {
    AllRegionsOk(regions) && DistinctBy(regions, RegionPool) && OneWallet(regions)
  }

  lemma AcceptedIsCombinable(regions: seq<Region>)
    requires Accepted(regions)
    ensures Combinable(regions)
  {
    AcceptedMeans(regions);
    forall r, s | r in regions && s in regions && Names(r) && Names(s)
      ensures r.report.value.wallet == s.report.value.wallet
    {
      var i :| 0 <= i < |regions| && regions[i] == r;
      var j :| 0 <= j < |regions| && regions[j] == s;
      assert i < j || j < i || i == j;
    }
  }

  lemma CombinableIsAboutTheBag(regions: seq<Region>, others: seq<Region>)
    requires multiset(regions) == multiset(others) && Combinable(regions)
    ensures Combinable(others)
  {
    forall r ensures r in regions <==> r in others { assert r in multiset(regions) <==> r in multiset(others); }
    DistinctOfBag(regions, others, RegionPool);
  }

  function Naming(regions: seq<Region>, naming: bool): seq<Region> {
    if regions == [] then []
    else
      var earlier, last := Naming(regions[..|regions| - 1], naming), regions[|regions| - 1];
      if Names(last) == naming then earlier + [last] else earlier
  }

  lemma {:induction false} NamingSplits(regions: seq<Region>)
    ensures multiset(Naming(regions, false)) + multiset(Naming(regions, true)) == multiset(regions)
    ensures forall r :: (r in Naming(regions, false) ==> !Names(r)) && (r in Naming(regions, true) ==> Names(r))
    decreases |regions|
  {
    if regions != [] {
      assert regions == regions[..|regions| - 1] + [regions[|regions| - 1]];
      NamingSplits(regions[..|regions| - 1]);
    }
  }

  /** With the regions that name no wallet first, combinable regions are accepted. */
  lemma NamelessFirstIsAccepted(regions: seq<Region>) returns (others: seq<Region>)
    requires Combinable(regions)
    ensures multiset(others) == multiset(regions) && Accepted(others)
  {
    var first, then' := Naming(regions, false), Naming(regions, true);
    others := first + then';
    NamingSplits(regions);
    CombinableIsAboutTheBag(regions, others);
    forall i, j | 0 <= i < j < |others|
      ensures others[i].report != None && others[j].report != None ==>
                others[i].report.value.wallet == "" || others[j].report.value.wallet == others[i].report.value.wallet
    {
      if i < |first| {
        assert others[i] in first;
      } else {
        assert others[i] == then'[i - |first|] && others[j] == then'[j - |first|];
        assert others[i] in then' && others[j] in then' && others[i] in others && others[j] in others;
      }
    }
    AcceptedMeans(others);
  }

  /** The order of the regions matters exactly when they could be combined at all and mix empty with non-empty
      wallets. */
  lemma OrderMattersExactlyWhenMixed(regions: seq<Region>)
    ensures EveryOrderAgrees(regions) <==> !(Combinable(regions) && MixedWallets(regions))
  {
    if Combinable(regions) && MixedWallets(regions) {
      var accepted := NamelessFirstIsAccepted(regions);
      var refused := MixedWalletsAreRefusedInSomeOrder(regions);
      assert Combined(accepted) != Combined(refused);
    } else {
      forall others | multiset(others) == multiset(regions) ensures Combined(others) == Combined(regions) {
        if MixedWallets(regions) {
          RefusedInEveryOrder(regions, regions);
          RefusedInEveryOrder(regions, others);
        } else {
          OrderIsIrrelevant(regions, others);
        }
      }
    }
  }

  lemma RefusedInEveryOrder(regions: seq<Region>, others: seq<Region>)
    requires !Combinable(regions) && multiset(others) == multiset(regions)
    ensures !Accepted(others)
  {
    if Accepted(others) {
      AcceptedIsCombinable(others);
      CombinableIsAboutTheBag(others, regions);
    }
  }

  /** In particular an accepted list combines alike in every order exactly when it does not mix them. */
  lemma AcceptedOrderMattersOnlyWhenMixed(regions: seq<Region>)
    requires Accepted(regions)
    ensures EveryOrderAgrees(regions) <==> !MixedWallets(regions)
  {
    AcceptedIsCombinable(regions);
    OrderMattersExactlyWhenMixed(regions);
  }

  function BareRegion(pool: string, wallet: string): Region {
    Region(pool, FRESH, Some(Report(pool, wallet, true, [])))
  }

  lemma BarePairAccepted(r: Region, s: Region)
    requires RegionOk(r) && RegionOk(s) && r.pool != s.pool && r.report != None && s.report != None
    ensures Accepted([r, s]) <==> r.report.value.wallet == "" || s.report.value.wallet == r.report.value.wallet
  {
    AcceptedMeans([r, s]);
    assert [r, s][0] == r && [r, s][1] == s;
    assert RegionPool(r) != RegionPool(s);
  }

  /** Such a list: a pool that reports no wallet and one that reports "w" combine in this order and not in the other. */
  lemma MixedWalletsExample()
    ensures Combined([BareRegion("a", ""), BareRegion("b", "w")]) != None
    ensures Combined([BareRegion("b", "w"), BareRegion("a", "")]) == None
  {
    var a, b := BareRegion("a", ""), BareRegion("b", "w");
    assert RegionOk(a) && RegionOk(b);
    BarePairAccepted(a, b);
    BarePairAccepted(b, a);
  }

  lemma MoveToFront(regions: seq<Region>, s: Region) returns (others: seq<Region>)
    requires s in regions
    ensures multiset(others) == multiset(regions) && others != [] && others[0] == s
  {
    var i :| 0 <= i < |regions| && regions[i] == s;
    others := [s] + (regions[..i] + regions[i + 1..]);
    assert regions == regions[..i] + [s] + regions[i + 1..];
  }
}

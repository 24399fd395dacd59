/** What the combined groups are: exact, conserving, complete only when they should be, and independent of order. */
module CombineLaws {
  import opened Optional
  import opened Sums
  import opened Decimals
  import opened Orders
  import opened MemberReport
  import opened CombineReports

  // ---- one group, read off the windows of its period ----

  function For(items: seq<Item>, p: Period): seq<Item> {
    if items == [] then []
    else
      var earlier, it := For(items[..|items| - 1], p), items[|items| - 1];
      if it.window.period == p then earlier + [it] else earlier
  }

  function ContributionOf(it: Item): Contribution { Contribution(it.pool, it.window.id, it.status) }

  function Contributions(items: seq<Item>): seq<Contribution> {
    if items == [] then [] else Contributions(items[..|items| - 1]) + [ContributionOf(items[|items| - 1])]
  }

  function EarnedOf(it: Item): nat { Wei(it.window.earned) }
  function AwaitingOf(it: Item): nat { Wei(it.window.awaiting) }
  function PendingOf(it: Item): nat { Wei(it.window.pending) }
  function PaidOf(it: Item): nat { Wei(it.window.paid) }

  ghost predicate AllFresh(items: seq<Item>) { forall it :: it in items ==> it.status == FRESH }

  /** The group of these windows: their sources in turn, and their exact totals. */
  ghost function GroupOf(items: seq<Item>, p: Period): Aggregate {
    Aggregate(p, AllFresh(items), Contributions(items), [],
              Render(Total(items, EarnedOf)), Render(Total(items, AwaitingOf)),
              Render(Total(items, PendingOf)), Render(Total(items, PaidOf)))
  }

  lemma WeiOfRender(n: nat)
    ensures Wei(Render(n)) == n
  {
    NumberInvertsRender(Render(n), n);
  }

  lemma TotalGrows(items: seq<Item>, it: Item, f: Item -> nat, raw: string)
    requires f(it) == Wei(raw)
    ensures Render(Total(items + [it], f)) == AddWei(Render(Total(items, f)), raw)
  {
    assert (items + [it])[..|items|] == items;
    WeiOfRender(Total(items, f));
  }

  lemma FreshnessGrows(items: seq<Item>, it: Item)
    ensures AllFresh(items + [it]) <==> AllFresh(items) && it.status == FRESH
    ensures Contributions(items + [it]) == Contributions(items) + [ContributionOf(it)]
  {
    var more := items + [it];
    assert more[..|items|] == items;
    assert it in more && forall x :: x in items ==> x in more;
  }

  /** Adding a window to the group of the windows before it gives the group of them all. */
  lemma GroupGrows(items: seq<Item>, it: Item, p: Period)
    ensures GroupOf(items + [it], p) == Added(GroupOf(items, p), it)
  {
    FreshnessGrows(items, it);
    TotalGrows(items, it, EarnedOf, it.window.earned);
    TotalGrows(items, it, AwaitingOf, it.window.awaiting);
    TotalGrows(items, it, PendingOf, it.window.pending);
    TotalGrows(items, it, PaidOf, it.window.paid);
  }

  lemma EmptyGroupIsGroupOfNothing(p: Period)
    ensures GroupOf([], p) == EmptyGroup(p)
  {
  }

  /** The groups built by the loop are exactly the groups of the periods that occur. */
  lemma {:induction false} GroupsAreExact(items: seq<Item>, p: Period)
    ensures GroupKey(p) in AddAll(items) <==> For(items, p) != []
    ensures For(items, p) != [] ==> AddAll(items)[GroupKey(p)] == GroupOf(For(items, p), p)
    decreases |items|
  {
    if items != [] {
      var before, it := items[..|items| - 1], items[|items| - 1];
      GroupsAreExact(before, p);
      KeysAreInjective(it.window.period, p);
      if it.window.period == p {
        GroupGrows(For(before, p), it, p);
        EmptyGroupIsGroupOfNothing(p);
      }
    }
  }

  lemma {:induction false} KeysComeFromPeriods(items: seq<Item>, key: string) returns (p: Period)
    requires key in AddAll(items)
    ensures key == GroupKey(p) && For(items, p) != []
    decreases |items|
  {
    var before, it := items[..|items| - 1], items[|items| - 1];
    if key == GroupKey(it.window.period) {
      p := it.window.period;
    } else {
      p := KeysComeFromPeriods(before, key);
    }
  }

  lemma {:induction false} ForIsAFilter(items: seq<Item>, p: Period, it: Item)
    ensures it in For(items, p) <==> it in items && it.window.period == p
    ensures multiset(For(items, p))[it] == if it.window.period == p then multiset(items)[it] else 0
    decreases |items|
  {
    if items != [] {
      var before, last := items[..|items| - 1], items[|items| - 1];
      assert items == before + [last];
      ForIsAFilter(before, p, it);
    }
  }

  // ---- where items come from ----

  lemma {:induction false} ItemsInMembers(pool: string, status: string, ws: seq<Window>, it: Item)
    ensures it in ItemsIn(pool, status, ws) <==> it.pool == pool && it.status == status && it.window in ws
    decreases |ws|
  {
    if ws != [] {
      assert ws == ws[..|ws| - 1] + [ws[|ws| - 1]];
      ItemsInMembers(pool, status, ws[..|ws| - 1], it);
    }
  }

  /** The region reported this window. */
  predicate Reported(r: Region, it: Item) {
    r.report != None && r.pool == it.pool && r.status == it.status && it.window in r.report.value.windows
  }

  lemma {:induction false} ItemsComeFromRegions(regions: seq<Region>, it: Item)
    ensures it in Items(regions) <==> exists r :: r in regions && Reported(r, it)
    decreases |regions|
  {
    if regions != [] {
      var before, last := regions[..|regions| - 1], regions[|regions| - 1];
      assert regions == before + [last];
      ItemsComeFromRegions(before, it);
      if last.report != None {
        ItemsInMembers(last.pool, last.status, last.report.value.windows, it);
      }
      assert it in ItemsOf(last) <==> Reported(last, it);
      if r :| r in before && Reported(r, it) {
        assert r in regions;
      }
    }
  }

  function RegionPool(r: Region): string { r.pool }

  ghost predicate AllRegionsOk(regions: seq<Region>) { forall r :: r in regions ==> RegionOk(r) }

  lemma {:induction false} AcceptedRegions(regions: seq<Region>)
    requires Accepted(regions)
    ensures AllRegionsOk(regions) && DistinctBy(regions, RegionPool)
    decreases |regions|
  {
    if regions != [] {
      var before, last := regions[..|regions| - 1], regions[|regions| - 1];
      assert regions == before + [last];
      AcceptedRegions(before);
      forall i, j | 0 <= i < j < |regions|
        ensures RegionPool(regions[i]) != RegionPool(regions[j])
      {
        if j < |before| {
          assert RegionPool(before[i]) != RegionPool(before[j]);
        } else {
          assert before[i] in before && before[i].pool in PoolsOf(before);
        }
      }
    }
  }

  /** One pool is one region. */
  lemma PoolIsOneRegion(regions: seq<Region>, r: Region, s: Region)
    requires DistinctBy(regions, RegionPool) && r in regions && s in regions && r.pool == s.pool
    ensures r == s
  {
    var i :| 0 <= i < |regions| && regions[i] == r;
    var j :| 0 <= j < |regions| && regions[j] == s;
    assert i != j ==> RegionPool(regions[i]) != RegionPool(regions[j]);
  }

  // ---- each pool contributes to a group at most once ----

  function ItemPool(it: Item): string { it.pool }

  lemma {:induction false} ForAppends(a: seq<Item>, b: seq<Item>, p: Period)
    ensures For(a + b, p) == For(a, p) + For(b, p)
    decreases |b|
  {
    if b == [] {
      assert a + b == a;
    } else {
      assert (a + b)[..|a + b| - 1] == a + b[..|b| - 1];
      ForAppends(a, b[..|b| - 1], p);
    }
  }

  lemma {:induction false} ReportHasAPeriodOnce(pool: string, status: string, ws: seq<Window>, p: Period)
    requires DistinctWindows(ws)
    ensures |For(ItemsIn(pool, status, ws), p)| <= 1
    ensures For(ItemsIn(pool, status, ws), p) != [] ==> exists w :: w in ws && w.period == p
    decreases |ws|
  {
    if ws != [] {
      var before, last := ws[..|ws| - 1], ws[|ws| - 1];
      assert ws == before + [last];
      assert DistinctWindows(before);
      ReportHasAPeriodOnce(pool, status, before, p);
      var items := ItemsIn(pool, status, ws);
      assert items[..|items| - 1] == ItemsIn(pool, status, before);
      assert forall w :: w in before ==> w.period != last.period;
    }
  }

  lemma {:induction false} EachPoolOnce(regions: seq<Region>, p: Period)
    requires Accepted(regions)
    ensures DistinctBy(For(Items(regions), p), ItemPool)
    decreases |regions|
  {
    if regions != [] {
      var before, last := regions[..|regions| - 1], regions[|regions| - 1];
      EachPoolOnce(before, p);
      ForAppends(Items(before), ItemsOf(last), p);
      var old', new' := For(Items(before), p), For(ItemsOf(last), p);
      if last.report != None {
        ReportHasAPeriodOnce(last.pool, last.status, last.report.value.windows, p);
      }
      forall it | it in old' ensures it.pool != last.pool {
        ForIsAFilter(Items(before), p, it);
        ItemsComeFromRegions(before, it);
      }
      forall it | it in new' ensures it.pool == last.pool {
        ForIsAFilter(ItemsOf(last), p, it);
        if last.report != None { ItemsInMembers(last.pool, last.status, last.report.value.windows, it); }
      }
      OneMorePool(old', new', last.pool);
    }
  }

  lemma OneMorePool(a: seq<Item>, b: seq<Item>, pool: string)
    requires DistinctBy(a, ItemPool) && |b| <= 1
    requires (forall it :: it in a ==> it.pool != pool) && (forall it :: it in b ==> it.pool == pool)
    ensures DistinctBy(a + b, ItemPool)
  {
    var s := a + b;
    forall i, j | 0 <= i < j < |s|
      ensures ItemPool(s[i]) != ItemPool(s[j])
    {
      if j < |a| {
        assert ItemPool(a[i]) != ItemPool(a[j]);
      } else {
        assert s[i] == a[i] && s[i] in a && s[j] in b;
      }
    }
  }
}

/** The combining loop: regions accepted one by one, windows added to their groups, groups finished in order. */
module CombineReports {
  import opened Optional
  import opened Decimals
  import opened Orders
  import opened MemberReport

  /** One window of one region, as the loop meets it. */
  datatype Item = Item(pool: string, status: string, window: Window)

  function ItemsIn(pool: string, status: string, ws: seq<Window>): seq<Item> {
    if ws == [] then [] else ItemsIn(pool, status, ws[..|ws| - 1]) + [Item(pool, status, ws[|ws| - 1])]
  }

  function ItemsOf(r: Region): seq<Item> {
    if r.report == None then [] else ItemsIn(r.pool, r.status, r.report.value.windows)
  }

  function Items(regions: seq<Region>): seq<Item> {
    if regions == [] then [] else Items(regions[..|regions| - 1]) + ItemsOf(regions[|regions| - 1])
  }

  // ---- what is accepted ----

  ghost predicate RegionOk(r: Region) {
    && r.pool != "" && (r.status == FRESH || r.status == STALE || r.status == UNAVAILABLE)
    && (r.report == None <==> r.status == UNAVAILABLE)
    && (r.report != None ==> ReportOk(r.report.value, r.pool, r.report.value.wallet))
  }

  /** The wallet the loop holds after these regions: the first one reported that is not empty. */
  function WalletAfter(regions: seq<Region>): string {
    if regions == [] then ""
    else
      var w, last := WalletAfter(regions[..|regions| - 1]), regions[|regions| - 1];
      if w == "" && last.report != None then last.report.value.wallet else w
  }

  predicate WalletFits(wallet: string, r: Region) {
    r.report != None ==> wallet == "" || r.report.value.wallet == wallet
  }

  function PoolsOf(regions: seq<Region>): set<string> { set r | r in regions :: r.pool }

  ghost predicate Accepted(regions: seq<Region>) {
    regions == [] ||
    (var before, last := regions[..|regions| - 1], regions[|regions| - 1];
     Accepted(before) && RegionOk(last) && last.pool !in PoolsOf(before) && WalletFits(WalletAfter(before), last))
  }

  // ---- the groups ----

  function AddWei(total: string, amount: string): string {
    Render(Wei(total) + Wei(amount))
  }

  function EmptyGroup(p: Period): Aggregate {
    Aggregate(p, true, [], [], "0", "0", "0", "0")
  }

  function Added(g: Aggregate, it: Item): Aggregate {
    g.(sources := g.sources + [Contribution(it.pool, it.window.id, it.status)],
       complete := g.complete && it.status == FRESH,
       earned := AddWei(g.earned, it.window.earned), awaiting := AddWei(g.awaiting, it.window.awaiting),
       pending := AddWei(g.pending, it.window.pending), paid := AddWei(g.paid, it.window.paid))
  }

  function AddItem(groups: map<string, Aggregate>, it: Item): map<string, Aggregate> {
    var key := GroupKey(it.window.period);
    groups[key := Added(if key in groups then groups[key] else EmptyGroup(it.window.period), it)]
  }

  function AddAll(items: seq<Item>): map<string, Aggregate> {
    if items == [] then map[] else AddItem(AddAll(items[..|items| - 1]), items[|items| - 1])
  }

  function PoolOf(c: Contribution): string { c.pool }

  function Present(g: Aggregate): set<string> { set c | c in g.sources :: c.pool }

  /** Name the absent pools, which leave the group incomplete, and put its lists in order. */
  ghost function Finish(g: Aggregate, pools: set<string>): Aggregate {
    g.(missing := Listing(pools - Present(g)), complete := g.complete && pools <= Present(g),
       sources := Sort(g.sources, PoolOf))
  }

  /** The groups of these keys, finished, in the order of the keys. */
  ghost function FinishKeys(groups: map<string, Aggregate>, keys: seq<string>, pools: set<string>): seq<Aggregate> {
    if keys == [] then []
    else
      var earlier, k := FinishKeys(groups, keys[..|keys| - 1], pools), keys[|keys| - 1];
      if k in groups then earlier + [Finish(groups[k], pools)] else earlier
  }

  ghost function Finished(groups: map<string, Aggregate>, pools: set<string>): seq<Aggregate> {
    FinishKeys(groups, Listing(groups.Keys), pools)
  }

  /** What combining these regions yields, and nothing when they are not accepted. */
  ghost function Combined(regions: seq<Region>): Option<seq<Aggregate>> {
    if Accepted(regions) then Some(Finished(AddAll(Items(regions)), PoolsOf(regions))) else None
  }

  // ---- the loops ----

  /** The four amounts of a window added to those of its group. */
  method AddAmounts(g: Aggregate, w: Window) returns (g': Aggregate)
    ensures g' == g.(earned := AddWei(g.earned, w.earned), awaiting := AddWei(g.awaiting, w.awaiting),
                     pending := AddWei(g.pending, w.pending), paid := AddWei(g.paid, w.paid))
  {
    var earned, awaiting := AddWei(g.earned, w.earned), AddWei(g.awaiting, w.awaiting);
    var pending, paid := AddWei(g.pending, w.pending), AddWei(g.paid, w.paid);
    g' := g.(earned := earned, awaiting := awaiting, pending := pending, paid := paid);
  }

  method AddWindow(groups: map<string, Aggregate>, r: Region, w: Window) returns (groups': map<string, Aggregate>)
    ensures groups' == AddItem(groups, Item(r.pool, r.status, w))
  {
    var key := GroupKey(w.period);
    var g := EmptyGroup(w.period);
    if key in groups {
      g := groups[key];
    }
    ghost var before := g;
    g := g.(sources := g.sources + [Contribution(r.pool, w.id, r.status)]);
    if r.status != FRESH {
      g := g.(complete := false);
    }
    g := AddAmounts(g, w);
    assert g == Added(before, Item(r.pool, r.status, w));
    groups' := groups[key := g];
  }

  /** Whether the next region may join those already read. */
  method Admissible(r: Region, pools: set<string>, wallet: string) returns (ok: bool)
    ensures ok <==> RegionOk(r) && r.pool !in pools && WalletFits(wallet, r)
  {
    if r.pool == "" || r.pool in pools {
      return false;
    }
    if r.status != FRESH && r.status != STALE && r.status != UNAVAILABLE {
      return false;
    }
    if r.report == None {
      return r.status == UNAVAILABLE;
    }
    if r.status == UNAVAILABLE {
      return false;
    }
    var held := if wallet == "" then r.report.value.wallet else wallet;
    if r.report.value.wallet != held {
      return false;
    }
    ok := Validate(r.report.value, r.pool, r.report.value.wallet);
  }

  method AddRegion(groups: map<string, Aggregate>, r: Region, ghost before: seq<Item>)
    returns (groups': map<string, Aggregate>)
    requires groups == AddAll(before)
    ensures groups' == AddAll(before + ItemsOf(r))
  {
    groups' := groups;
    assert before + [] == before;
    if r.report == None {
      return;
    }
    var ws := r.report.value.windows;
    for i := 0 to |ws|
      invariant groups' == AddAll(before + ItemsIn(r.pool, r.status, ws[..i]))
    {
      NextItem(before, r, ws, i);
      groups' := AddWindow(groups', r, ws[i]);
    }
    assert ws[..|ws|] == ws;
  }

  lemma NextItem(before: seq<Item>, r: Region, ws: seq<Window>, i: nat)
    requires i < |ws|
    ensures AddAll(before + ItemsIn(r.pool, r.status, ws[..i + 1]))
            == AddItem(AddAll(before + ItemsIn(r.pool, r.status, ws[..i])), Item(r.pool, r.status, ws[i]))
  {
    assert ws[..i + 1][..i] == ws[..i];
    var items, it := before + ItemsIn(r.pool, r.status, ws[..i]), Item(r.pool, r.status, ws[i]);
    AddAllOneMore(items, it);
    assert before + ItemsIn(r.pool, r.status, ws[..i + 1]) == items + [it];
  }

  method FinishGroup(g: Aggregate, pools: set<string>) returns (done: Aggregate)
    ensures done == Finish(g, pools)
  {
    var present: set<string> := {};
    for i := 0 to |g.sources|
      invariant present == set c | c in g.sources[..i] :: c.pool
    {
      assert g.sources[..i + 1] == g.sources[..i] + [g.sources[i]];
      present := present + {g.sources[i].pool};
    }
    assert g.sources[..|g.sources|] == g.sources;
    assert present == Present(g);
    done := g;
    var absent := pools - present;
    if absent != {} {
      done := done.(complete := false);
    }
    assert forall p :: p in pools && p !in present ==> p in absent;
    assert absent == {} ==> pools <= present;
    assert pools <= present ==> absent == {};
    var missing := ListInOrder(absent);
    done := done.(missing := missing, sources := Sort(g.sources, PoolOf));
  }

  /** What the loop holds after reading these regions. */
  ghost predicate HasRead(regions: seq<Region>, groups: map<string, Aggregate>, pools: set<string>, wallet: string) {
    && Accepted(regions) && wallet == WalletAfter(regions)
    && pools == PoolsOf(regions) && groups == AddAll(Items(regions))
  }

  function HeldWallet(wallet: string, r: Region): string {
    if wallet == "" && r.report != None then r.report.value.wallet else wallet
  }

  /** Whether one more region may be read, and what is held once it is. */
  lemma ReadOneMore(before: seq<Region>, r: Region, groups: map<string, Aggregate>, pools: set<string>, wallet: string)
    requires HasRead(before, groups, pools, wallet)
    ensures if RegionOk(r) && r.pool !in pools && WalletFits(wallet, r)
            then HasRead(before + [r], AddAll(Items(before) + ItemsOf(r)), pools + {r.pool}, HeldWallet(wallet, r))
            else !Accepted(before + [r])
  {
    OneMoreRegion(before, r);
  }

  /** Read one region after those before it. */
  method ReadRegion(r: Region, groups: map<string, Aggregate>, pools: set<string>, wallet: string,
                    ghost before: seq<Region>)
    returns (ok: bool, groups': map<string, Aggregate>, pools': set<string>, wallet': string)
    requires HasRead(before, groups, pools, wallet)
    ensures if ok then HasRead(before + [r], groups', pools', wallet') else !Accepted(before + [r])
  {
    groups', pools', wallet' := groups, pools, wallet;
    ReadOneMore(before, r, groups, pools, wallet);
    ok := Admissible(r, pools, wallet);
    if !ok {
      return;
    }
    pools' := pools + {r.pool};
    if wallet == "" && r.report != None {
      wallet' := r.report.value.wallet;
    }
    groups' := AddRegion(groups, r, Items(before));
  }

  method ReadRegions(regions: seq<Region>)
    returns (ok: bool, groups: map<string, Aggregate>, pools: set<string>, wallet: string)
    ensures if ok then HasRead(regions, groups, pools, wallet) else !Accepted(regions)
  {
    hide HasRead, Accepted;
    groups, pools, wallet := map[], {}, "";
    var i := 0;
    ghost var before: seq<Region> := [];
    NothingRead();
    while i < |regions|
      invariant 0 <= i <= |regions| && before == regions[..i]
      invariant HasRead(before, groups, pools, wallet)
    {
      ok, groups, pools, wallet := ReadRegion(regions[i], groups, pools, wallet, before);
      before := before + [regions[i]];
      if !ok {
        RejectedPrefix(regions, before);
        return;
      }
      i := i + 1;
    }
    assert before == regions;
    ok := true;
  }

  lemma NothingRead()
    ensures HasRead([], map[], {}, "")
  {
  }

  method Combine(regions: seq<Region>) returns (result: Option<seq<Aggregate>>)
    ensures result == Combined(regions)
  {
    var ok, groups, pools, wallet := ReadRegions(regions);
    if !ok {
      return None;
    }
    var out := FinishAll(groups, pools);
    result := Some(out);
  }

  method FinishAll(groups: map<string, Aggregate>, pools: set<string>) returns (out: seq<Aggregate>)
    ensures out == Finished(groups, pools)
  {
    var keys := ListInOrder(groups.Keys);
    ListingIsSorted(groups.Keys);
    out := [];
    var j := 0;
    while j < |keys|
      invariant 0 <= j <= |keys|
      invariant out == FinishKeys(groups, keys[..j], pools)
    {
      assert keys[j] in keys && keys[j] in groups;
      var g := FinishGroup(groups[keys[j]], pools);
      FinishNext(groups, keys, j, pools);
      out := out + [g];
      j := j + 1;
    }
    assert keys[..j] == keys;
  }

  lemma FinishNext(groups: map<string, Aggregate>, keys: seq<string>, j: nat, pools: set<string>)
    requires j < |keys| && keys[j] in groups
    ensures FinishKeys(groups, keys[..j + 1], pools)
            == FinishKeys(groups, keys[..j], pools) + [Finish(groups[keys[j]], pools)]
  {
    assert keys[..j + 1][..j] == keys[..j];
  }

  lemma AddAllOneMore(items: seq<Item>, it: Item)
    ensures AddAll(items + [it]) == AddItem(AddAll(items), it)
  {
    assert (items + [it])[..|items|] == items;
  }

  lemma OneMoreRegion(regions: seq<Region>, r: Region)
    ensures Accepted(regions + [r]) <==>
              Accepted(regions) && RegionOk(r) && r.pool !in PoolsOf(regions) && WalletFits(WalletAfter(regions), r)
    ensures WalletAfter(regions + [r])
            == if WalletAfter(regions) == "" && r.report != None then r.report.value.wallet else WalletAfter(regions)
    ensures PoolsOf(regions + [r]) == PoolsOf(regions) + {r.pool}
    ensures Items(regions + [r]) == Items(regions) + ItemsOf(r)
  {
    assert (regions + [r])[..|regions|] == regions;
  }

  lemma {:induction false} RejectedPrefix(regions: seq<Region>, before: seq<Region>)
    requires before <= regions && !Accepted(before)
    ensures !Accepted(regions)
    decreases |regions|
  {
    if |before| < |regions| {
      RejectedPrefix(regions[..|regions| - 1], before);
    } else {
      assert before == regions;
    }
  }
}

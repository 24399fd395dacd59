/** The offer engine as an object: offers, shapes and pairs as fields, walked and updated in place. */
module OfferEngine {
  import opened Optional
  import opened Offers
  import opened OfferShapes
  import opened Orders

  datatype AdminError = OfferNotFound | NotACandidate

  /** Runners are listed by host, then by local id. */
  predicate RunnerBefore(a: PairKey, b: PairKey) {
    Less(a.host, b.host) || (a.host == b.host && Less(a.local, b.local))
  }

  function InState(e: Engine, offering: string, state: PairState): set<PairKey> {
    set k | k in e.pairs && k.offer == offering && e.pairs[k].state == state
  }

  ghost predicate HasCandidate(e: Engine, reg: Registry, offering: string, hash: Projection) {
    exists k :: IsCandidate(e, reg, offering, hash, k)
  }

  class OfferBoard {
    var offers: map<string, Offer>
    var states: map<string, OfferState>
    var pairs: map<PairKey, Pair>
    var revision: string

    function Value(): Engine
      reads this
    {
      Engine(offers, states, pairs, revision)
    }

    constructor ()
      ensures Value() == Engine(map[], map[], map[], "")
    {
      offers, states, pairs, revision := map[], map[], map[], "";
    }

    method EvaluatePair(key: PairKey, c: Capability, answers: PairKey -> CertOutcome, now: int)
      requires Stateful(Value()) && key.offer in offers
      modifies this`states, this`pairs
      ensures Value() == StopAt(old(Value()), Visit(key, c), answers, now)
    {
      var st := states[key.offer];
      var hash := Project(c, offers[key.offer].extraFromRunner);
      var p := if key in pairs then pairs[key] else Pair(Attached, now, None, None, None);
      if p.hash != None && p.hash.value != hash {
        p := p.(state := Attached, cert := None, since := now);
      }
      p := p.(hash := Some(hash));
      p := p.(reason := None);
      if p.state == Attached {
        p := p.(state := Matched, since := now);
      }
      if p.cert == None {
        p := p.(cert := Some(answers(key)));
      }
      if p.cert.value.Failed? {
        p := p.(state := Matched, reason := Some(CertReason(p.cert.value.reason)));
      } else if p.cert.value.Passed? {
        var judging := if st.pending != None then st.pending else st.frozen;
        if judging == None {
          st := st.(frozen := Some(Frozen(hash, hash, now, FrozenBy(key.host, key.local, p.cert.value.runId))));
          p := p.(state := Eligible, since := now);
        } else if judging.value.hash == hash {
          if p.state != Eligible {
            p := p.(state := Eligible, since := now);
          }
        } else {
          if p.state != Ineligible {
            p := p.(since := now);
          }
          p := p.(state := Ineligible, reason := Some(ShapeMismatch(judging.value.projection, hash)));
        }
      }
      pairs := pairs[key := p];
      states := states[key.offer := st];
    }

    /** One capability against every offer it matches. */
    method WalkCapability(host: string, c: Capability, answers: PairKey -> CertOutcome, now: int)
      returns (live: set<PairKey>, ghost walk: seq<Visit>)
      requires Stateful(Value())
      modifies this`states, this`pairs
      ensures Stateful(Value()) && live == VisitedKeys(walk)
      ensures forall v :: v in walk <==> v.capability == c && v.key.host == host && v.key.local == c.localId
                                         && v.key.offer in offers && Matches(offers[v.key.offer], c)
      ensures Value() == WalkAll(old(Value()), walk, answers, now)
    {
      live, walk := {}, [];
      var todo := offers.Keys;
      while todo != {}
        invariant todo <= offers.Keys && Stateful(Value()) && live == VisitedKeys(walk)
        invariant forall v :: v in walk <==> v.capability == c && v.key.host == host && v.key.local == c.localId
                                             && v.key.offer in offers && v.key.offer !in todo
                                             && Matches(offers[v.key.offer], c)
        invariant Value() == WalkAll(old(Value()), walk, answers, now)
        decreases todo
      {
        var id :| id in todo;
        todo := todo - {id};
        if Matches(offers[id], c) {
          var key := PairKey(host, c.localId, id);
          EvaluatePair(key, c, answers, now);
          WalkOneMore(old(Value()), walk, Visit(key, c), answers, now);
          live, walk := live + {key}, walk + [Visit(key, c)];
        }
      }
    }

    /** One host's declared capabilities, in order. */
    method WalkHost(host: string, capabilities: seq<Capability>, answers: PairKey -> CertOutcome, now: int)
      returns (live: set<PairKey>, ghost walk: seq<Visit>)
      requires Stateful(Value())
      modifies this`states, this`pairs
      ensures Stateful(Value()) && live == VisitedKeys(walk)
      ensures forall v :: v in walk <==> && v.capability in capabilities && v.key.host == host
                                         && v.key.local == v.capability.localId
                                         && v.key.offer in offers && Matches(offers[v.key.offer], v.capability)
      ensures Value() == WalkAll(old(Value()), walk, answers, now)
    {
      live, walk := {}, [];
      for i := 0 to |capabilities|
        invariant Stateful(Value()) && live == VisitedKeys(walk)
        invariant forall v :: v in walk <==> && v.capability in capabilities[..i] && v.key.host == host
                                             && v.key.local == v.capability.localId
                                             && v.key.offer in offers && Matches(offers[v.key.offer], v.capability)
        invariant Value() == WalkAll(old(Value()), walk, answers, now)
      {
        ghost var mid := Value();
        ghost var more: seq<Visit>;
        var keys: set<PairKey>;
        keys, more := WalkCapability(host, capabilities[i], answers, now);
        WalkAppends(old(Value()), walk, more, answers, now);
        VisitedAppends(walk, more);
        assert capabilities[..i + 1] == capabilities[..i] + [capabilities[i]];
        live, walk := live + keys, walk + more;
      }
      assert capabilities[..|capabilities|] == capabilities;
    }

    /** Re-evaluate the pairs in scope against the registry and drop those no longer declared. */
    method RematchPairs(reg: Registry, scope: Scope, answers: PairKey -> CertOutcome, now: int)
      returns (ghost walk: seq<Visit>)
      requires Stateful(Value())
      modifies this`states, this`pairs
      ensures IsWalk(reg, offers, scope, walk) && (forall v :: v in walk ==> v.key.offer in offers)
      ensures Value() == Rematch(old(Value()), scope, walk, answers, now)
    {
      var live: set<PairKey> := {};
      walk := [];
      var hosts := set h | h in reg && InScope(scope, h) && reg[h].connected;
      var todo := hosts;
      while todo != {}
        invariant todo <= hosts && Stateful(Value()) && live == VisitedKeys(walk)
        invariant forall v :: v in walk <==> IsLive(reg, offers, v) && InScope(scope, v.key.host) && v.key.host !in todo
        invariant Value() == WalkAll(old(Value()), walk, answers, now)
        decreases todo
      {
        var h :| h in todo;
        todo := todo - {h};
        ghost var more: seq<Visit>;
        var keys: set<PairKey>;
        keys, more := WalkHost(h, reg[h].capabilities, answers, now);
        WalkAppends(old(Value()), walk, more, answers, now);
        VisitedAppends(walk, more);
        live, walk := live + keys, walk + more;
      }
      pairs := map k | k in pairs && (!InScope(scope, k.host) || k in live) :: pairs[k];
    }

    method RecordCertification(reg: Registry, key: PairKey, outcome: CertOutcome, answers: PairKey -> CertOutcome,
                               now: int)
      returns (ghost walk: seq<Visit>)
      requires Stateful(Value())
      modifies this`states, this`pairs
      ensures var w, op := World(old(Value()), reg), CertifyOp(key, outcome);
              && Allowed(w, op, Choice(walk, answers, now))
              && World(Value(), reg) == Step(w, op, Choice(walk, answers, now))
    {
      if key in pairs {
        pairs := pairs[key := pairs[key].(cert := Some(outcome))];
      }
      walk := RematchPairs(reg, ScopeOf(key.host), answers, now);
    }

    static method ReadOffers(list: seq<Offer>) returns (next: map<string, Offer>)
      ensures next == OffersById(list)
    {
      next := map[];
      for i := 0 to |list|
        invariant next == OffersById(list[..i])
      {
        assert list[..i + 1][..i] == list[..i];
        next := next[list[i].id := list[i]];
      }
      assert list[..|list|] == list;
    }

    /** Give every offer that has no state yet an unfrozen one. */
    static method StartStates(kept: map<string, OfferState>, ids: set<string>)
      returns (started: map<string, OfferState>)
      ensures started == map o | o in kept.Keys + ids :: if o in kept then kept[o] else UNFROZEN
    {
      started := kept;
      var todo := ids;
      while todo != {}
        invariant todo <= ids
        invariant started == map o | o in kept.Keys + (ids - todo) :: if o in kept then kept[o] else UNFROZEN
        decreases todo
      {
        var id :| id in todo;
        todo := todo - {id};
        if id !in started {
          started := started[id := UNFROZEN];
        }
      }
      assert ids - todo == ids;
    }

    method SetOffersTo(list: seq<Offer>, newRevision: string)
      requires Stateful(Value())
      modifies this
      ensures Value() == SetOffers(old(Value()), OffersById(list), newRevision)
    {
      var next := ReadOffers(list);
      var dropped := offers.Keys - next.Keys;
      states := StartStates(states - dropped, next.Keys);
      pairs := map k | k in pairs && k.offer !in dropped :: pairs[k];
      offers := next;
      if newRevision != "" {
        revision := newRevision;
      }
    }

    /** The pushed ids, and those among them, in turn, whose pushed entry is not the offer held. */
    method ReplacedOffers(list: seq<Offer>) returns (replaced: seq<string>, next: set<string>)
      ensures forall id :: id in next <==> Lists(list, id)
      ensures forall id :: id in replaced <==> Replaces(offers, list, id)
    {
      replaced, next := [], {};
      for i := 0 to |list|
        invariant forall id :: id in next <==> Lists(list[..i], id)
        invariant forall id :: id in replaced <==> Replaces(offers, list[..i], id)
      {
        OneMoreListed(offers, list, i);
        next := next + {list[i].id};
        if !(list[i].id in offers && offers[list[i].id] == list[i]) {
          replaced := replaced + [list[i].id];
        }
      }
      assert list[..|list|] == list;
    }

    /** The ids of the offers the push leaves out. */
    method RemovedOffers(next: set<string>) returns (removed: seq<string>)
      ensures forall id :: id in removed <==> id in offers && id !in next
    {
      removed := [];
      var todo := offers.Keys;
      while todo != {}
        invariant todo <= offers.Keys
        invariant forall id :: id in removed <==> id in offers.Keys - todo && id !in next
        decreases todo
      {
        var id :| id in todo;
        todo := todo - {id};
        if id !in next {
          removed := removed + [id];
        }
      }
    }

    /** The ids whose offer the push changes, removes or adds, in order. */
    method ChangedOffers(list: seq<Offer>) returns (changed: seq<string>)
      ensures SortedBy(changed, Itself) && forall id :: id in changed <==> Differs(offers, list, id)
    {
      var replaced, next := ReplacedOffers(list);
      var removed := RemovedOffers(next);
      SortSorts(replaced + removed, Itself);
      changed := Sort(replaced + removed, Itself);
      forall id ensures id in changed <==> id in replaced || id in removed {
        assert id in multiset(changed) <==> id in multiset(replaced + removed);
      }
    }

    /** Replace the admin-sourced offers and rematch, unless nothing changed. */
    method PushOffers(reg: Registry, newRevision: string, list: seq<Offer>, answers: PairKey -> CertOutcome, now: int)
      returns (changed: seq<string>, ghost walk: seq<Visit>)
      requires Stateful(Value())
      modifies this
      ensures SortedBy(changed, Itself) && forall id :: id in changed <==> Differs(old(offers), list, id)
      ensures var w, op := World(old(Value()), reg), PushOp(newRevision, list);
              && Allowed(w, op, Choice(walk, answers, now))
              && World(Value(), reg) == Step(w, op, Choice(walk, answers, now))
    {
      walk := [];
      changed := ChangedOffers(list);
      ChangesNothing(offers, list);
      assert changed != [] ==> Differs(offers, list, changed[0]);
      if changed == [] && revision == newRevision {
        return;
      }
      SetOffersTo(list, newRevision);
      walk := RematchPairs(reg, Everyone, answers, now);
    }

    method ConfirmPublished(reg: Registry, offering: string, hash: Projection, answers: PairKey -> CertOutcome,
                            now: int)
      returns (error: Option<AdminError>, ghost walk: seq<Visit>)
      requires Stateful(Value())
      modifies this`states, this`pairs
      ensures error == if offering in old(states) then None else Some(OfferNotFound)
      ensures var w, op := World(old(Value()), reg), ConfirmOp(offering, hash);
              && Allowed(w, op, Choice(walk, answers, now))
              && World(Value(), reg) == Step(w, op, Choice(walk, answers, now))
    {
      walk := [];
      if offering !in states {
        return Some(OfferNotFound), [];
      }
      var st := states[offering];
      if st.pending != None && st.pending.value.hash == hash {
        states := states[offering := st.(frozen := st.pending, pending := None)];
      }
      error := None;
      walk := RematchPairs(reg, Everyone, answers, now);
    }

    /** Walk the pairs for certified ones of this shape: the first met whose runner is declared gives the sample, and
        from it on all are listed as its runners. */
    method CandidateRunners(reg: Registry, offering: string, hash: Projection)
      returns (sample: Option<PairKey>, runners: set<PairKey>)
      requires offering in states
      ensures sample == None ==> runners == {} && !HasCandidate(Value(), reg, offering, hash)
      ensures sample != None ==>
                && IsCandidate(Value(), reg, offering, hash, sample.value) && sample.value in runners
                && (forall k :: IsCandidate(Value(), reg, offering, hash, k) ==> k in runners)
                && (forall k :: k in runners ==> IsMismatched(Value(), offering, hash, k))
    {
      sample, runners := None, {};
      var todo := pairs.Keys;
      while todo != {}
        invariant todo <= pairs.Keys
        invariant forall k :: IsCandidate(Value(), reg, offering, hash, k) ==> k in todo || k in runners
        invariant forall k :: k in runners ==> IsMismatched(Value(), offering, hash, k)
        invariant sample == None ==> runners == {}
        invariant sample != None ==> IsCandidate(Value(), reg, offering, hash, sample.value) && sample.value in runners
        decreases todo
      {
        var k :| k in todo;
        todo := todo - {k};
        if IsMismatched(Value(), offering, hash, k) {
          if sample == None && IsCandidate(Value(), reg, offering, hash, k) {
            sample := Some(k);
          }
          if sample != None {
            runners := runners + {k};
          }
        }
      }
    }

    /** Record the shape as accepted, with the projection the sampled runner declares now, and rematch. */
    method AcceptRunner(reg: Registry, offering: string, hash: Projection, sample: PairKey, runner: PairKey,
                        answers: PairKey -> CertOutcome, now: int)
      returns (ghost walk: seq<Visit>)
      requires Stateful(Value()) && IsCandidate(Value(), reg, offering, hash, sample)
               && IsMismatched(Value(), offering, hash, runner)
      modifies this`states, this`pairs
      ensures var w, op := World(old(Value()), reg), AcceptOp(offering, hash, sample, runner);
              && Allowed(w, op, Choice(walk, answers, now))
              && World(Value(), reg) == Step(w, op, Choice(walk, answers, now))
    {
      CapabilityForIsDeclared(reg[sample.host].capabilities, sample.local);
      var c := CapabilityFor(reg[sample.host].capabilities, sample.local).value;
      var projection := Project(c, if offering in offers then offers[offering].extraFromRunner else {});
      var accepted := Frozen(hash, projection, now,
                             FrozenBy(runner.host, runner.local, pairs[runner].cert.value.runId));
      states := states[offering := states[offering].(pending := Some(accepted))];
      walk := RematchPairs(reg, Everyone, answers, now);
    }

    /** How many pairs of the offer are eligible, and how many ineligible. */
    method CountPairs(offering: string) returns (eligible: nat, ineligible: nat)
      ensures eligible == |InState(Value(), offering, Eligible)|
              && ineligible == |InState(Value(), offering, Ineligible)|
    {
      eligible, ineligible := 0, 0;
      ghost var yes, no := InState(Value(), offering, Eligible), InState(Value(), offering, Ineligible);
      var todo := pairs.Keys;
      assert yes - todo == {} && no - todo == {};
      while todo != {}
        invariant todo <= pairs.Keys && eligible == |yes - todo| && ineligible == |no - todo|
        decreases todo
      {
        var k :| k in todo;
        OneLessToCount(yes, todo, k);
        OneLessToCount(no, todo, k);
        todo := todo - {k};
        if k.offer == offering {
          if pairs[k].state == Eligible {
            eligible := eligible + 1;
          } else if pairs[k].state == Ineligible {
            ineligible := ineligible + 1;
          }
        }
      }
      assert yes - {} == yes && no - {} == no;
    }

    method AcceptShape(reg: Registry, offering: string, hash: Projection, answers: PairKey -> CertOutcome, now: int)
      returns (eligibleNow: nat, ineligibleNow: nat, error: Option<AdminError>,
               ghost sample: PairKey, ghost runner: PairKey, ghost walk: seq<Visit>)
      requires Stateful(Value())
      modifies this`states, this`pairs
      ensures error == if offering !in old(states) then Some(OfferNotFound)
                       else if !HasCandidate(old(Value()), reg, offering, hash) then Some(NotACandidate) else None
      ensures error != None ==> Value() == old(Value())
      ensures error == None ==>
                && IsCandidate(old(Value()), reg, offering, hash, sample)
                && IsMismatched(old(Value()), offering, hash, runner)
                && (forall k :: IsCandidate(old(Value()), reg, offering, hash, k) ==> !RunnerBefore(k, runner))
                && var w, op := World(old(Value()), reg), AcceptOp(offering, hash, sample, runner);
                && Allowed(w, op, Choice(walk, answers, now))
                && World(Value(), reg) == Step(w, op, Choice(walk, answers, now))
                && eligibleNow == |InState(Value(), offering, Eligible)|
                && ineligibleNow == |InState(Value(), offering, Ineligible)|
    {
      eligibleNow, ineligibleNow, error, walk := 0, 0, None, [];
      sample, runner := PairKey("", "", ""), PairKey("", "", "");
      if offering !in states {
        error := Some(OfferNotFound);
        return;
      }
      var sampled, runners := CandidateRunners(reg, offering, hash);
      if sampled == None {
        error := Some(NotACandidate);
        return;
      }
      var first := FirstRunner(runners);
      sample, runner := sampled.value, first;
      walk := AcceptRunner(reg, offering, hash, sampled.value, first, answers, now);
      eligibleNow, ineligibleNow := CountPairs(offering);
    }

    /** The passed pairs of the published shape, listed by host and local id. */
    method DispatchPairs(offering: string) returns (listed: seq<PairKey>)
      ensures (forall k :: k in listed <==> k in EligiblePairs(Value(), offering)) && ListedInOrder(listed)
    {
      listed := [];
      if offering !in states || states[offering].frozen == None {
        return;
      }
      var keys: set<PairKey> := {};
      var published := states[offering].frozen.value.hash;
      var todo := pairs.Keys;
      while todo != {}
        invariant todo <= pairs.Keys
        invariant keys == PassedWith(Value(), offering, published) - todo
        decreases todo
      {
        var k :| k in todo;
        todo := todo - {k};
        var p := pairs[k];
        if k.offer == offering && p.cert != None && p.cert.value.Passed? && p.hash == Some(published) {
          keys := keys + {k};
        }
      }
      listed := ListRunners(keys, offering);
    }
  }

  // ---- runners in order ----

  ghost predicate ListedInOrder(listed: seq<PairKey>) {
    forall i, j :: 0 <= i < j < |listed| ==> RunnerBefore(listed[i], listed[j])
  }

  method FirstRunner(runners: set<PairKey>) returns (first: PairKey)
    requires runners != {}
    ensures first in runners && forall k :: k in runners ==> !RunnerBefore(k, first)
  {
    first :| first in runners;
    RunnerOrder(first, first, first);
    var todo := runners - {first};
    while todo != {}
      invariant todo <= runners && first in runners
      invariant forall k :: k in runners && k !in todo ==> !RunnerBefore(k, first)
      decreases todo
    {
      var k :| k in todo;
      todo := todo - {k};
      if RunnerBefore(k, first) {
        forall j | j in runners && j !in todo ensures !RunnerBefore(j, k) {
          RunnerOrder(j, k, first);
        }
        first := k;
      }
    }
  }

  method ListRunners(keys: set<PairKey>, offering: string) returns (listed: seq<PairKey>)
    requires forall k :: k in keys ==> k.offer == offering
    ensures (forall k :: k in listed <==> k in keys) && ListedInOrder(listed)
  {
    listed := [];
    var todo := keys;
    while todo != {}
      invariant todo <= keys
      invariant forall k :: k in listed <==> k in keys && k !in todo
      invariant ListedInOrder(listed)
      invariant forall i, k :: 0 <= i < |listed| && k in todo ==> RunnerBefore(listed[i], k)
      decreases todo
    {
      var first := FirstRunner(todo);
      forall k | k in todo && k != first ensures RunnerBefore(first, k) {
        RunnersAreTotal(first, k);
      }
      todo := todo - {first};
      listed := listed + [first];
    }
  }

  lemma RunnersAreTotal(a: PairKey, b: PairKey)
    requires a.offer == b.offer && a != b
    ensures RunnerBefore(a, b) || RunnerBefore(b, a)
  {
    LessIsTotal(a.host, b.host);
    LessIsTotal(a.local, b.local);
  }

  // ---- the loops' bookkeeping ----

  lemma OneMoreListed(offers: map<string, Offer>, list: seq<Offer>, i: nat)
    requires i < |list|
    ensures forall id :: Lists(list[..i + 1], id) <==> Lists(list[..i], id) || id == list[i].id
    ensures forall id :: Replaces(offers, list[..i + 1], id) <==>
              Replaces(offers, list[..i], id) || (id == list[i].id && !(id in offers && offers[id] == list[i]))
  {
    var more := list[..i + 1];
    assert more[..i] == list[..i] && more[i] == list[i];
    forall id | Lists(list[..i], id) ensures Lists(more, id) {
      var j :| 0 <= j < i && list[..i][j].id == id;
      assert more[j].id == id;
    }
    forall id | Replaces(offers, list[..i], id) ensures Replaces(offers, more, id) {
      var j :| 0 <= j < i && list[..i][j].id == id && !(id in offers && offers[id] == list[..i][j]);
      assert more[j].id == id;
    }
  }

  lemma OneLessToCount(all: set<PairKey>, todo: set<PairKey>, k: PairKey)
    requires k in todo
    ensures |all - (todo - {k})| == |all - todo| + if k in all then 1 else 0
  {
    assert all - (todo - {k}) == if k in all then (all - todo) + {k} else all - todo;
  }

  lemma ChangesNothing(offers: map<string, Offer>, list: seq<Offer>)
    ensures SameOffers(offers, list) <==> forall id :: !Differs(offers, list, id)
  {
    if forall id :: !Differs(offers, list, id) {
      forall i | 0 <= i < |list| ensures list[i].id in offers && offers[list[i].id] == list[i] {
        assert !Differs(offers, list, list[i].id);
      }
      forall id | id in offers ensures Lists(list, id) {
        assert !Differs(offers, list, id);
      }
    }
  }

  lemma WalkOneMore(e: Engine, walk: seq<Visit>, v: Visit, answers: PairKey -> CertOutcome, now: int)
    requires Stateful(e) && (forall u :: u in walk ==> u.key.offer in e.offers) && v.key.offer in e.offers
    ensures WalkAll(e, walk + [v], answers, now) == StopAt(WalkAll(e, walk, answers, now), v, answers, now)
    ensures VisitedKeys(walk + [v]) == VisitedKeys(walk) + {v.key}
  {
    assert (walk + [v])[..|walk|] == walk;
    VisitedAppends(walk, [v]);
    assert VisitedKeys([v]) == {v.key};
  }

  lemma VisitedAppends(walk: seq<Visit>, more: seq<Visit>)
    ensures VisitedKeys(walk + more) == VisitedKeys(walk) + VisitedKeys(more)
  {
  }

  lemma {:induction false} WalkAppends(e: Engine, walk: seq<Visit>, more: seq<Visit>, answers: PairKey -> CertOutcome,
                                       now: int)
    requires Stateful(e) && (forall u :: u in walk ==> u.key.offer in e.offers)
             && (forall u :: u in more ==> u.key.offer in e.offers)
    ensures WalkAll(e, walk + more, answers, now) == WalkAll(WalkAll(e, walk, answers, now), more, answers, now)
    decreases |more|
  {
    if more == [] {
      assert walk + more == walk;
    } else {
      var earlier := more[..|more| - 1];
      WalkAppends(e, walk, earlier, answers, now);
      assert more[|more| - 1] in more;
      assert (walk + more)[..|walk + more| - 1] == walk + earlier;
    }
  }

  lemma RunnerOrder(a: PairKey, b: PairKey, c: PairKey)
    ensures !RunnerBefore(a, a)
    ensures RunnerBefore(a, b) && RunnerBefore(b, c) ==> RunnerBefore(a, c)
  {
    LessIsTotal(a.host, a.host);
    LessIsTotal(a.local, a.local);
    if Less(a.host, b.host) && Less(b.host, c.host) { LessIsTransitive(a.host, b.host, c.host); }
    if Less(a.local, b.local) && Less(b.local, c.local) { LessIsTransitive(a.local, b.local, c.local); }
  }
}

/** After every call the pairs are exactly the live combinations, each judged; walking again changes nothing. */
module OffersSettled {
  import opened Optional
  import opened Offers

  /** Evaluating this pair again, whatever the certifier or the clock says, would leave it alone. */
  ghost predicate StablePair(p: Pair, hash: Projection, st: OfferState) {
    && p.hash == Some(hash) && p.state != Attached && p.cert != None
    && match p.cert.value
       case Pending(_) => p.reason == None
       case Failed(_, reason) => p.state == Matched && p.reason == Some(CertReason(reason))
       case Passed(_) =>
         && Judging(st) != None
         && var judging := Judging(st).value;
         if judging.hash == hash then p.state == Eligible && p.reason == None
         else p.state == Ineligible && p.reason == Some(ShapeMismatch(judging.projection, hash))
  }

  ghost predicate StableAt(e: Engine, v: Visit)
    requires v.key.offer in e.offers && Stateful(e)
  {
    v.key in e.pairs && StablePair(e.pairs[v.key], ShapeOf(e, v), e.states[v.key.offer])
  }

  /** One host does not reuse a local id for two different capabilities: attach validation rejects a document that
      repeats one (runnerattach.go:378-384). */
  ghost predicate DistinctLocals(reg: Registry) {
    forall h, c, d :: h in reg && c in reg[h].capabilities && d in reg[h].capabilities && c.localId == d.localId ==>
          c == d
  }

  ghost predicate HasVisit(reg: Registry, offers: map<string, Offer>, k: PairKey) {
    exists v: Visit :: IsLive(reg, offers, v) && v.key == k
  }

  /** The pairs are exactly the live combinations, with current shapes, and every passed one is judged. */
  ghost predicate Settled(w: World) {
    && Stateful(w.engine) && DistinctLocals(w.registry)
    && (forall v: Visit {:trigger IsLive(w.registry, w.engine.offers, v)} ::
          IsLive(w.registry, w.engine.offers, v) ==> StableAt(w.engine, v))
    && (forall k :: k in w.engine.pairs ==> HasVisit(w.registry, w.engine.offers, k))
  }

  /** Said outright: a pair exists exactly for a connected capability and an offer it matches, carries the current
      shape, and, once passed, is eligible exactly when that is the judged shape and ineligible otherwise. */
  lemma SettledPairsAreExact(w: World, v: Visit)
    requires Settled(w) && IsLive(w.registry, w.engine.offers, v)
    ensures forall k :: k in w.engine.pairs <==> HasVisit(w.registry, w.engine.offers, k)
    ensures v.key in w.engine.pairs
    ensures var p, judging := w.engine.pairs[v.key], Judging(w.engine.states[v.key.offer]);
            && p.hash == Some(ShapeOf(w.engine, v))
            && (p.cert != None && p.cert.value.Passed? ==>
                  && judging != None
                  && (p.state == Eligible <==> judging.value.hash == ShapeOf(w.engine, v))
                  && (p.state == Ineligible <==> judging.value.hash != ShapeOf(w.engine, v)))
  {
    assert StableAt(w.engine, v);
    forall k | HasVisit(w.registry, w.engine.offers, k)
      ensures k in w.engine.pairs
    {
      var u: Visit :| IsLive(w.registry, w.engine.offers, u) && u.key == k;
      assert StableAt(w.engine, u);
    }
  }

  // ---- one stop ----

  /** A state changes under evaluation only when it had no shape, and then by freezing the evaluated one. */
  ghost predicate FreezesAtMost(st: OfferState, st': OfferState, hash: Projection) {
    st' == st || (Judging(st) == None && st'.frozen != None && st' == st.(frozen := st'.frozen)
                  && st'.frozen.value.hash == hash && st'.frozen.value.projection == hash)
  }

  lemma EvaluateStabilises(known: Option<Pair>, key: PairKey, hash: Projection, st: OfferState, answer: CertOutcome,
                           now: int)
    ensures var done := Evaluate(known, key, hash, st, answer, now);
            StablePair(done.pair, hash, done.state) && FreezesAtMost(st, done.state, hash)
  {
  }

  lemma StableIsFixed(p: Pair, key: PairKey, hash: Projection, st: OfferState, answer: CertOutcome, now: int)
    requires StablePair(p, hash, st)
    ensures Evaluate(Some(p), key, hash, st, answer, now) == Evaluation(p, st)
  {
  }

  lemma StopStabilises(e: Engine, v: Visit, answers: PairKey -> CertOutcome, now: int)
    requires Stateful(e) && v.key.offer in e.offers
    ensures StableAt(StopAt(e, v, answers, now), v)
    ensures FreezesAtMost(e.states[v.key.offer], StopAt(e, v, answers, now).states[v.key.offer], ShapeOf(e, v))
  {
    EvaluateStabilises(LookupPair(e, v.key), v.key, ShapeOf(e, v), e.states[v.key.offer], answers(v.key), now);
  }

  /** A stop elsewhere does not unsettle a stable pair: only an offer without a shape can freeze, and it has no passed
      pair. */
  lemma StopKeepsStable(e: Engine, u: Visit, v: Visit, answers: PairKey -> CertOutcome, now: int)
    requires Stateful(e) && u.key.offer in e.offers && v.key.offer in e.offers
    requires StableAt(e, v) && (u.key == v.key ==> u == v)
    ensures StableAt(StopAt(e, u, answers, now), v)
  {
    StopStabilises(e, u, answers, now);
  }

  lemma StopAtStable(e: Engine, v: Visit, answers: PairKey -> CertOutcome, now: int)
    requires Stateful(e) && v.key.offer in e.offers && StableAt(e, v)
    ensures StopAt(e, v, answers, now) == e
  {
    StableIsFixed(e.pairs[v.key], v.key, ShapeOf(e, v), e.states[v.key.offer], answers(v.key), now);
    assert e.pairs[v.key := e.pairs[v.key]] == e.pairs;
    assert e.states[v.key.offer := e.states[v.key.offer]] == e.states;
  }

  // ---- a whole walk ----

  ghost predicate Walkable(reg: Registry, e: Engine, walk: seq<Visit>) {
    Stateful(e) && DistinctLocals(reg) && forall v :: v in walk ==> IsLive(reg, e.offers, v)
  }

  lemma LiveAgree(reg: Registry, offers: map<string, Offer>, u: Visit, v: Visit)
    requires DistinctLocals(reg) && IsLive(reg, offers, u) && IsLive(reg, offers, v) && u.key == v.key
    ensures u == v
  {
  }

  lemma {:induction false} WalkKeepsStable(reg: Registry, e: Engine, walk: seq<Visit>, answers: PairKey -> CertOutcome,
                                           now: int, v: Visit)
    requires Walkable(reg, e, walk) && IsLive(reg, e.offers, v) && StableAt(e, v)
    ensures StableAt(WalkAll(e, walk, answers, now), v)
    decreases |walk|
  {
    if walk != [] {
      var before, u := walk[..|walk| - 1], walk[|walk| - 1];
      WalkKeepsStable(reg, e, before, answers, now, v);
      assert u in walk;
      if u.key == v.key { LiveAgree(reg, e.offers, u, v); }
      StopKeepsStable(WalkAll(e, before, answers, now), u, v, answers, now);
    }
  }

  lemma {:induction false} WalkStabilises(reg: Registry, e: Engine, walk: seq<Visit>, answers: PairKey -> CertOutcome,
                                          now: int, v: Visit)
    requires Walkable(reg, e, walk) && v in walk && IsLive(reg, e.offers, v)
    ensures StableAt(WalkAll(e, walk, answers, now), v)
    decreases |walk|
  {
    var before, u := walk[..|walk| - 1], walk[|walk| - 1];
    assert u in walk && walk == before + [u];
    assert forall x :: x in before ==> x in walk;
    var mid := WalkAll(e, before, answers, now);
    if u == v {
      StopStabilises(mid, u, answers, now);
    } else {
      WalkStabilises(reg, e, before, answers, now, v);
      if u.key == v.key { LiveAgree(reg, e.offers, u, v); }
      StopKeepsStable(mid, u, v, answers, now);
    }
  }

  lemma {:induction false} WalkTouchesOnlyItsKeys(e: Engine, walk: seq<Visit>, answers: PairKey -> CertOutcome,
                                                  now: int, k: PairKey)
    requires Stateful(e) && (forall v :: v in walk ==> v.key.offer in e.offers) && forall v :: v in walk ==> v.key != k
    ensures LookupPair(WalkAll(e, walk, answers, now), k) == LookupPair(e, k)
    decreases |walk|
  {
    if walk != [] {
      assert walk[|walk| - 1] in walk;
      WalkTouchesOnlyItsKeys(e, walk[..|walk| - 1], answers, now, k);
    }
  }

  /** Outside the scope of the coming rematch the world is already settled. */
  ghost predicate SettledElsewhere(e: Engine, reg: Registry, scope: Scope) {
    && Stateful(e) && DistinctLocals(reg)
    && (forall v: Visit {:trigger IsLive(reg, e.offers, v)} ::
          IsLive(reg, e.offers, v) && !InScope(scope, v.key.host) ==> StableAt(e, v))
    && (forall k :: k in e.pairs && !InScope(scope, k.host) ==> HasVisit(reg, e.offers, k))
  }

  lemma RematchIsStable(e: Engine, reg: Registry, scope: Scope, walk: seq<Visit>, answers: PairKey -> CertOutcome,
                        now: int, v: Visit)
    requires SettledElsewhere(e, reg, scope) && IsWalk(reg, e.offers, scope, walk) && IsLive(reg, e.offers, v)
    ensures StableAt(Rematch(e, scope, walk, answers, now), v)
  {
    if InScope(scope, v.key.host) {
      WalkStabilises(reg, e, walk, answers, now, v);
      assert v.key in VisitedKeys(walk);
    } else {
      WalkKeepsStable(reg, e, walk, answers, now, v);
    }
  }

  lemma RematchKeysAreLive(e: Engine, reg: Registry, scope: Scope, walk: seq<Visit>, answers: PairKey -> CertOutcome,
                           now: int, k: PairKey)
    requires SettledElsewhere(e, reg, scope) && IsWalk(reg, e.offers, scope, walk)
    requires k in Rematch(e, scope, walk, answers, now).pairs
    ensures HasVisit(reg, e.offers, k)
  {
    if InScope(scope, k.host) {
      var v :| v in walk && v.key == k;
      assert IsLive(reg, e.offers, v);
    } else {
      forall v | v in walk ensures v.key != k { assert InScope(scope, v.key.host); }
      WalkTouchesOnlyItsKeys(e, walk, answers, now, k);
    }
  }

  /** A rematch settles the world, in whatever order the maps are walked and whatever the certifier answers. */
  lemma RematchSettles(e: Engine, reg: Registry, scope: Scope, walk: seq<Visit>, answers: PairKey -> CertOutcome,
                       now: int)
    requires SettledElsewhere(e, reg, scope) && IsWalk(reg, e.offers, scope, walk)
    ensures Settled(World(Rematch(e, scope, walk, answers, now), reg))
  {
    var e' := Rematch(e, scope, walk, answers, now);
    forall v: Visit | IsLive(reg, e'.offers, v)
      ensures StableAt(e', v)
    {
      RematchIsStable(e, reg, scope, walk, answers, now, v);
    }
    forall k | k in e'.pairs
      ensures HasVisit(reg, e'.offers, k)
    {
      RematchKeysAreLive(e, reg, scope, walk, answers, now, k);
    }
  }

  lemma {:induction false} WalkFixed(reg: Registry, e: Engine, walk: seq<Visit>, answers: PairKey -> CertOutcome,
                                     now: int)
    requires Walkable(reg, e, walk) && forall v :: v in walk ==> StableAt(e, v)
    ensures WalkAll(e, walk, answers, now) == e
    decreases |walk|
  {
    if walk != [] {
      WalkFixed(reg, e, walk[..|walk| - 1], answers, now);
      assert walk[|walk| - 1] in walk;
      StopAtStable(e, walk[|walk| - 1], answers, now);
    }
  }

  /** Rematching a settled world again, in any scope and order, at any time, changes nothing at all. */
  lemma RematchIsIdempotent(w: World, scope: Scope, walk: seq<Visit>, answers: PairKey -> CertOutcome, now: int)
    requires Settled(w) && IsWalk(w.registry, w.engine.offers, scope, walk)
    ensures Rematch(w.engine, scope, walk, answers, now) == w.engine
  {
    var e := w.engine;
    WalkFixed(w.registry, e, walk, answers, now);
    forall k | k in e.pairs && InScope(scope, k.host)
      ensures k in VisitedKeys(walk)
    {
      WalkVisitsEveryPair(w, scope, walk, k);
    }
    NothingPruned(e, scope, walk);
  }

  lemma WalkVisitsEveryPair(w: World, scope: Scope, walk: seq<Visit>, k: PairKey)
    requires Settled(w) && IsWalk(w.registry, w.engine.offers, scope, walk) && k in w.engine.pairs
             && InScope(scope, k.host)
    ensures k in VisitedKeys(walk)
  {
    assert HasVisit(w.registry, w.engine.offers, k);
    var v: Visit :| IsLive(w.registry, w.engine.offers, v) && v.key == k;
    assert v in walk;
  }

  lemma NothingPruned(e: Engine, scope: Scope, walk: seq<Visit>)
    requires forall k :: k in e.pairs && InScope(scope, k.host) ==> k in VisitedKeys(walk)
    ensures Prune(e, scope, walk) == e
  {
    assert Prune(e, scope, walk).pairs == e.pairs;
  }

  /** What that validation spares the engine: where one host declares two shapes under one local id, both matching,
      each visit throws away the certification the other obtained and asks again. */
  lemma ReusedLocalIdNeverSettles(e: Engine, u: Visit, v: Visit, answers: PairKey -> CertOutcome,
                                  again: PairKey -> CertOutcome, now: int)
    requires Stateful(e) && u.key == v.key && u.key.offer in e.offers && ShapeOf(e, u) != ShapeOf(e, v)
    ensures var e1 := StopAt(StopAt(e, u, answers, now), v, answers, now);
            && e1.pairs[u.key].cert == Some(answers(u.key)) && !StableAt(e1, u)
            && StopAt(e1, u, again, now).pairs[u.key].cert == Some(again(u.key))
  {
    StopStabilises(e, u, answers, now);
    StopStabilises(StopAt(e, u, answers, now), v, answers, now);
  }

  // ---- every call settles ----

  ghost predicate SoundSnapshot(op: Op) {
    op.AttachOp? && op.snapshot != None ==>
      var declared := op.snapshot.value.capabilities;
      forall c, d :: c in declared && d in declared && c.localId == d.localId ==> c == d
  }

  lemma AttachLeavesOthers(w: World, op: Op, now: int)
    requires Settled(w) && op.AttachOp? && SoundSnapshot(op)
    ensures var p := Prepare(w, op, now).world; SettledElsewhere(p.engine, p.registry, ScopeOf(op.host))
  {
    var e, reg, reg' := w.engine, w.registry, Prepare(w, op, now).world.registry;
    forall v: Visit | IsLive(reg', e.offers, v) && !InScope(ScopeOf(op.host), v.key.host)
      ensures StableAt(e, v)
    {
      assert IsLive(reg, e.offers, v);
    }
    forall k | k in e.pairs && !InScope(ScopeOf(op.host), k.host)
      ensures HasVisit(reg', e.offers, k)
    {
      assert HasVisit(reg, e.offers, k);
      var v: Visit :| IsLive(reg, e.offers, v) && v.key == k;
      assert IsLive(reg', e.offers, v);
    }
  }

  lemma CertifyLeavesOthers(w: World, op: Op, now: int)
    requires Settled(w) && op.CertifyOp?
    ensures var p := Prepare(w, op, now).world; SettledElsewhere(p.engine, p.registry, ScopeOf(op.key.host))
  {
    hide HasVisit, StablePair, Matches;
    var e, e', reg := w.engine, Prepare(w, op, now).world.engine, w.registry;
    forall v: Visit | IsLive(reg, e'.offers, v) && !InScope(ScopeOf(op.key.host), v.key.host)
      ensures StableAt(e', v)
    {
      assert StableAt(e, v);
    }
  }

  /** Every call, with the rematch it ends with, leaves the world settled. */
  lemma StepSettles(w: World, op: Op, choice: Choice)
    requires Settled(w) && Allowed(w, op, choice) && SoundSnapshot(op)
    ensures Settled(Step(w, op, choice))
  {
    var p := Prepare(w, op, choice.now);
    if p.rematching == NoRematch {
      if op.DisableOp? {
        DisableKeeps(w, op, choice.now);
      }
    } else {
      if op.AttachOp? {
        AttachLeavesOthers(w, op, choice.now);
      } else if op.CertifyOp? {
        CertifyLeavesOthers(w, op, choice.now);
      } else {
        assert p.rematching == RematchIn(Everyone) && p.world.registry == w.registry;
      }
      RematchSettles(p.world.engine, p.world.registry, p.rematching.scope, choice.walk, choice.answers, choice.now);
    }
  }

  lemma DisableKeeps(w: World, op: Op, now: int)
    requires Settled(w) && op.DisableOp?
    ensures Settled(Prepare(w, op, now).world)
  {
    var e' := Prepare(w, op, now).world.engine;
    forall v: Visit | IsLive(w.registry, e'.offers, v)
      ensures StableAt(e', v)
    {
      assert StableAt(w.engine, v);
    }
    forall k | k in e'.pairs
      ensures HasVisit(w.registry, e'.offers, k)
    {
      assert HasVisit(w.registry, w.engine.offers, k);
    }
  }
}

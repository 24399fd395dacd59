/** Where every shape comes from: a connected runner, certified in it, at a call of the run. */
module OfferOrigins {
  import opened Optional
  import opened Offers
  import opened OffersSettled
  import opened OfferShapes
  import opened OfferCalls

  /** The shape is the visited runner's, names it, and names the pass it was certified by. */
  ghost predicate FrozenFrom(e: Engine, v: Visit, f: Frozen) {
    && v.key.offer in e.offers && f.hash == ShapeOf(e, v) && f.projection == f.hash
    && v.key in e.pairs && e.pairs[v.key].hash == Some(f.hash)
    && e.pairs[v.key].cert == Some(Passed(f.frozenBy.runId))
    && f.frozenBy.host == v.key.host && f.frozenBy.local == v.key.local
  }

  ghost predicate FrozenAtStop(e: Engine, walk: seq<Visit>, o: string, f: Frozen, now: int) {
    f.frozenAt == now && exists v :: v in walk && v.key.offer == o && FrozenFrom(e, v, f)
  }

  lemma StopFreezes(e: Engine, v: Visit, answers: PairKey -> CertOutcome, now: int)
    requires Stateful(e) && v.key.offer in e.offers && VerdictsHaveShapes(e)
    ensures var st, e' := e.states[v.key.offer], StopAt(e, v, answers, now);
            var st' := e'.states[v.key.offer];
            || st' == st
            || (&& Judging(st) == None && st'.frozen.Some? && st'.pending == None && st'.frozen.value.frozenAt == now
                && FrozenFrom(e', v, st'.frozen.value))
  {
  }

  lemma StopKeepsOrigin(e: Engine, u: Visit, v: Visit, answers: PairKey -> CertOutcome, now: int, f: Frozen)
    requires Stateful(e) && u.key.offer in e.offers && VerdictsHaveShapes(e)
    requires FrozenFrom(e, v, f) && (u.key == v.key ==> u == v)
    ensures FrozenFrom(StopAt(e, u, answers, now), v, f)
  {
    StopCertifies(e, u, answers, now);
  }

  lemma {:induction false} WalkFreezes(reg: Registry, e: Engine, walk: seq<Visit>, answers: PairKey -> CertOutcome,
                                       now: int, o: string)
    requires Walkable(reg, e, walk) && VerdictsHaveShapes(e) && o in e.states
    ensures var e' := WalkAll(e, walk, answers, now);
            && VerdictsHaveShapes(e') && o in e'.states
            && (|| e'.states[o] == e.states[o]
                || (&& e'.states[o].frozen.Some? && e'.states[o].pending == None
                    && FrozenAtStop(e', walk, o, e'.states[o].frozen.value, now)))
    decreases |walk|
  {
    if walk != [] {
      var before, u := walk[..|walk| - 1], walk[|walk| - 1];
      assert u in walk && forall v :: v in before ==> v in walk;
      WalkFreezes(reg, e, before, answers, now, o);
      var mid := WalkAll(e, before, answers, now);
      StopCertifies(mid, u, answers, now);
      StopFreezes(mid, u, answers, now);
      if mid.states[o] != e.states[o] {
        var v :| v in before && v.key.offer == o && FrozenFrom(mid, v, mid.states[o].frozen.value);
        if u.key == v.key { LiveAgree(reg, e.offers, u, v); }
        StopKeepsOrigin(mid, u, v, answers, now, mid.states[o].frozen.value);
      }
    }
  }

  /** A connected runner of this world, certified, has this shape and gave it its name. */
  ghost predicate ComesFrom(w: World, o: string, f: Frozen, v: Visit) {
    IsLive(w.registry, w.engine.offers, v) && v.key.offer == o && FrozenFrom(w.engine, v, f)
  }

  lemma StepFreezes(w: World, op: Op, choice: Choice, o: string)
    requires Settled(w) && Allowed(w, op, choice) && SoundSnapshot(op) && o in Step(w, op, choice).engine.states
    ensures var e1, w' := Prepare(w, op, choice.now).world.engine, Step(w, op, choice);
            var st' := w'.engine.states[o];
            && o in e1.states
            && (|| st' == e1.states[o]
                || (&& st'.frozen.Some? && st'.pending == None && st'.frozen.value.frozenAt == choice.now
                    && exists v :: ComesFrom(w', o, st'.frozen.value, v)))
  {
    var p := Prepare(w, op, choice.now);
    StepOnlyFreezes(w, op, choice, o);
    StepSettles(w, op, choice);
    PreparedVerdicts(w, op, choice.now);
    if p.rematching != NoRematch {
      RematchFreezes(p.world.registry, p.world.engine, p.rematching.scope, choice.walk, choice.answers, choice.now, o);
    }
  }

  lemma RematchFreezes(reg: Registry, e: Engine, scope: Scope, walk: seq<Visit>, answers: PairKey -> CertOutcome,
                       now: int, o: string)
    requires Stateful(e) && DistinctLocals(reg) && IsWalk(reg, e.offers, scope, walk) && VerdictsHaveShapes(e)
    requires o in e.states
    ensures var e' := Rematch(e, scope, walk, answers, now);
            && o in e'.states
            && (|| e'.states[o] == e.states[o]
                || (&& e'.states[o].frozen.Some? && e'.states[o].pending == None
                    && e'.states[o].frozen.value.frozenAt == now
                    && exists v :: ComesFrom(World(e', reg), o, e'.states[o].frozen.value, v)))
  {
    WalkFreezes(reg, e, walk, answers, now, o);
    var walked, e' := WalkAll(e, walk, answers, now), Rematch(e, scope, walk, answers, now);
    if walked.states[o] != e.states[o] {
      var f := walked.states[o].frozen.value;
      var v :| v in walk && v.key.offer == o && FrozenFrom(walked, v, f);
      assert v.key in VisitedKeys(walk);
      assert ComesFrom(World(e', reg), o, f, v);
    }
  }

  /** What the call itself does to the shapes of an offer. */
  lemma PreparedShapes(w: World, op: Op, now: int, o: string)
    requires Settled(w) && o in Prepare(w, op, now).world.engine.states
    ensures var st' := Prepare(w, op, now).world.engine.states[o];
            if o !in w.engine.states then st' == UNFROZEN
            else
              var st := w.engine.states[o];
              && (st'.frozen == st.frozen || st'.frozen == st.pending)
              && (|| st'.pending == st.pending || st'.pending == None
                  || (&& op.AcceptOp? && op.offer == o && MayAccept(w.engine, op)
                      && st'.pending == Some(InNameOf(w.engine, op.runner, op.hash, now))))
  {
    if op.AcceptOp? {
      AcceptPrepares(w, op, now);
      hide Settled, Prepare;
    }
  }

  lemma AcceptHasItsRunner(w: World, op: Op, choice: Choice)
    requires Settled(w) && op.AcceptOp? && Allowed(w, op, choice) && MayAccept(w.engine, op)
    ensures var f := InNameOf(w.engine, op.runner, op.hash, choice.now);
            exists v :: ComesFrom(Step(w, op, choice), op.offer, f, v)
  {
    hide Settled, Step, Allowed, Prepare, IsLive, Project;
    var v := RunnerOf(w, op.runner);
    AcceptReshapes(w, op, choice);
    var f := InNameOf(w.engine, op.runner, op.hash, choice.now);
    assert ComesFrom(Step(w, op, choice), op.offer, f, v);
  }

  lemma RunnerOf(w: World, k: PairKey) returns (v: Visit)
    requires Settled(w) && k in w.engine.pairs
    ensures IsLive(w.registry, w.engine.offers, v) && v.key == k && k.offer in w.engine.offers
    ensures w.engine.pairs[k].hash == Some(ShapeOf(w.engine, v))
  {
    assert HasVisit(w.registry, w.engine.offers, k);
    v :| IsLive(w.registry, w.engine.offers, v) && v.key == k;
    assert StableAt(w.engine, v);
  }

  // ---- runs ----

  /** At some call of the run this shape was taken from a certified runner. */
  ghost predicate TakenAt(turns: seq<Turn>, i: nat, o: string, f: Frozen, v: Visit) {
    && 0 < i <= |turns| && IsRun(NEW_WORLD, turns[..i])
    && ComesFrom(At(NEW_WORLD, turns[..i]), o, f, v) && f.frozenAt == turns[i - 1].choice.now
  }

  ghost predicate HasOrigin(turns: seq<Turn>, o: string, f: Frozen) {
    exists i: nat, v :: TakenAt(turns, i, o, f, v)
  }

  lemma OriginStays(turns: seq<Turn>, o: string, f: Frozen)
    requires turns != [] && HasOrigin(turns[..|turns| - 1], o, f)
    ensures HasOrigin(turns, o, f)
  {
    var before := turns[..|turns| - 1];
    var i: nat, v :| TakenAt(before, i, o, f, v);
    assert before[..i] == turns[..i];
    assert TakenAt(turns, i, o, f, v);
  }

  /** In every run every frozen and every accepted shape was taken, at the call that dates it, from the connected and
      certified runner it names. */
  lemma {:induction false} EveryShapeHasItsRunner(turns: seq<Turn>, o: string)
    requires IsRun(NEW_WORLD, turns) && o in At(NEW_WORLD, turns).engine.states
    ensures var st := At(NEW_WORLD, turns).engine.states[o];
            && (st.frozen.Some? ==> HasOrigin(turns, o, st.frozen.value))
            && (st.pending.Some? ==> HasOrigin(turns, o, st.pending.value))
    decreases |turns|
  {
    var before, last := turns[..|turns| - 1], turns[|turns| - 1];
    var w := At(NEW_WORLD, before);
    EveryWorldFromNewIsSettled(before);
    assert turns[..|turns|] == turns;
    hide Settled, Step, Allowed, Prepare, HasOrigin;
    if o in w.engine.states {
      EveryShapeHasItsRunner(before, o);
      forall f | HasOrigin(before, o, f) ensures HasOrigin(turns, o, f) { OriginStays(turns, o, f); }
    }
    var w' := At(NEW_WORLD, turns);
    assert w' == Step(w, last.op, last.choice);
    StepFreezes(w, last.op, last.choice, o);
    PreparedShapes(w, last.op, last.choice.now, o);
    if last.op.AcceptOp? && MayAccept(w.engine, last.op) { AcceptHasItsRunner(w, last.op, last.choice); }
    forall f, v | ComesFrom(w', o, f, v) && f.frozenAt == last.choice.now ensures HasOrigin(turns, o, f) {
      OriginIsHere(turns, o, f, v);
    }
  }

  lemma OriginIsHere(turns: seq<Turn>, o: string, f: Frozen, v: Visit)
    requires TakenAt(turns, |turns|, o, f, v)
    ensures HasOrigin(turns, o, f)
  {
  }

  /** So in every run a certified runner is eligible exactly when it presents the very shape of the runner its offer is
      judged by, as that one declared it then. */
  lemma EligibleLikeItsModel(turns: seq<Turn>, k: PairKey, c: Capability) returns (i: nat, model: Visit)
    requires IsRun(NEW_WORLD, turns) && IsPassed(At(NEW_WORLD, turns).engine, k) && IsWanted(At(NEW_WORLD, turns), k, c)
    ensures var w := At(NEW_WORLD, turns);
            && k.offer in w.engine.states && k.offer in w.engine.offers && Judging(w.engine.states[k.offer]).Some?
            && TakenAt(turns, i, k.offer, Judging(w.engine.states[k.offer]).value, model)
            && var promoted := At(NEW_WORLD, turns[..i]).engine.offers[k.offer].extraFromRunner;
            (w.engine.pairs[k].state == Eligible <==>
               SameShape(c, w.engine.offers[k.offer].extraFromRunner, model.capability, promoted))
  {
    var w := At(NEW_WORLD, turns);
    EveryWorldFromNewIsSettled(turns);
    JudgedBy(w, k);
    EveryShapeHasItsRunner(turns, k.offer);
    hide Settled, At, IsRun, Project, SameShape, IsWanted;
    assert HasOrigin(turns, k.offer, Judging(w.engine.states[k.offer]).value);
    i, model :| TakenAt(turns, i, k.offer, Judging(w.engine.states[k.offer]).value, model);
    var promoted := At(NEW_WORLD, turns[..i]).engine.offers[k.offer].extraFromRunner;
    EligibleMeansSameShape(w, k, c, model.capability, promoted);
  }
}

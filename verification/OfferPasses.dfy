/** Whether a pass was of the shape it stands for. A run is of one shape; nothing the engine stores says which. */
module OfferPasses {
  import opened Optional
  import opened Offers
  import opened OffersSettled
  import opened OfferShapes

  /** A verdict belongs to a shape, and a pass to the shape its run was of. */
  ghost predicate PassIsCurrent(p: Pair, ran: string -> Projection) {
    p.cert != None ==> p.hash != None && (p.cert.value.Passed? ==> p.hash.value == ran(p.cert.value.runId))
  }

  ghost predicate PassesCurrent(e: Engine, ran: string -> Projection) {
    forall k :: k in e.pairs ==> PassIsCurrent(e.pairs[k], ran)
  }

  /** Frozen and accepted shapes name a run that was of that very shape. */
  ghost predicate NamesItsRun(f: Option<Frozen>, ran: string -> Projection) {
    f != None ==> ran(f.value.frozenBy.runId) == f.value.hash
  }

  ghost predicate ShapesCertified(e: Engine, ran: string -> Projection) {
    forall o :: o in e.states ==> NamesItsRun(e.states[o].frozen, ran) && NamesItsRun(e.states[o].pending, ran)
  }

  ghost predicate Certain(e: Engine, ran: string -> Projection) {
    PassesCurrent(e, ran) && ShapesCertified(e, ran)
  }

  /** An answer given during the walk is about the shape visited. */
  ghost predicate AnswersMatch(e: Engine, walk: seq<Visit>, answers: PairKey -> CertOutcome, ran: string -> Projection)
    requires forall v :: v in walk ==> v.key.offer in e.offers
  {
    forall v :: v in walk && answers(v.key).Passed? ==> ran(answers(v.key).runId) == ShapeOf(e, v)
  }

  /** A pass is reported for a pair only when its run was of the pair's shape at that moment. */
  ghost predicate ReportMatches(e: Engine, key: PairKey, outcome: CertOutcome, ran: string -> Projection) {
    key in e.pairs && outcome.Passed? ==> e.pairs[key].hash == Some(ran(outcome.runId))
  }

  lemma EvaluateIsCertain(known: Option<Pair>, key: PairKey, hash: Projection, st: OfferState, answer: CertOutcome,
                          now: int, ran: string -> Projection)
    requires known != None ==> PassIsCurrent(known.value, ran)
    requires answer.Passed? ==> ran(answer.runId) == hash
    requires NamesItsRun(st.frozen, ran) && NamesItsRun(st.pending, ran)
    ensures var done := Evaluate(known, key, hash, st, answer, now);
            PassIsCurrent(done.pair, ran) && NamesItsRun(done.state.frozen, ran) && NamesItsRun(done.state.pending, ran)
  {
  }

  lemma StopIsCertain(e: Engine, v: Visit, answers: PairKey -> CertOutcome, now: int, ran: string -> Projection)
    requires Stateful(e) && v.key.offer in e.offers && Certain(e, ran)
    requires answers(v.key).Passed? ==> ran(answers(v.key).runId) == ShapeOf(e, v)
    ensures Certain(StopAt(e, v, answers, now), ran)
  {
    EvaluateIsCertain(LookupPair(e, v.key), v.key, ShapeOf(e, v), e.states[v.key.offer], answers(v.key), now, ran);
  }

  lemma {:induction false} WalkIsCertain(e: Engine, walk: seq<Visit>, answers: PairKey -> CertOutcome, now: int,
                                         ran: string -> Projection)
    requires Stateful(e) && (forall v :: v in walk ==> v.key.offer in e.offers) && Certain(e, ran)
    requires AnswersMatch(e, walk, answers, ran)
    ensures Certain(WalkAll(e, walk, answers, now), ran)
    decreases |walk|
  {
    if walk != [] {
      var before, v := walk[..|walk| - 1], walk[|walk| - 1];
      assert v in walk && forall u :: u in before ==> u in walk;
      WalkIsCertain(e, before, answers, now, ran);
      StopIsCertain(WalkAll(e, before, answers, now), v, answers, now, ran);
    }
  }

  /** What the environment owes: answers and reports are about the shape they are given for. */
  ghost predicate Honest(w: World, op: Op, choice: Choice, ran: string -> Projection)
    requires Allowed(w, op, choice)
  {
    var p := Prepare(w, op, choice.now);
    && (p.rematching != NoRematch ==> AnswersMatch(p.world.engine, choice.walk, choice.answers, ran))
    && (op.CertifyOp? ==> ReportMatches(w.engine, op.key, op.outcome, ran))
  }

  lemma PrepareIsCertain(w: World, op: Op, now: int, ran: string -> Projection)
    requires Certain(w.engine, ran) && (op.CertifyOp? ==> ReportMatches(w.engine, op.key, op.outcome, ran))
    requires op.CertifyOp? && op.key in w.engine.pairs ==> w.engine.pairs[op.key].hash != None
    ensures Certain(Prepare(w, op, now).world.engine, ran)
  {
  }

  lemma StepIsCertain(w: World, op: Op, choice: Choice, ran: string -> Projection)
    requires Settled(w) && Allowed(w, op, choice) && Certain(w.engine, ran) && Honest(w, op, choice, ran)
    ensures Certain(Step(w, op, choice).engine, ran)
  {
    hide Prepare, Settled, Certain, AnswersMatch, ReportMatches, WalkAll, Prune;
    if op.CertifyOp? && op.key in w.engine.pairs {
      SettledHasAHash(w, op.key);
    }
    PrepareIsCertain(w, op, choice.now, ran);
    var p := Prepare(w, op, choice.now);
    if p.rematching != NoRematch {
      WalkIsCertain(p.world.engine, choice.walk, choice.answers, choice.now, ran);
      PruneIsCertain(WalkAll(p.world.engine, choice.walk, choice.answers, choice.now), p.rematching.scope, choice.walk,
                     ran);
    }
  }

  lemma PruneIsCertain(e: Engine, scope: Scope, walk: seq<Visit>, ran: string -> Projection)
    requires Certain(e, ran)
    ensures Certain(Prune(e, scope, walk), ran)
  {
  }

  lemma SettledHasAHash(w: World, key: PairKey)
    requires Settled(w) && key in w.engine.pairs
    ensures w.engine.pairs[key].hash != None
  {
    assert HasVisit(w.registry, w.engine.offers, key);
    var v: Visit :| IsLive(w.registry, w.engine.offers, v) && v.key == key;
    assert StableAt(w.engine, v);
  }

  ghost predicate HonestRun(start: World, turns: seq<Turn>, ran: string -> Projection)
    requires IsRun(start, turns)
  {
    turns == [] ||
    (var before, last := turns[..|turns| - 1], turns[|turns| - 1];
     HonestRun(start, before, ran) && Honest(At(start, before), last.op, last.choice, ran))
  }

  /** In every world of every run with an honest environment each pass is of its pair's shape, and each frozen or
      accepted shape names a run that was of it. */
  lemma {:induction false} EveryPassIsCurrent(start: World, turns: seq<Turn>, ran: string -> Projection)
    requires IsRun(start, turns) && HonestRun(start, turns, ran)
    requires Settled(start) && Coherent(start.engine) && Certain(start.engine, ran)
    ensures Certain(At(start, turns).engine, ran)
    decreases |turns|
  {
    if turns != [] {
      var before, last := turns[..|turns| - 1], turns[|turns| - 1];
      EveryPassIsCurrent(start, before, ran);
      EveryWorldIsSettled(start, before);
      StepIsCertain(At(start, before), last.op, last.choice, ran);
    }
  }

  /** So every pair dispatched for an offer is a declared runner whose present shape is the published one and whose
      pass was of that very shape. */
  lemma DispatchIsOfTheCurrentShape(w: World, o: string, k: PairKey, ran: string -> Projection)
    requires Settled(w) && Certain(w.engine, ran) && k in EligiblePairs(w.engine, o)
    ensures HasVisit(w.registry, w.engine.offers, k)
    ensures forall v: Visit :: IsLive(w.registry, w.engine.offers, v) && v.key == k ==>
              && ShapeOf(w.engine, v) == w.engine.states[o].frozen.value.hash
              && ran(w.engine.pairs[k].cert.value.runId) == ShapeOf(w.engine, v)
  {
    assert PassIsCurrent(w.engine.pairs[k], ran);
    assert HasVisit(w.registry, w.engine.offers, k);
    forall v: Visit | IsLive(w.registry, w.engine.offers, v) && v.key == k
      ensures ShapeOf(w.engine, v) == w.engine.pairs[k].hash.value
    {
      assert StableAt(w.engine, v);
    }
  }

  // ---- the engine does not check ----

  /** A report keeps passes current exactly when it matches: recording looks at nothing but the key. */
  lemma ReportKeepsPassesExactlyWhenItMatches(e: Engine, key: PairKey, outcome: CertOutcome, ran: string -> Projection)
    requires PassesCurrent(e, ran) && (key in e.pairs ==> e.pairs[key].hash != None)
    ensures PassesCurrent(Certified(e, key, outcome), ran) <==> ReportMatches(e, key, outcome, ran)
  {
    var e' := Certified(e, key, outcome);
    if key in e.pairs {
      assert e'.pairs[key] == e.pairs[key].(cert := Some(outcome));
      if PassesCurrent(e', ran) {
        assert PassIsCurrent(e'.pairs[key], ran);
      }
    }
  }

  /** A pass reported for a known pair of an offer with a shape is dispatched exactly when the pair's shape is the
      published one, whatever shape the run was of. */
  lemma AnyReportedPassIsDispatched(w: World, key: PairKey, runId: string, choice: Choice)
    requires Settled(w) && key in w.engine.pairs && key.offer in w.engine.states
             && Judging(w.engine.states[key.offer]) != None
    requires Allowed(w, CertifyOp(key, Passed(runId)), choice)
    ensures var e := Step(w, CertifyOp(key, Passed(runId)), choice).engine;
            && key in e.pairs && e.pairs[key].cert == Some(Passed(runId))
            && e.pairs[key].hash == w.engine.pairs[key].hash
            && (key in EligiblePairs(e, key.offer) <==>
                  && w.engine.states[key.offer].frozen != None
                  && w.engine.pairs[key].hash == Some(w.engine.states[key.offer].frozen.value.hash))
  {
    var e := Certified(w.engine, key, Passed(runId));
    forall v | v in choice.walk ensures v.key.offer in e.offers && Familiar(e, v) {
      assert IsLive(w.registry, w.engine.offers, v);
      ReportedIsFamiliar(w, key, runId, v);
    }
    WalkVisitsEveryPair(w, ScopeOf(key.host), choice.walk, key);
    hide Settled, IsWalk, WalkAll, Familiar, StableAt;
    FamiliarWalk(e, choice.walk, choice.answers, choice.now);
  }

  lemma ReportedIsFamiliar(w: World, key: PairKey, runId: string, v: Visit)
    requires Settled(w) && key in w.engine.pairs && key.offer in w.engine.states
             && Judging(w.engine.states[key.offer]) != None
    requires IsLive(w.registry, w.engine.offers, v)
    ensures Familiar(Certified(w.engine, key, Passed(runId)), v)
  {
    assert StableAt(w.engine, v);
  }

  // ---- such a run ----

  const OFFER: Offer := Offer("o", "cap", "http", map[], {})
  const RUNNER: Capability := Capability("l", "cap", "http", map[], "", map[])
  const PAIR: PairKey := PairKey("h", "l", "o")

  function AlwaysPassed(k: PairKey): CertOutcome { Passed("first") }

  /** An offer is pushed, a runner attaches and passes, and a second pass is reported for it. */
  ghost function ReportedTurns(runId: string): seq<Turn> {
    var visits := [Visit(PAIR, RUNNER)];
    [Turn(PushOp("1", [OFFER]), Choice([], AlwaysPassed, 1)),
     Turn(AttachOp("h", Some(Snapshot(true, [RUNNER]))), Choice(visits, AlwaysPassed, 2)),
     Turn(CertifyOp(PAIR, Passed(runId)), Choice(visits, AlwaysPassed, 3))]
  }

  /** The offer is held without a shape, and no runner is known. */
  ghost predicate Offered(w: World) {
    && w.registry == map[] && w.engine.offers == map["o" := OFFER]
    && w.engine.states == map["o" := UNFROZEN] && w.engine.pairs == map[]
  }

  lemma PushOffersIt(choice: Choice)
    requires choice.walk == []
    ensures Allowed(NEW_WORLD, PushOp("1", [OFFER]), choice) && Offered(Step(NEW_WORLD, PushOp("1", [OFFER]), choice))
  {
    assert [OFFER][..0] == [] && OffersById([OFFER]) == map["o" := OFFER];
    assert [OFFER][0].id == "o" && !SameOffers(map[], [OFFER]);
    var p := Prepare(NEW_WORLD, PushOp("1", [OFFER]), choice.now);
    assert p.world.engine.states == map["o" := UNFROZEN];
  }

  /** The runner is connected and the only one, and its shape is frozen and dispatched. */
  ghost predicate Running(w: World) {
    && w.registry == map["h" := Snapshot(true, [RUNNER])] && w.engine.offers == map["o" := OFFER]
    && PAIR in w.engine.pairs && "o" in w.engine.states && w.engine.states["o"].pending == None
    && w.engine.states["o"].frozen != None && w.engine.states["o"].frozen.value.hash == Project(RUNNER, {})
    && w.engine.pairs[PAIR].hash == Some(Project(RUNNER, {}))
  }

  lemma OneVisit(offers: map<string, Offer>, reg: Registry)
    requires offers == map["o" := OFFER] && reg == map["h" := Snapshot(true, [RUNNER])]
    ensures IsWalk(reg, offers, OneHost("h"), [Visit(PAIR, RUNNER)])
  {
    assert Visit(PAIR, RUNNER) in [Visit(PAIR, RUNNER)];
  }

  lemma AttachFreezesIt(w: World, choice: Choice)
    requires Offered(w) && choice.walk == [Visit(PAIR, RUNNER)] && choice.answers == AlwaysPassed
    ensures var op := AttachOp("h", Some(Snapshot(true, [RUNNER])));
            Allowed(w, op, choice) && Running(Step(w, op, choice)) && SoundSnapshot(op)
  {
    var op := AttachOp("h", Some(Snapshot(true, [RUNNER])));
    var p := Prepare(w, op, choice.now);
    OneVisit(p.world.engine.offers, p.world.registry);
    var e, v := p.world.engine, Visit(PAIR, RUNNER);
    assert choice.walk[..0] == [] && WalkAll(e, choice.walk[..0], choice.answers, choice.now) == e;
    assert WalkAll(e, choice.walk, choice.answers, choice.now) == StopAt(e, v, choice.answers, choice.now);
    assert v in choice.walk && PAIR in VisitedKeys(choice.walk);
  }

  lemma ReportIsAllowed(w: World, runId: string, choice: Choice)
    requires Running(w) && Stateful(w.engine) && choice.walk == [Visit(PAIR, RUNNER)]
    ensures Allowed(w, CertifyOp(PAIR, Passed(runId)), choice)
  {
    OneVisit(w.engine.offers, w.registry);
  }

  lemma OneMoreTurn(start: World, turns: seq<Turn>, turn: Turn)
    requires IsRun(start, turns) && Allowed(At(start, turns), turn.op, turn.choice) && SoundSnapshot(turn.op)
    ensures IsRun(start, turns + [turn])
    ensures At(start, turns + [turn]) == Step(At(start, turns), turn.op, turn.choice)
  {
    assert (turns + [turn])[..|turns|] == turns;
  }

  lemma ReportIsDispatched(runId: string)
    ensures IsRun(NEW_WORLD, ReportedTurns(runId))
    ensures var e := At(NEW_WORLD, ReportedTurns(runId)).engine;
            && PAIR in e.pairs && PAIR in EligiblePairs(e, "o") && e.pairs[PAIR].cert == Some(Passed(runId))
            && e.pairs[PAIR].hash == Some(Project(RUNNER, {}))
  {
    var turns := ReportedTurns(runId);
    var one, two := [turns[0]], [turns[0]] + [turns[1]];
    assert [] + [turns[0]] == one && two + [turns[2]] == turns;
    hide Allowed, Step, EligiblePairs;
    PushOffersIt(turns[0].choice);
    OneMoreTurn(NEW_WORLD, [], turns[0]);
    AttachFreezesIt(At(NEW_WORLD, one), turns[1].choice);
    OneMoreTurn(NEW_WORLD, one, turns[1]);
    EveryWorldFromNewIsSettled(two);
    var w := At(NEW_WORLD, two);
    ReportIsAllowed(w, runId, turns[2].choice);
    OneMoreTurn(NEW_WORLD, two, turns[2]);
    AnyReportedPassIsDispatched(w, PAIR, runId, turns[2].choice);
  }

  /** The pair is dispatched on the reported run, which may have been of another shape. */
  lemma StaleReportIsDispatched(runId: string, ran: string -> Projection)
    ensures IsRun(NEW_WORLD, ReportedTurns(runId))
    ensures var e := At(NEW_WORLD, ReportedTurns(runId)).engine;
            && PAIR in e.pairs && PAIR in EligiblePairs(e, "o") && e.pairs[PAIR].cert == Some(Passed(runId))
            && (ran(runId) != Project(RUNNER, {}) ==> !PassesCurrent(e, ran))
  {
    ReportIsDispatched(runId);
    hide Project, IsRun, At, ReportedTurns, EligiblePairs;
  }
}

/** Shapes over whole runs: frozen once, moved only by accept and confirm, never by anything a runner sends. */
module OfferShapes {
  import opened Optional
  import opened Offers
  import opened OffersSettled

  // ---- what a rematch may do to a shape ----

  /** Under a rematch an offer's state changes only by freezing, where there was no shape at all. */
  ghost predicate OnlyFreezes(st: OfferState, st': OfferState) {
    st' == st || (Judging(st) == None && st'.frozen != None && st' == st.(frozen := st'.frozen)
                  && st'.frozen.value.hash == st'.frozen.value.projection)
  }

  lemma {:induction false} WalkOnlyFreezes(e: Engine, walk: seq<Visit>, answers: PairKey -> CertOutcome, now: int,
                                           o: string)
    requires Stateful(e) && (forall v :: v in walk ==> v.key.offer in e.offers) && o in e.states
    ensures var e' := WalkAll(e, walk, answers, now); o in e'.states && OnlyFreezes(e.states[o], e'.states[o])
    decreases |walk|
  {
    if walk != [] {
      var before, v := walk[..|walk| - 1], walk[|walk| - 1];
      assert v in walk;
      WalkOnlyFreezes(e, before, answers, now, o);
      StopStabilises(WalkAll(e, before, answers, now), v, answers, now);
    }
  }

  lemma {:induction false} WalkAddsNoState(e: Engine, walk: seq<Visit>, answers: PairKey -> CertOutcome, now: int)
    requires Stateful(e) && forall v :: v in walk ==> v.key.offer in e.offers
    ensures WalkAll(e, walk, answers, now).states.Keys == e.states.Keys
    decreases |walk|
  {
    if walk != [] {
      assert walk[|walk| - 1] in walk;
      WalkAddsNoState(e, walk[..|walk| - 1], answers, now);
    }
  }

  lemma StepOnlyFreezes(w: World, op: Op, choice: Choice, o: string)
    requires Allowed(w, op, choice)
    ensures var e, e' := Prepare(w, op, choice.now).world.engine, Step(w, op, choice).engine;
            && (o in e.states <==> o in e'.states) && (o in e.states ==> OnlyFreezes(e.states[o], e'.states[o]))
  {
    var p := Prepare(w, op, choice.now);
    if p.rematching != NoRematch {
      WalkAddsNoState(p.world.engine, choice.walk, choice.answers, choice.now);
      if o in p.world.engine.states {
        WalkOnlyFreezes(p.world.engine, choice.walk, choice.answers, choice.now, o);
      }
    }
  }

  /** The call confirms exactly the accepted shape of o. */
  ghost predicate ConfirmsAccepted(w: World, op: Op, o: string) {
    && op.ConfirmOp? && op.offer == o && o in w.engine.states
    && w.engine.states[o].pending != None && w.engine.states[o].pending.value.hash == op.hash
  }

  /** A frozen shape stays as it is until its offer is dropped by a push or its accepted successor is confirmed. */
  lemma FrozenMovesOnlyByConfirm(w: World, op: Op, choice: Choice, o: string)
    requires Allowed(w, op, choice) && o in w.engine.states && w.engine.states[o].frozen != None
    ensures var st, e' := w.engine.states[o], Step(w, op, choice).engine;
            if o !in e'.states then op.PushOp? && o in w.engine.offers && o !in OffersById(op.list)
            else if ConfirmsAccepted(w, op, o) then e'.states[o].frozen == st.pending && e'.states[o].pending == None
            else e'.states[o].frozen == st.frozen
                 && (e'.states[o].pending != st.pending ==> op.AcceptOp? && op.offer == o)
  {
    hide Step, IsCandidate, IsMismatched;
    StepOnlyFreezes(w, op, choice, o);
  }

  /** Nothing a runner sends changes an offer: attaching, detaching and certification leave the offers alone and
      cannot move a shape once there is one. */
  lemma RunnersCannotMoveShapes(w: World, op: Op, choice: Choice, o: string)
    requires Allowed(w, op, choice) && (op.AttachOp? || op.CertifyOp?)
    ensures var e, e' := w.engine, Step(w, op, choice).engine;
            && e'.offers == e.offers && (o in e'.states <==> o in e.states)
            && (o in e.states && Judging(e.states[o]) != None ==> e'.states[o] == e.states[o])
  {
    StepOnlyFreezes(w, op, choice, o);
  }

  // ---- what dispatch sees ----

  /** Every stop finds its pair with the current shape and a verdict, and an offer with a passed pair has a shape. */
  ghost predicate Familiar(e: Engine, v: Visit)
    requires v.key.offer in e.offers && Stateful(e)
  {
    && v.key in e.pairs && e.pairs[v.key].hash == Some(ShapeOf(e, v)) && e.pairs[v.key].cert != None
    && (e.pairs[v.key].cert.value.Passed? ==> Judging(e.states[v.key.offer]) != None)
  }

  ghost predicate SameVerdict(p: Pair, q: Pair) {
    p.cert == q.cert && p.hash == q.hash
  }

  ghost predicate SameVerdicts(e: Engine, e': Engine) {
    e'.pairs.Keys == e.pairs.Keys && forall k :: k in e.pairs ==> SameVerdict(e.pairs[k], e'.pairs[k])
  }

  /** A walk over familiar ground re-judges pairs but keeps every verdict and every shape. */
  lemma {:induction false} FamiliarWalk(e: Engine, walk: seq<Visit>, answers: PairKey -> CertOutcome, now: int)
    requires Stateful(e) && forall v :: v in walk ==> v.key.offer in e.offers
    requires forall v :: v in walk ==> Familiar(e, v)
    ensures var e' := WalkAll(e, walk, answers, now); e'.states == e.states && SameVerdicts(e, e')
    decreases |walk|
  {
    if walk != [] {
      var before, v := walk[..|walk| - 1], walk[|walk| - 1];
      FamiliarWalk(e, before, answers, now);
      assert v in walk && Familiar(e, v);
      FamiliarStop(WalkAll(e, before, answers, now), v, answers, now);
    }
  }

  lemma FamiliarStop(e: Engine, v: Visit, answers: PairKey -> CertOutcome, now: int)
    requires Stateful(e) && v.key.offer in e.offers && Familiar(e, v)
    ensures var e' := StopAt(e, v, answers, now); e'.states == e.states && SameVerdicts(e, e')
  {
    var e' := StopAt(e, v, answers, now);
    assert e'.states == e.states[v.key.offer := e.states[v.key.offer]];
  }

  lemma SettledIsFamiliar(w: World, states: map<string, OfferState>, v: Visit)
    requires Settled(w) && IsLive(w.registry, w.engine.offers, v) && states.Keys == w.engine.states.Keys
    requires forall o :: o in states && Judging(w.engine.states[o]) != None ==> Judging(states[o]) != None
    ensures Familiar(w.engine.(states := states), v)
  {
    assert StableAt(w.engine, v);
  }

  /** A change of shapes alone, on a settled world, keeps every verdict through the rematch that follows. */
  lemma ReshapeKeepsVerdicts(w: World, states: map<string, OfferState>, walk: seq<Visit>,
                             answers: PairKey -> CertOutcome, now: int)
    requires Settled(w) && IsWalk(w.registry, w.engine.offers, Everyone, walk) && states.Keys == w.engine.states.Keys
    requires forall o :: o in states && Judging(w.engine.states[o]) != None ==> Judging(states[o]) != None
    ensures var e' := Rematch(w.engine.(states := states), Everyone, walk, answers, now);
            e'.states == states && SameVerdicts(w.engine, e')
  {
    var e := w.engine.(states := states);
    forall v | v in walk
      ensures v.key.offer in e.offers && Familiar(e, v)
    {
      assert IsLive(w.registry, w.engine.offers, v);
      SettledIsFamiliar(w, states, v);
    }
    FamiliarWalk(e, walk, answers, now);
    var walked := WalkAll(e, walk, answers, now);
    forall k | k in walked.pairs && InScope(Everyone, k.host)
      ensures k in VisitedKeys(walk)
    {
      WalkVisitsEveryPair(w, Everyone, walk, k);
    }
    NothingPruned(walked, Everyone, walk);
  }

  /** After it, each offer is dispatched to the passed pairs of its shape as now frozen. */
  lemma ReshapeDispatch(w: World, states: map<string, OfferState>, walk: seq<Visit>, answers: PairKey -> CertOutcome,
                        now: int, o: string)
    requires Settled(w) && IsWalk(w.registry, w.engine.offers, Everyone, walk) && states.Keys == w.engine.states.Keys
    requires forall p :: p in states && Judging(w.engine.states[p]) != None ==> Judging(states[p]) != None
    ensures EligiblePairs(Rematch(w.engine.(states := states), Everyone, walk, answers, now), o)
            == if o in states && states[o].frozen != None then PassedWith(w.engine, o, states[o].frozen.value.hash)
               else {}
  {
    ReshapeKeepsVerdicts(w, states, walk, answers, now);
    var e' := Rematch(w.engine.(states := states), Everyone, walk, answers, now);
    if o in states && states[o].frozen != None {
      SameVerdictsSamePassed(w.engine, e', o, states[o].frozen.value.hash);
    }
  }

  lemma SameVerdictsSamePassed(e: Engine, e': Engine, o: string, hash: Projection)
    requires SameVerdicts(e, e')
    ensures PassedWith(e', o, hash) == PassedWith(e, o, hash)
  {
  }

  /** Accepting a shape leaves dispatch exactly as it was, for every offer. */
  lemma AcceptKeepsDispatch(w: World, op: Op, choice: Choice, o: string)
    requires Settled(w) && op.AcceptOp? && Allowed(w, op, choice)
    ensures EligiblePairs(Step(w, op, choice).engine, o) == EligiblePairs(w.engine, o)
  {
    hide Settled, IsWalk, Rematch, PassedWith, IsCandidate;
    var p := Prepare(w, op, choice.now);
    if p.rematching != NoRematch {
      var states := p.world.engine.states;
      assert p.world == World(w.engine.(states := states), w.registry);
      ReshapeDispatch(w, states, choice.walk, choice.answers, choice.now, o);
    }
  }

  /** Confirming the accepted shape switches its offer's dispatch to exactly the passed pairs of that shape; any
      other confirmation changes no offer's dispatch. */
  lemma ConfirmSwitchesDispatch(w: World, op: Op, choice: Choice, o: string)
    requires Settled(w) && op.ConfirmOp? && Allowed(w, op, choice)
    ensures EligiblePairs(Step(w, op, choice).engine, o)
            == if ConfirmsAccepted(w, op, o) then PassedWith(w.engine, o, op.hash) else EligiblePairs(w.engine, o)
  {
    hide Settled, IsWalk, Rematch, PassedWith, IsCandidate, IsMismatched;
    var p := Prepare(w, op, choice.now);
    if p.rematching != NoRematch {
      var states := p.world.engine.states;
      assert p.world == World(w.engine.(states := states), w.registry);
      ReshapeDispatch(w, states, choice.walk, choice.answers, choice.now, o);
    }
  }

  // ---- runs ----

  datatype Turn = Turn(op: Op, choice: Choice)

  ghost predicate IsRun(start: World, turns: seq<Turn>)
    decreases |turns|, 0
  {
    turns == [] ||
    (var before, last := turns[..|turns| - 1], turns[|turns| - 1];
     IsRun(start, before) && Allowed(At(start, before), last.op, last.choice) && SoundSnapshot(last.op))
  }

  ghost function At(start: World, turns: seq<Turn>): World
    requires IsRun(start, turns)
    decreases |turns|, 1
  {
    if turns == [] then start
    else Step(At(start, turns[..|turns| - 1]), turns[|turns| - 1].op, turns[|turns| - 1].choice)
  }

  /** Frozen and accepted shapes carry the projection their hash was taken of. */
  ghost predicate Coherent(e: Engine) {
    forall o :: o in e.states ==>
      && (e.states[o].frozen != None ==> e.states[o].frozen.value.hash == e.states[o].frozen.value.projection)
      && (e.states[o].pending != None ==> e.states[o].pending.value.hash == e.states[o].pending.value.projection)
  }

  lemma {:induction false} CapabilityForIsDeclared(capabilities: seq<Capability>, local: string)
    ensures var c := CapabilityFor(capabilities, local);
            && (c != None ==> c.value in capabilities && c.value.localId == local)
            && (c == None ==> forall d :: d in capabilities ==> d.localId != local)
    decreases |capabilities|
  {
    if capabilities != [] && capabilities[0].localId != local {
      CapabilityForIsDeclared(capabilities[1..], local);
      assert capabilities == [capabilities[0]] + capabilities[1..];
    }
  }

  /** In a settled world every certified pair of another shape is a candidate, and the projection its runner declares
      is the one its hash was taken of: it does not matter which of them is sampled. */
  lemma SettledCandidates(w: World, offer: string, hash: Projection, key: PairKey)
    requires Settled(w) && IsMismatched(w.engine, offer, hash, key)
    ensures IsCandidate(w.engine, w.registry, offer, hash, key)
    ensures var c := CapabilityFor(w.registry[key.host].capabilities, key.local);
            c != None && Project(c.value, Promoted(w.engine, offer)) == hash
  {
    var e, reg := w.engine, w.registry;
    assert HasVisit(reg, e.offers, key);
    var v: Visit :| IsLive(reg, e.offers, v) && v.key == key;
    assert StableAt(e, v);
    var i :| 0 <= i < |reg[key.host].capabilities| && reg[key.host].capabilities[i] == v.capability;
    assert reg[key.host].capabilities[i].localId == key.local;
    CapabilityForIsDeclared(reg[key.host].capabilities, key.local);
  }

  /** So in a settled world the projection an accept reads from the registry is that of the accepted hash. */
  lemma AcceptIsCoherent(w: World, op: Op, now: int)
    requires Settled(w) && op.AcceptOp? && Coherent(w.engine)
    ensures Coherent(Prepare(w, op, now).world.engine)
  {
    hide Settled, CapabilityFor;
    if IsMismatched(w.engine, op.offer, op.hash, op.sample) {
      SettledCandidates(w, op.offer, op.hash, op.sample);
    }
  }

  lemma StepIsCoherent(w: World, op: Op, choice: Choice)
    requires Settled(w) && Allowed(w, op, choice) && Coherent(w.engine)
    ensures Coherent(Step(w, op, choice).engine)
  {
    var e := Prepare(w, op, choice.now).world.engine;
    assert Coherent(e) by {
      if op.AcceptOp? { AcceptIsCoherent(w, op, choice.now); }
    }
    forall o | o in Step(w, op, choice).engine.states
      ensures o in e.states && OnlyFreezes(e.states[o], Step(w, op, choice).engine.states[o])
    {
      StepOnlyFreezes(w, op, choice, o);
    }
  }

  /** Every world of every run is settled and its shapes coherent. */
  lemma {:induction false} EveryWorldIsSettled(start: World, turns: seq<Turn>)
    requires IsRun(start, turns) && Settled(start) && Coherent(start.engine)
    ensures Settled(At(start, turns)) && Coherent(At(start, turns).engine)
    decreases |turns|
  {
    if turns != [] {
      var before, last := turns[..|turns| - 1], turns[|turns| - 1];
      EveryWorldIsSettled(start, before);
      StepSettles(At(start, before), last.op, last.choice);
      StepIsCoherent(At(start, before), last.op, last.choice);
    }
  }

  const NEW_WORLD: World := World(Engine(map[], map[], map[], ""), map[])

  /** In particular every world reached from a new engine and an empty registry. */
  lemma EveryWorldFromNewIsSettled(turns: seq<Turn>)
    requires IsRun(NEW_WORLD, turns)
    ensures Settled(At(NEW_WORLD, turns)) && Coherent(At(NEW_WORLD, turns).engine)
  {
    EveryWorldIsSettled(NEW_WORLD, turns);
  }

  lemma {:induction false} PrefixIsRun(start: World, turns: seq<Turn>, i: nat)
    requires IsRun(start, turns) && i <= |turns|
    ensures IsRun(start, turns[..i])
    decreases |turns|
  {
    if i < |turns| {
      PrefixIsRun(start, turns[..|turns| - 1], i);
      assert turns[..|turns| - 1][..i] == turns[..i];
    } else {
      assert turns[..i] == turns;
    }
  }

  /** At some world of the run f was what eligibility of o was judged against. */
  ghost predicate WasJudging(start: World, turns: seq<Turn>, o: string, f: Frozen)
    requires IsRun(start, turns)
  {
    exists i :: 0 <= i <= |turns| && IsRun(start, turns[..i])
                && o in At(start, turns[..i]).engine.states
                && Judging(At(start, turns[..i]).engine.states[o]) == Some(f)
  }

  lemma JudgedEarlier(start: World, turns: seq<Turn>, o: string, f: Frozen)
    requires turns != [] && IsRun(start, turns) && WasJudging(start, turns[..|turns| - 1], o, f)
    ensures WasJudging(start, turns, o, f)
  {
    var before := turns[..|turns| - 1];
    var i :| 0 <= i <= |before| && IsRun(start, before[..i])
             && o in At(start, before[..i]).engine.states
             && Judging(At(start, before[..i]).engine.states[o]) == Some(f);
    assert before[..i] == turns[..i];
  }

  lemma JudgedNow(start: World, turns: seq<Turn>, o: string, f: Frozen)
    requires IsRun(start, turns)
    requires o in At(start, turns).engine.states && Judging(At(start, turns).engine.states[o]) == Some(f)
    ensures WasJudging(start, turns, o, f)
  {
    assert turns[..|turns|] == turns;
  }

  /** Where a frozen shape comes from: it was frozen or accepted before, or it is judged now. */
  lemma FrozenHasASource(w: World, op: Op, choice: Choice, o: string)
    requires Allowed(w, op, choice)
    requires o in Step(w, op, choice).engine.states && Step(w, op, choice).engine.states[o].frozen != None
    ensures var st' := Step(w, op, choice).engine.states[o];
            || (o in w.engine.states && w.engine.states[o].frozen == st'.frozen)
            || (o in w.engine.states && w.engine.states[o].pending == st'.frozen)
            || Judging(st') == st'.frozen
  {
    StepOnlyFreezes(w, op, choice, o);
  }

  /** Every published shape is, or once was, the judged one: nothing is published that eligibility was never
      decided against. */
  lemma {:induction false} FrozenWasJudged(start: World, turns: seq<Turn>, o: string)
    requires IsRun(start, turns) && forall p :: p in start.engine.states ==> start.engine.states[p].frozen == None
    requires o in At(start, turns).engine.states && At(start, turns).engine.states[o].frozen != None
    ensures WasJudging(start, turns, o, At(start, turns).engine.states[o].frozen.value)
    decreases |turns|
  {
    var before, last := turns[..|turns| - 1], turns[|turns| - 1];
    var w := At(start, before);
    var f := At(start, turns).engine.states[o].frozen.value;
    FrozenHasASource(w, last.op, last.choice, o);
    if o in w.engine.states && w.engine.states[o].frozen == Some(f) {
      FrozenWasJudged(start, before, o);
      JudgedEarlier(start, turns, o, f);
    } else if o in w.engine.states && w.engine.states[o].pending == Some(f) {
      JudgedNow(start, before, o, f);
      JudgedEarlier(start, turns, o, f);
    } else {
      JudgedNow(start, turns, o, f);
    }
  }
}

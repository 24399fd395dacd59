/** What a shape is made of, what each engine call leaves behind, and where every published shape came from. */
module OfferCalls {
  import opened Optional
  import opened Offers
  import opened OffersSettled
  import opened OfferShapes

  // ---- shapes and matches, in the runner's own terms ----

  /** The runner declares this extension and it is among the promoted ones. */
  ghost predicate Shows(c: Capability, promoted: set<string>, x: string) {
    x in promoted && x in c.extensions
  }

  /** Two runners agree in protocol, identity, other frozen fields, and every extension either of them shows. */
  ghost predicate SameShape(c: Capability, p: set<string>, d: Capability, q: set<string>) {
    && c.protocol == d.protocol && c.identity == d.identity && c.facts == d.facts
    && forall x :: && (Shows(c, p, x) <==> Shows(d, q, x))
                   && (Shows(c, p, x) && Shows(d, q, x) ==> c.extensions[x] == d.extensions[x])
  }

  lemma ShapesAgree(c: Capability, p: set<string>, d: Capability, q: set<string>)
    ensures Project(c, p) == Project(d, q) <==> SameShape(c, p, d, q)
  {
    var m, n := Project(c, p).promoted, Project(d, q).promoted;
    assert forall x :: (x in m <==> Shows(c, p, x)) && (x in n <==> Shows(d, q, x));
    if SameShape(c, p, d, q) {
      assert m == n;
    }
  }

  /** A wanted key names an identity key, with or without the prefix. */
  ghost predicate IsKeyFor(k: string, x: string) {
    k == "identity." + x || (k == x && !("identity." <= k))
  }

  /** The offer is for this capability and protocol, and the runner's identity has every wanted value; a value wanted
      empty may be absent. */
  ghost predicate Wants(o: Offer, c: Capability) {
    && o.capability == c.capabilityId && o.protocol == c.protocol
    && forall k, x :: k in o.wanted && IsKeyFor(k, x) ==>
         if x in c.identity then c.identity[x] == o.wanted[k] else o.wanted[k] == ""
  }

  lemma MatchesMeansWants(o: Offer, c: Capability)
    ensures Matches(o, c) <==> Wants(o, c)
  {
    forall k ensures IsKeyFor(k, TrimIdentity(k)) {
      if "identity." <= k {
        assert k == "identity." + k[|"identity."|..];
      }
    }
    forall k, x | IsKeyFor(k, x) ensures x == TrimIdentity(k) {
      if k == "identity." + x {
        assert k[|"identity."|..] == x;
      }
    }
  }

  /** A connected runner declares this local id for a capability the offer wants. */
  ghost predicate IsWanted(w: World, k: PairKey, c: Capability) {
    && k.host in w.registry && w.registry[k.host].connected && c in w.registry[k.host].capabilities
    && c.localId == k.local && k.offer in w.engine.offers && Wants(w.engine.offers[k.offer], c)
  }

  lemma LiveMeansWanted(w: World, v: Visit)
    ensures IsLive(w.registry, w.engine.offers, v) <==> IsWanted(w, v.key, v.capability)
  {
    if v.key.offer in w.engine.offers {
      MatchesMeansWants(w.engine.offers[v.key.offer], v.capability);
    }
  }

  /** In a settled world the pairs are exactly the wanted runners. */
  lemma PairsAreTheWanted(w: World, k: PairKey)
    requires Settled(w)
    ensures k in w.engine.pairs <==> exists c :: IsWanted(w, k, c)
  {
    if k in w.engine.pairs {
      assert HasVisit(w.registry, w.engine.offers, k);
      var v: Visit :| IsLive(w.registry, w.engine.offers, v) && v.key == k;
      LiveMeansWanted(w, v);
    }
    forall c | IsWanted(w, k, c) ensures k in w.engine.pairs {
      LiveMeansWanted(w, Visit(k, c));
      SettledPairsAreExact(w, Visit(k, c));
    }
  }

  ghost predicate IsPassed(e: Engine, k: PairKey) {
    k in e.pairs && e.pairs[k].cert.Some? && e.pairs[k].cert.value.Passed?
  }

  /** A passed pair is eligible exactly when its runner presents the shape its offer is judged by, whichever runner and
      promoted extensions that shape was taken from, and ineligible otherwise. */
  lemma EligibleMeansSameShape(w: World, k: PairKey, c: Capability, d: Capability, p: set<string>)
    requires Settled(w) && IsPassed(w.engine, k) && IsWanted(w, k, c)
    ensures k.offer in w.engine.states && Judging(w.engine.states[k.offer]).Some?
    ensures Judging(w.engine.states[k.offer]).value.hash == Project(d, p) ==>
              && (w.engine.pairs[k].state == Eligible <==> SameShape(c, w.engine.offers[k.offer].extraFromRunner, d, p))
              && (w.engine.pairs[k].state == Ineligible <==> w.engine.pairs[k].state != Eligible)
  {
    LiveMeansWanted(w, Visit(k, c));
    SettledPairsAreExact(w, Visit(k, c));
    ShapesAgree(c, w.engine.offers[k.offer].extraFromRunner, d, p);
    hide Settled, SameShape, Project;
  }

  // ---- accepting and confirming ----

  /** A certified pair of this shape, which is not the one the offer is judged by. */
  ghost predicate Waits(e: Engine, o: string, hash: Projection, k: PairKey) {
    && k.offer == o && o in e.states && IsPassed(e, k) && e.pairs[k].hash == Some(hash)
    && (Judging(e.states[o]).Some? ==> Judging(e.states[o]).value.hash != hash)
  }

  /** The shape as accepted at this time, in the name of this pair's runner. */
  ghost function InNameOf(e: Engine, k: PairKey, hash: Projection, now: int): Frozen
    requires IsPassed(e, k)
  {
    Frozen(hash, hash, now, FrozenBy(k.host, k.local, e.pairs[k].cert.value.runId))
  }

  ghost predicate MayAccept(e: Engine, op: Op)
    requires op.AcceptOp?
  {
    Waits(e, op.offer, op.hash, op.sample) && Waits(e, op.offer, op.hash, op.runner)
  }

  /** The states with this shape accepted. */
  ghost function WithPending(e: Engine, o: string, f: Frozen): map<string, OfferState>
    requires o in e.states
  {
    e.states[o := e.states[o].(pending := Some(f))]
  }

  lemma AcceptPrepares(w: World, op: Op, now: int)
    requires Settled(w) && op.AcceptOp?
    ensures Prepare(w, op, now)
            == if !MayAccept(w.engine, op) then Prepared(w, NoRematch)
               else
                 var f := InNameOf(w.engine, op.runner, op.hash, now);
                 var e := w.engine.(states := WithPending(w.engine, op.offer, f));
                 Prepared(World(e, w.registry), RematchIn(Everyone))
  {
    if MayAccept(w.engine, op) {
      SettledCandidates(w, op.offer, op.hash, op.sample);
    }
  }

  lemma AcceptReshapes(w: World, op: Op, choice: Choice)
    requires Settled(w) && op.AcceptOp? && Allowed(w, op, choice)
    ensures var w' := Step(w, op, choice);
            if !MayAccept(w.engine, op) then w' == w
            else
              && w'.registry == w.registry && w'.engine.offers == w.engine.offers && SameVerdicts(w.engine, w'.engine)
              && w'.engine.states
                 == WithPending(w.engine, op.offer, InNameOf(w.engine, op.runner, op.hash, choice.now))
  {
    AcceptPrepares(w, op, choice.now);
    hide Settled, Prepare, MayAccept, SameVerdicts, IsWalk, WalkAll, Prune;
    if MayAccept(w.engine, op) {
      var states := WithPending(w.engine, op.offer, InNameOf(w.engine, op.runner, op.hash, choice.now));
      ReshapeKeepsVerdicts(w, states, choice.walk, choice.answers, choice.now);
    }
  }

  /** Accepting a shape some certified pair waits with records it, beside the published one, in that runner's name.
      From then on a passed pair of the offer is eligible exactly when it has this shape. Accepting any other changes
      nothing, and no accept touches another offer, a verdict or what is published. */
  lemma AcceptIsExact(w: World, op: Op, choice: Choice, k: PairKey)
    requires Settled(w) && op.AcceptOp? && Allowed(w, op, choice)
    ensures var e, w' := w.engine, Step(w, op, choice);
            var e' := w'.engine;
            if !MayAccept(e, op) then w' == w
            else
              && w'.registry == w.registry && e'.offers == e.offers && SameVerdicts(e, e') && op.offer in e'.states
              && e'.states[op.offer].pending == Some(InNameOf(e, op.runner, op.hash, choice.now))
              && e'.states == e.states[op.offer := e.states[op.offer].(pending := e'.states[op.offer].pending)]
              && (IsPassed(e', k) && k.offer == op.offer ==>
                    && (e'.pairs[k].state == Eligible <==> e'.pairs[k].hash == Some(op.hash))
                    && (e'.pairs[k].state == Ineligible <==> e'.pairs[k].hash != Some(op.hash)))
  {
    hide Settled, Step, SameVerdicts, Waits, Allowed, IsPassed;
    AcceptReshapes(w, op, choice);
    StepSettles(w, op, choice);
    JudgedBy(Step(w, op, choice), k);
    if MayAccept(w.engine, op) { AcceptedIsKnown(w.engine, op); }
  }

  lemma AcceptedIsKnown(e: Engine, op: Op)
    requires op.AcceptOp? && MayAccept(e, op)
    ensures op.offer in e.states && IsPassed(e, op.runner)
  {
  }

  /** Accepting a waiting shape and confirming it publishes that shape: the offer is then dispatched to exactly the
      runners certified in it, and every other offer as before. */
  lemma AcceptThenConfirm(w: World, op: Op, first: Choice, second: Choice, o: string)
    requires Settled(w) && op.AcceptOp? && Allowed(w, op, first) && MayAccept(w.engine, op)
    requires Allowed(Step(w, op, first), ConfirmOp(op.offer, op.hash), second)
    ensures var e, e' := w.engine, Step(Step(w, op, first), ConfirmOp(op.offer, op.hash), second).engine;
            && op.offer in e'.states && e'.states[op.offer].pending == None
            && e'.states[op.offer].frozen == Some(InNameOf(e, op.runner, op.hash, first.now))
            && (forall k :: k in EligiblePairs(e', op.offer) <==>
                  k.offer == op.offer && IsPassed(e, k) && e.pairs[k].hash == Some(op.hash))
            && (o != op.offer ==> EligiblePairs(e', o) == EligiblePairs(e, o))
  {
    var w1 := Step(w, op, first);
    AcceptReshapes(w, op, first);
    AcceptKeepsDispatch(w, op, first, o);
    StepSettles(w, op, first);
    SameVerdictsSamePassed(w.engine, w1.engine, op.offer, op.hash);
    hide Settled, Step, Waits, SameVerdicts, Allowed, EligiblePairs;
    ConfirmPublishes(w1, op.offer, op.hash, second, o);
  }

  lemma ConfirmPublishes(w: World, offer: string, hash: Projection, choice: Choice, o: string)
    requires Settled(w) && Allowed(w, ConfirmOp(offer, hash), choice) && offer in w.engine.states
    requires w.engine.states[offer].pending.Some? && w.engine.states[offer].pending.value.hash == hash
    ensures var e, e' := w.engine, Step(w, ConfirmOp(offer, hash), choice).engine;
            && offer in e'.states && e'.states[offer].pending == None
            && e'.states[offer].frozen == w.engine.states[offer].pending
            && EligiblePairs(e', offer) == PassedWith(e, offer, hash)
            && (o != offer ==> EligiblePairs(e', o) == EligiblePairs(e, o))
  {
    var op := ConfirmOp(offer, hash);
    ConfirmSwitchesDispatch(w, op, choice, o);
    ConfirmSwitchesDispatch(w, op, choice, offer);
    StepOnlyFreezes(w, op, choice, offer);
    hide Settled, Step, Allowed, EligiblePairs, PassedWith;
  }

  /** In a settled world each passed pair is judged by its offer's shape. */
  lemma JudgedBy(w: World, k: PairKey)
    requires Settled(w)
    ensures IsPassed(w.engine, k) ==>
              && k.offer in w.engine.states && Judging(w.engine.states[k.offer]).Some?
              && var hash := Judging(w.engine.states[k.offer]).value.hash;
              && (w.engine.pairs[k].state == Eligible <==> w.engine.pairs[k].hash == Some(hash))
              && (w.engine.pairs[k].state == Ineligible <==> w.engine.pairs[k].hash != Some(hash))
  {
    if k in w.engine.pairs {
      assert HasVisit(w.registry, w.engine.offers, k);
      var v: Visit :| IsLive(w.registry, w.engine.offers, v) && v.key == k;
      SettledPairsAreExact(w, v);
    }
  }

  // ---- certification follows the shape ----

  /** What a stop makes of the certification: kept while the shape stays, asked for anew otherwise. */
  ghost function CertAt(e: Engine, v: Visit, answers: PairKey -> CertOutcome): CertOutcome
    requires v.key.offer in e.offers
  {
    if v.key in e.pairs && e.pairs[v.key].cert.Some? && e.pairs[v.key].hash == Some(ShapeOf(e, v))
    then e.pairs[v.key].cert.value
    else answers(v.key)
  }

  /** A pair has a shape before it has a verdict. */
  ghost predicate VerdictsHaveShapes(e: Engine) {
    forall k :: k in e.pairs && e.pairs[k].cert.Some? ==> e.pairs[k].hash.Some?
  }

  lemma StopCertifies(e: Engine, v: Visit, answers: PairKey -> CertOutcome, now: int)
    requires Stateful(e) && v.key.offer in e.offers && VerdictsHaveShapes(e)
    ensures var e' := StopAt(e, v, answers, now);
            && VerdictsHaveShapes(e') && v.key in e'.pairs
            && e'.pairs[v.key].hash == Some(ShapeOf(e, v)) && e'.pairs[v.key].cert == Some(CertAt(e, v, answers))
            && forall k :: k != v.key ==> LookupPair(e', k) == LookupPair(e, k)
  {
  }

  lemma {:induction false} WalkCertifies(reg: Registry, e: Engine, walk: seq<Visit>, answers: PairKey -> CertOutcome,
                                         now: int, v: Visit)
    requires Walkable(reg, e, walk) && IsLive(reg, e.offers, v) && VerdictsHaveShapes(e)
    ensures var e' := WalkAll(e, walk, answers, now);
            && VerdictsHaveShapes(e')
            && if v in walk
               then && v.key in e'.pairs && e'.pairs[v.key].hash == Some(ShapeOf(e, v))
                    && e'.pairs[v.key].cert == Some(CertAt(e, v, answers))
               else LookupPair(e', v.key) == LookupPair(e, v.key)
    decreases |walk|
  {
    if walk != [] {
      var before, u := walk[..|walk| - 1], walk[|walk| - 1];
      assert walk == before + [u] && u in walk;
      WalkCertifies(reg, e, before, answers, now, v);
      StopCertifies(WalkAll(e, before, answers, now), u, answers, now);
      if u.key == v.key { LiveAgree(reg, e.offers, u, v); }
    }
  }

  lemma SettledShape(w: World, k: PairKey)
    requires Settled(w) && k in w.engine.pairs
    ensures k.offer in w.engine.offers && w.engine.pairs[k].hash.Some? && w.engine.pairs[k].cert.Some?
  {
    assert HasVisit(w.registry, w.engine.offers, k);
    var v: Visit :| IsLive(w.registry, w.engine.offers, v) && v.key == k;
    assert StableAt(w.engine, v);
  }

  /** What the call itself does to a pair, before any rematch: only a report changes one. */
  ghost function ReportedPair(w: World, op: Op, k: PairKey): Option<Pair> {
    if op.CertifyOp? && op.key == k && k in w.engine.pairs then Some(w.engine.pairs[k].(cert := Some(op.outcome)))
    else LookupPair(w.engine, k)
  }

  lemma PreparedPair(w: World, op: Op, now: int, k: PairKey)
    requires k in w.engine.pairs ==> k.offer in w.engine.offers
    requires k.offer in Prepare(w, op, now).world.engine.offers
    ensures LookupPair(Prepare(w, op, now).world.engine, k) == ReportedPair(w, op, k)
  {
    hide IsCandidate, IsMismatched, CapabilityFor, Project, SameOffers;
  }

  lemma PreparedVerdicts(w: World, op: Op, now: int)
    requires Settled(w)
    ensures VerdictsHaveShapes(Prepare(w, op, now).world.engine)
  {
    forall k | k in w.engine.pairs ensures w.engine.pairs[k].hash.Some? { SettledShape(w, k); }
    hide Settled, IsCandidate, IsMismatched, CapabilityFor, Project, SameOffers;
  }

  lemma RematchCertifies(reg: Registry, e: Engine, scope: Scope, walk: seq<Visit>, answers: PairKey -> CertOutcome,
                         now: int, v: Visit)
    requires Stateful(e) && DistinctLocals(reg) && IsWalk(reg, e.offers, scope, walk) && IsLive(reg, e.offers, v)
    requires VerdictsHaveShapes(e)
    ensures LookupPair(Rematch(e, scope, walk, answers, now), v.key).Some? || !InScope(scope, v.key.host)
    ensures var p := LookupPair(Rematch(e, scope, walk, answers, now), v.key);
            if InScope(scope, v.key.host) then p.Some? && p.value.cert == Some(CertAt(e, v, answers))
            else p == LookupPair(e, v.key)
  {
    WalkCertifies(reg, e, walk, answers, now, v);
  }

  lemma StepPair(w: World, op: Op, choice: Choice, v: Visit)
    requires Settled(w) && Allowed(w, op, choice) && DistinctLocals(Prepare(w, op, choice.now).world.registry)
    requires var w' := Step(w, op, choice); IsLive(w'.registry, w'.engine.offers, v)
    ensures var p, k := Prepare(w, op, choice.now), v.key;
            && k.offer in p.world.engine.offers && p.world.engine.offers == Step(w, op, choice).engine.offers
            && LookupPair(p.world.engine, k) == ReportedPair(w, op, k)
            && var q := LookupPair(Step(w, op, choice).engine, k);
            if p.rematching != NoRematch && InScope(p.rematching.scope, k.host)
            then q.Some? && q.value.cert == Some(CertAt(p.world.engine, v, choice.answers))
            else q == LookupPair(p.world.engine, k)
  {
    var p := Prepare(w, op, choice.now);
    PreparedVerdicts(w, op, choice.now);
    if v.key in w.engine.pairs { SettledShape(w, v.key); }
    hide Prepare, Settled, IsLive, IsWalk, ReportedPair, CertAt, LookupPair, VerdictsHaveShapes, DistinctLocals;
    PreparedPair(w, op, choice.now, v.key);
    if p.rematching != NoRematch {
      RematchCertifies(p.world.registry, p.world.engine, p.rematching.scope, choice.walk, choice.answers, choice.now,
                       v);
    }
  }

  lemma SettledAt(w: World, v: Visit)
    requires Settled(w) && IsLive(w.registry, w.engine.offers, v)
    ensures DistinctLocals(w.registry) && v.key.offer in w.engine.offers && Stateful(w.engine) && StableAt(w.engine, v)
  {
  }

  lemma PreparedRegistry(w: World, op: Op, choice: Choice)
    requires Allowed(w, op, choice)
    ensures Step(w, op, choice).registry == Prepare(w, op, choice.now).world.registry
  {
  }

  /** The rematch after a report stops at its pair, whose shape has not changed. */
  lemma ReportIsInScope(w: World, op: Op, choice: Choice, v: Visit)
    requires Settled(w) && Allowed(w, op, choice) && op.CertifyOp? && op.key == v.key
    requires var w' := Step(w, op, choice); IsLive(w'.registry, w'.engine.offers, v)
    ensures var p := Prepare(w, op, choice.now);
            && p.rematching != NoRematch && InScope(p.rematching.scope, v.key.host)
            && v.key in w.engine.pairs && v.key.offer in w.engine.offers && p.world.engine.offers == w.engine.offers
            && w.engine.pairs[v.key].hash == Some(ShapeOf(w.engine, v))
  {
    assert StableAt(w.engine, v);
  }

  /** A pair's certification is the one reported for it, or the one it had while its shape stays, or the certifier's
      answer; so it never outlives the shape it was given for, and a report is never lost. */
  lemma CertificationFollowsTheShape(w: World, op: Op, choice: Choice, v: Visit)
    requires Settled(w) && Allowed(w, op, choice) && SoundSnapshot(op)
    requires var w' := Step(w, op, choice); IsLive(w'.registry, w'.engine.offers, v)
    ensures var e, e', k := w.engine, Step(w, op, choice).engine, v.key;
            && k in e'.pairs && k.offer in e'.offers && e'.pairs[k].hash == Some(ShapeOf(e', v))
            && e'.pairs[k].cert == if op.CertifyOp? && op.key == k && k in e.pairs then Some(op.outcome)
                                   else if k in e.pairs && e.pairs[k].hash == Some(ShapeOf(e', v)) then e.pairs[k].cert
                                   else Some(choice.answers(k))
  {
    hide Settled, Step, IsLive, Prepare, DistinctLocals, Project, Allowed;
    StepSettles(w, op, choice);
    SettledAt(Step(w, op, choice), v);
    PreparedRegistry(w, op, choice);
    StepPair(w, op, choice, v);
    if v.key in w.engine.pairs { SettledShape(w, v.key); }
    if op.CertifyOp? && op.key == v.key { ReportIsInScope(w, op, choice, v); }
  }

  // ---- pushing offers, disabling, attaching ----

  /** The last entry of the list with this id. */
  ghost predicate IsLastFor(list: seq<Offer>, id: string, o: Offer) {
    exists i :: 0 <= i < |list| && list[i] == o && o.id == id && forall j :: i < j < |list| ==> list[j].id != id
  }

  lemma {:induction false} HeldIsTheLast(list: seq<Offer>, id: string)
    ensures id in OffersById(list) <==> Lists(list, id)
    ensures id in OffersById(list) ==> IsLastFor(list, id, OffersById(list)[id])
    decreases |list|
  {
    if list != [] {
      var n := |list| - 1;
      HeldIsTheLast(list[..n], id);
      assert forall i :: 0 <= i < n ==> list[..n][i] == list[i];
      if list[n].id == id {
        assert IsLastFor(list, id, list[n]);
      } else if id in OffersById(list[..n]) {
        var i :| && 0 <= i < n && list[..n][i] == OffersById(list)[id] && list[i].id == id
                 && forall j :: i < j < n ==> list[..n][j].id != id;
        assert list[i] == OffersById(list)[id] && forall j :: i < j < |list| ==> list[j].id != id;
      }
    }
  }

  lemma {:induction false} WalkKeepsRevision(e: Engine, walk: seq<Visit>, answers: PairKey -> CertOutcome, now: int)
    requires Stateful(e) && forall v :: v in walk ==> v.key.offer in e.offers
    ensures WalkAll(e, walk, answers, now).revision == e.revision
    decreases |walk|
  {
    if walk != [] {
      assert walk[|walk| - 1] in walk;
      WalkKeepsRevision(e, walk[..|walk| - 1], answers, now);
    }
  }

  /** A push that changes nothing under the same revision is ignored. Any other replaces the offers by those listed: a
      dropped offer loses its state, a kept one keeps it, a new one starts without shape and enabled. A rematch may then
      freeze a shape where there is none. */
  lemma PushIsExact(w: World, revision: string, list: seq<Offer>, choice: Choice, id: string)
    requires Allowed(w, PushOp(revision, list), choice)
    ensures var e, w' := w.engine, Step(w, PushOp(revision, list), choice);
            var e', listed := w'.engine, Lists(list, id);
            if e.revision == revision
               && (forall i :: 0 <= i < |list| ==> list[i].id in e.offers && e.offers[list[i].id] == list[i])
               && (forall o :: o in e.offers ==> Lists(list, o))
            then w' == w
            else
              && w'.registry == w.registry && e'.revision == (if revision == "" then e.revision else revision)
              && (id in e'.offers <==> listed) && (listed ==> IsLastFor(list, id, e'.offers[id]))
              && (id in e'.states <==> listed || (id in e.states && id !in e.offers))
              && (id in e'.states && id in e.states ==> OnlyFreezes(e.states[id], e'.states[id]))
              && (id in e'.states && id !in e.states ==> e'.states[id].pending == None && !e'.states[id].disabled)
  {
    HeldIsTheLast(list, id);
    StepOnlyFreezes(w, PushOp(revision, list), choice, id);
    var p := Prepare(w, PushOp(revision, list), choice.now);
    if p.rematching != NoRematch {
      WalkKeepsRevision(p.world.engine, choice.walk, choice.answers, choice.now);
    }
  }

  ghost predicate DistinctOffers(list: seq<Offer>) {
    forall i, j :: 0 <= i < j < |list| ==> list[i].id != list[j].id
  }

  function Held(offers: map<string, Offer>, id: string): Option<Offer> {
    if id in offers then Some(offers[id]) else None
  }

  /** An id reported as changed is one whose offer the push adds, replaces or drops. A list that repeats an id may
      report one more, but never one less. */
  lemma ChangedMeansHeldOtherwise(offers: map<string, Offer>, list: seq<Offer>, id: string)
    ensures Held(offers, id) != Held(OffersById(list), id) ==> Differs(offers, list, id)
    ensures DistinctOffers(list) ==>
              (Differs(offers, list, id) <==> Held(offers, id) != Held(OffersById(list), id))
  {
    HeldIsTheLast(list, id);
  }

  /** Disabling changes the flag of a known offer and nothing else. */
  lemma DisableIsExact(w: World, o: string, disabled: bool, choice: Choice)
    requires Allowed(w, DisableOp(o, disabled), choice)
    ensures var w' := Step(w, DisableOp(o, disabled), choice);
            && (o !in w.engine.states ==> w' == w)
            && (o in w.engine.states ==>
                  && w'.engine.states == w.engine.states[o := w'.engine.states[o]]
                  && w'.engine.states[o] == w.engine.states[o].(disabled := disabled)
                  && w' == World(w.engine.(states := w'.engine.states), w.registry))
  {
  }

  /** An attach event replaces what its host declares, or forgets the host, and leaves the offers alone. */
  lemma AttachIsExact(w: World, host: string, snapshot: Option<Snapshot>, choice: Choice)
    requires Allowed(w, AttachOp(host, snapshot), choice)
    ensures var w' := Step(w, AttachOp(host, snapshot), choice);
            && w'.engine.offers == w.engine.offers && w'.engine.revision == w.engine.revision
            && (host in w'.registry <==> snapshot.Some?) && (snapshot.Some? ==> w'.registry[host] == snapshot.value)
            && forall h :: h != host ==> (h in w'.registry <==> h in w.registry)
                                         && (h in w.registry ==> w'.registry[h] == w.registry[h])
  {
    WalkKeepsRevision(w.engine, choice.walk, choice.answers, choice.now);
  }

  /** What dispatch uses: the passed pairs of the published shape. */
  lemma DispatchIsExact(e: Engine, o: string, k: PairKey)
    ensures k in EligiblePairs(e, o) <==>
              && k.offer == o && IsPassed(e, k) && o in e.states && e.states[o].frozen.Some?
              && e.pairs[k].hash == Some(e.states[o].frozen.value.hash)
  {
  }

  /** The pair is met with this shape for the first time: it is new, or was met with another. */
  ghost predicate IsNewShape(known: Option<Pair>, hash: Projection) {
    known == None || known.value.state == Attached || (known.value.hash.Some? && known.value.hash != Some(hash))
  }

  /** A pair met with a new shape starts over as matched, whatever it was before, and waits there for its certification;
      one met again stays where it is while that is pending. Its date moves in the first case, and when a pass freezes
      the offer or changes the pair's state. */
  lemma PairMoves(known: Option<Pair>, key: PairKey, hash: Projection, st: OfferState, answer: CertOutcome, now: int)
    ensures var p, first := Evaluate(known, key, hash, st, answer, now).pair, IsNewShape(known, hash);
            && p.cert.Some?
            && (!p.cert.value.Passed? ==>
                  p.state == if first || p.cert.value.Failed? then Matched else known.value.state)
            && p.since == if first || (p.cert.value.Passed? && (Judging(st) == None || p.state != known.value.state))
                          then now else known.value.since
  {
  }
}

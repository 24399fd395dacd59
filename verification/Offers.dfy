/** The offer engine as a value: matching runners to offers, freezing the first certified shape, superseding it on
    request. */
module Offers {
  import opened Optional

  /** An accepted capability of an attached runner; `facts` are its other frozen fields. */
  datatype Capability = Capability(localId: string, capabilityId: string, protocol: string,
                                   identity: map<string, string>, facts: string, extensions: map<string, string>)

  /** The frozen projection. Its hash is taken as injective, so a shape's hash is represented by the shape. */
  datatype Projection = Projection(protocol: string, identity: map<string, string>, facts: string,
                                   promoted: map<string, string>)

  datatype Offer = Offer(id: string, capability: string, protocol: string, wanted: map<string, string>,
                         extraFromRunner: set<string>)

  datatype Snapshot = Snapshot(connected: bool, capabilities: seq<Capability>)
  type Registry = map<string, Snapshot>

  /** A certifier's answer is passed, or pending, or neither. */
  datatype CertOutcome = Passed(runId: string) | Pending(runId: string) | Failed(runId: string, reason: string)

  datatype Reason = CertReason(text: string) | ShapeMismatch(expected: Projection, declared: Projection)

  datatype PairState = Attached | Matched | Eligible | Ineligible

  datatype PairKey = PairKey(host: string, local: string, offer: string)

  datatype Pair = Pair(state: PairState, since: int, reason: Option<Reason>, cert: Option<CertOutcome>,
                       hash: Option<Projection>)

  datatype FrozenBy = FrozenBy(host: string, local: string, runId: string)
  datatype Frozen = Frozen(hash: Projection, projection: Projection, frozenAt: int, frozenBy: FrozenBy)

  datatype OfferState = OfferState(frozen: Option<Frozen>, pending: Option<Frozen>, disabled: bool)

  datatype Engine = Engine(offers: map<string, Offer>, states: map<string, OfferState>, pairs: map<PairKey, Pair>,
                           revision: string)

  const UNFROZEN: OfferState := OfferState(None, None, false)

  function Project(c: Capability, promoted: set<string>): Projection {
    Projection(c.protocol, c.identity, c.facts, map k | k in promoted && k in c.extensions :: c.extensions[k])
  }

  const IDENTITY_PREFIX: string := "identity."

  function TrimIdentity(k: string): string {
    if IDENTITY_PREFIX <= k then k[|IDENTITY_PREFIX|..] else k
  }

  /** An absent identity key reads as the empty string. */
  predicate Matches(o: Offer, c: Capability) {
    && o.capability == c.capabilityId && o.protocol == c.protocol
    && forall k :: k in o.wanted ==>
         o.wanted[k] == if TrimIdentity(k) in c.identity then c.identity[TrimIdentity(k)] else ""
  }

  /** The shape eligibility is judged against: the accepted one while superseding, else the frozen one. */
  function Judging(st: OfferState): Option<Frozen> {
    if st.pending != None then st.pending else st.frozen
  }

  // ---- one pair ----

  /** The pair as matched with the current shape: a changed shape is a new runner, and loses its certification. */
  function Rejoined(known: Option<Pair>, hash: Projection, now: int): Pair {
    var p := if known == None then Pair(Attached, now, None, None, None) else known.value;
    var q := if p.hash != None && p.hash != Some(hash) then p.(state := Attached, cert := None, since := now) else p;
    var r := q.(hash := Some(hash), reason := None);
    if r.state == Attached then r.(state := Matched, since := now) else r
  }

  datatype Evaluation = Evaluation(pair: Pair, state: OfferState)

  function Evaluate(known: Option<Pair>, key: PairKey, hash: Projection, st: OfferState, answer: CertOutcome,
                    now: int): Evaluation
  {
    var joined := Rejoined(known, hash, now);
    var cert := if joined.cert == None then answer else joined.cert.value;
    var p := joined.(cert := Some(cert));
    match cert
    case Pending(_) => Evaluation(p, st)
    case Failed(_, reason) => Evaluation(p.(state := Matched, reason := Some(CertReason(reason))), st)
    case Passed(runId) =>
      if Judging(st) == None then
        Evaluation(p.(state := Eligible, since := now),
                   st.(frozen := Some(Frozen(hash, hash, now, FrozenBy(key.host, key.local, runId)))))
      else
        var judging := Judging(st).value;
        if judging.hash == hash then
          Evaluation(if p.state == Eligible then p else p.(state := Eligible, since := now), st)
        else
          Evaluation(p.(state := Ineligible, since := if p.state == Ineligible then p.since else now,
                        reason := Some(ShapeMismatch(judging.projection, hash))), st)
  }

  // ---- rematching, in any order ----

  /** One stop of a rematch: a connected capability against an offer it matches. */
  datatype Visit = Visit(key: PairKey, capability: Capability)

  predicate IsLive(reg: Registry, offers: map<string, Offer>, v: Visit) {
    && v.key.host in reg && reg[v.key.host].connected && v.capability in reg[v.key.host].capabilities
    && v.key.local == v.capability.localId && v.key.offer in offers && Matches(offers[v.key.offer], v.capability)
  }

  /** A rematch covers every host, or one. */
  datatype Scope = Everyone | OneHost(host: string)

  /** A rematch asked for with no host named covers them all. */
  function ScopeOf(host: string): Scope {
    if host == "" then Everyone else OneHost(host)
  }

  predicate InScope(scope: Scope, host: string) {
    scope == Everyone || scope == OneHost(host)
  }

  /** The walk stops at exactly the live combinations in scope, in whatever order, repeats allowed. */
  ghost predicate IsWalk(reg: Registry, offers: map<string, Offer>, scope: Scope, walk: seq<Visit>) {
    && (forall v :: v in walk ==> IsLive(reg, offers, v) && InScope(scope, v.key.host))
    && (forall v :: IsLive(reg, offers, v) && InScope(scope, v.key.host) ==> v in walk)
  }

  function ShapeOf(e: Engine, v: Visit): Projection
    requires v.key.offer in e.offers
  {
    Project(v.capability, e.offers[v.key.offer].extraFromRunner)
  }

  function LookupPair(e: Engine, key: PairKey): Option<Pair> {
    if key in e.pairs then Some(e.pairs[key]) else None
  }

  predicate Stateful(e: Engine) {
    e.offers.Keys <= e.states.Keys
  }

  function StopAt(e: Engine, v: Visit, answers: PairKey -> CertOutcome, now: int): (e': Engine)
    requires Stateful(e) && v.key.offer in e.offers
    ensures Stateful(e') && e'.offers == e.offers
  {
    var evaluated := Evaluate(LookupPair(e, v.key), v.key, ShapeOf(e, v), e.states[v.key.offer], answers(v.key), now);
    e.(pairs := e.pairs[v.key := evaluated.pair], states := e.states[v.key.offer := evaluated.state])
  }

  function WalkAll(e: Engine, walk: seq<Visit>, answers: PairKey -> CertOutcome, now: int): (e': Engine)
    requires Stateful(e) && forall v :: v in walk ==> v.key.offer in e.offers
    ensures Stateful(e') && e'.offers == e.offers
  {
    if walk == [] then e
    else StopAt(WalkAll(e, walk[..|walk| - 1], answers, now), walk[|walk| - 1], answers, now)
  }

  /** Drop the pairs in scope that the walk did not stop at. */
  function Prune(e: Engine, scope: Scope, walk: seq<Visit>): Engine {
    e.(pairs := map k | k in e.pairs && (!InScope(scope, k.host) || k in VisitedKeys(walk)) :: e.pairs[k])
  }

  function VisitedKeys(walk: seq<Visit>): set<PairKey> {
    set v | v in walk :: v.key
  }

  function Rematch(e: Engine, scope: Scope, walk: seq<Visit>, answers: PairKey -> CertOutcome, now: int): Engine
    requires Stateful(e) && forall v :: v in walk ==> v.key.offer in e.offers
  {
    Prune(WalkAll(e, walk, answers, now), scope, walk)
  }

  // ---- operator calls, up to the rematch they end with ----

  function OffersById(list: seq<Offer>): map<string, Offer> {
    if list == [] then map[] else OffersById(list[..|list| - 1])[list[|list| - 1].id := list[|list| - 1]]
  }

  /** A pushed entry for this id is not the offer held, or the held offer is not pushed at all. */
  predicate Differs(offers: map<string, Offer>, list: seq<Offer>, id: string) {
    Replaces(offers, list, id) || (id in offers && !Lists(list, id))
  }

  predicate Lists(list: seq<Offer>, id: string) {
    exists i :: 0 <= i < |list| && list[i].id == id
  }

  predicate Replaces(offers: map<string, Offer>, list: seq<Offer>, id: string) {
    exists i :: 0 <= i < |list| && list[i].id == id && !(id in offers && offers[id] == list[i])
  }

  predicate SameOffers(offers: map<string, Offer>, list: seq<Offer>) {
    && (forall i :: 0 <= i < |list| ==> list[i].id in offers && offers[list[i].id] == list[i])
    && (forall id :: id in offers ==> Lists(list, id))
  }

  /** Replace the offers: dropped offers lose their state and pairs, new ones start unfrozen. */
  function SetOffers(e: Engine, next: map<string, Offer>, revision: string): Engine {
    var dropped := e.offers.Keys - next.Keys;
    var kept := e.states - dropped;
    Engine(next,
           map o | o in kept.Keys + next.Keys :: if o in kept then kept[o] else UNFROZEN,
           map k | k in e.pairs && k.offer !in dropped :: e.pairs[k],
           if revision == "" then e.revision else revision)
  }

  /** A certified pair of this shape, which is not the judged one. */
  predicate IsMismatched(e: Engine, offer: string, hash: Projection, key: PairKey) {
    && key in e.pairs && key.offer == offer && offer in e.states
    && e.pairs[key].cert != None && e.pairs[key].cert.value.Passed? && e.pairs[key].hash == Some(hash)
    && (Judging(e.states[offer]) == None || Judging(e.states[offer]).value.hash != hash)
  }

  /** Such a pair whose runner is still declared, so that its projection can be read. */
  predicate IsCandidate(e: Engine, reg: Registry, offer: string, hash: Projection, key: PairKey) {
    && IsMismatched(e, offer, hash, key)
    && key.host in reg
    && exists i :: 0 <= i < |reg[key.host].capabilities| && reg[key.host].capabilities[i].localId == key.local
  }

  /** The keys an offer promotes; an offer that is not held promotes none. */
  function Promoted(e: Engine, offer: string): set<string> {
    if offer in e.offers then e.offers[offer].extraFromRunner else {}
  }

  /** The first declared capability with this local id. */
  function CapabilityFor(capabilities: seq<Capability>, local: string): Option<Capability> {
    if capabilities == [] then None
    else if capabilities[0].localId == local then Some(capabilities[0])
    else CapabilityFor(capabilities[1..], local)
  }

  function Accepted(e: Engine, offer: string, hash: Projection, projection: Projection, key: PairKey, now: int): Engine
    requires offer in e.states && key in e.pairs && e.pairs[key].cert != None
  {
    var runner := FrozenBy(key.host, key.local, e.pairs[key].cert.value.runId);
    e.(states := e.states[offer := e.states[offer].(pending := Some(Frozen(hash, projection, now, runner)))])
  }

  function Confirmed(e: Engine, offer: string, hash: Projection): Engine
    requires offer in e.states
  {
    var st := e.states[offer];
    if st.pending != None && st.pending.value.hash == hash
    then e.(states := e.states[offer := st.(frozen := st.pending, pending := None)])
    else e
  }

  function Certified(e: Engine, key: PairKey, outcome: CertOutcome): Engine {
    if key in e.pairs then e.(pairs := e.pairs[key := e.pairs[key].(cert := Some(outcome))]) else e
  }

  /** What dispatch may use: passed pairs of the published shape. */
  function EligiblePairs(e: Engine, offer: string): set<PairKey> {
    if offer !in e.states || e.states[offer].frozen == None then {}
    else PassedWith(e, offer, e.states[offer].frozen.value.hash)
  }

  function PassedWith(e: Engine, offer: string, hash: Projection): set<PairKey> {
    set k | && k in e.pairs && k.offer == offer && e.pairs[k].cert != None && e.pairs[k].cert.value.Passed?
            && e.pairs[k].hash == Some(hash)
  }

  // ---- runs ----

  datatype World = World(engine: Engine, registry: Registry)

  datatype Op =
    | AttachOp(host: string, snapshot: Option<Snapshot>)
    | CertifyOp(key: PairKey, outcome: CertOutcome)
    | PushOp(revision: string, list: seq<Offer>)
    | AcceptOp(offer: string, hash: Projection, sample: PairKey, runner: PairKey)
    | ConfirmOp(offer: string, hash: Projection)
    | DisableOp(offer: string, disabled: bool)

  datatype Rematching = NoRematch | RematchIn(scope: Scope)
  datatype Prepared = Prepared(world: World, rematching: Rematching)

  /** The call's own change, and the rematch it ends with. */
  function Prepare(w: World, op: Op, now: int): Prepared {
    var e, reg := w.engine, w.registry;
    match op
    case AttachOp(host, snapshot) =>
      var reg' := if snapshot == None then reg - {host} else reg[host := snapshot.value];
      Prepared(World(e, reg'), RematchIn(ScopeOf(host)))
    case CertifyOp(key, outcome) => Prepared(World(Certified(e, key, outcome), reg), RematchIn(ScopeOf(key.host)))
    case PushOp(revision, list) =>
      if SameOffers(e.offers, list) && e.revision == revision then Prepared(w, NoRematch)
      else Prepared(World(SetOffers(e, OffersById(list), revision), reg), RematchIn(Everyone))
    case AcceptOp(offer, hash, sample, runner) =>
      if !IsCandidate(e, reg, offer, hash, sample) || !IsMismatched(e, offer, hash, runner) then Prepared(w, NoRematch)
      else
        var capability := CapabilityFor(reg[sample.host].capabilities, sample.local);
        if capability == None then Prepared(w, NoRematch)
        else
          var projection := Project(capability.value, Promoted(e, offer));
          Prepared(World(Accepted(e, offer, hash, projection, runner, now), reg), RematchIn(Everyone))
    case ConfirmOp(offer, hash) =>
      if offer !in e.states then Prepared(w, NoRematch)
      else Prepared(World(Confirmed(e, offer, hash), reg), RematchIn(Everyone))
    case DisableOp(offer, disabled) =>
      if offer !in e.states then Prepared(w, NoRematch)
      else Prepared(World(e.(states := e.states[offer := e.states[offer].(disabled := disabled)]), reg), NoRematch)
  }

  /** What the world decides during a call: the order the maps are walked in, the certifier's answers, the time. */
  datatype Choice = Choice(walk: seq<Visit>, answers: PairKey -> CertOutcome, now: int)

  ghost predicate Allowed(w: World, op: Op, choice: Choice) {
    && Stateful(w.engine)
    && var p := Prepare(w, op, choice.now);
    && Stateful(p.world.engine)
    && (p.rematching != NoRematch ==> IsWalk(p.world.registry, p.world.engine.offers, p.rematching.scope, choice.walk))
  }

  ghost function Step(w: World, op: Op, choice: Choice): World
    requires Allowed(w, op, choice)
  {
    var p := Prepare(w, op, choice.now);
    if p.rematching == NoRematch then p.world
    else p.world.(engine := Rematch(p.world.engine, p.rematching.scope, choice.walk, choice.answers, choice.now))
  }
}

/** The hash index is exact in every reachable store, and revocation is for good. */
module CredentialIndex {
  import opened Optional
  import opened Credentials

  /** The hash index resolves h to c, and h belongs to c. */
  ghost predicate Resolves(s: Store, owner: string -> string, h: string, c: string) {
    h != "" && h in s.byHash && s.byHash[h] == c && owner(h) == c
  }

  ghost predicate RecordIndexed(s: Store, owner: string -> string, c: string)
    requires c in s.records
  {
    var r := s.records[c];
    && r.id == c && r.kind == BEARER
    && (r.state == Revoked ==> r.hash == "" && r.rotation == None)
    && (r.state != Revoked ==> Resolves(s, owner, r.hash, c))
    && (r.state != Revoked && r.rotation != None ==> Resolves(s, owner, r.rotation.value.previous, c))
  }

  /** Stale index entries are allowed, but only under the credential that owns the hash. */
  ghost predicate EntriesOwned(s: Store, owner: string -> string) {
    forall h :: h in s.byHash ==> owner(h) == s.byHash[h]
  }

  ghost predicate OthersIndexed(s: Store, owner: string -> string, except: set<string>) {
    && EntriesOwned(s, owner)
    && forall c {:trigger RecordIndexed(s, owner, c)} :: c in s.records && c !in except ==> RecordIndexed(s, owner, c)
  }

  ghost predicate Indexed(s: Store, owner: string -> string) {
    OthersIndexed(s, owner, {})
  }

  // ---- preservation ----

  /** Dropping hashes that belong to c disturbs no other credential. */
  lemma DropKeepsOthers(s: Store, owner: string -> string, c: string, stale: set<string>)
    requires Indexed(s, owner) && forall h :: h in stale ==> owner(h) == c
    ensures OthersIndexed(s.(byHash := s.byHash - stale), owner, {c})
  {
    var s' := s.(byHash := s.byHash - stale);
    forall d | d in s'.records && d != c
      ensures RecordIndexed(s', owner, d)
    {
      assert RecordIndexed(s, owner, d);
    }
  }

  /** Writing a closed record, or a live one whose secrets belong to it, restores the index. */
  lemma PutKeeps(s: Store, owner: string -> string, r: Record)
    requires OthersIndexed(s, owner, {r.id}) && r.kind == BEARER
    requires r.state == Revoked ==> r.hash == "" && r.rotation == None
    requires r.state != Revoked ==> r.hash != "" && owner(r.hash) == r.id
    requires r.rotation != None ==> r.rotation.value.previous != "" && owner(r.rotation.value.previous) == r.id
    ensures Indexed(Put(s, r), owner)
  {
    var s' := Put(s, r);
    forall d | d in s'.records
      ensures RecordIndexed(s', owner, d)
    {
      if d != r.id {
        assert RecordIndexed(s, owner, d);
      }
    }
  }

  lemma RevokeKeeps(s: Store, owner: string -> string, ids: set<string>, now: int)
    requires Indexed(s, owner) && ids <= s.records.Keys
    ensures Indexed(Revoke(s, ids, now), owner)
  {
    var s' := Revoke(s, ids, now);
    forall d | d in s'.records
      ensures RecordIndexed(s', owner, d)
    {
      assert RecordIndexed(s, owner, d);
      forall c | c in ids ensures RecordIndexed(s, owner, c) {}
    }
  }

  lemma ApplyEntryKeeps(s: Store, owner: string -> string, options: Options, e: SyncEntry, revision: string, now: int)
    requires Indexed(s, owner) && EntryError(e) == None && (e.revoked || owner(e.hash) == e.id)
    ensures var applied := ApplyEntry(s, options, e, revision, now); applied.Ok? ==> Indexed(applied.store, owner)
  {
    var verdict := Judge(options, Lookup(s, e.id), e, revision, now);
    if verdict.Write? {
      assert e.id in s.records ==> RecordIndexed(s, owner, e.id);
      DropKeepsOthers(s, owner, e.id, verdict.stale);
      PutKeeps(s.(byHash := s.byHash - verdict.stale), owner, verdict.record);
    }
  }

  ghost predicate EntriesRespect(entries: seq<SyncEntry>, owner: string -> string) {
    forall i :: 0 <= i < |entries| ==> entries[i].revoked || owner(entries[i].hash) == entries[i].id
  }

  lemma {:induction false} ApplyEntriesKeeps(s: Store, owner: string -> string, options: Options,
                                             entries: seq<SyncEntry>, revision: string, now: int)
    requires Indexed(s, owner) && PushError(entries) == None && EntriesRespect(entries, owner)
    ensures var applied := ApplyEntries(s, options, entries, revision, now);
            applied.Ok? ==> Indexed(applied.store, owner)
    decreases |entries|
  {
    if entries != [] {
      var earlier := entries[..|entries| - 1];
      ApplyEntriesKeeps(s, owner, options, earlier, revision, now);
      var applied := ApplyEntries(s, options, earlier, revision, now);
      if applied.Ok? {
        ApplyEntryKeeps(applied.store, owner, options, entries[|entries| - 1], revision, now);
      }
    }
  }

  /** The one assumption about the world: a secret, minted or pushed, belongs to one credential, and minted ids are
      new. */
  ghost predicate Respects(s: Store, owner: string -> string, op: Op) {
    match op
    case EnrollOp(_, minted) => minted.id !in s.records && owner(minted.token) == minted.id
    case RotateOp(id, _, token) => owner(token) == id
    case SyncOp(_, entries) => EntriesRespect(entries, owner)
    case _ => true
  }

  lemma AuthenticateKeeps(s: Store, owner: string -> string, presented: Option<Sha>, now: int)
    requires Indexed(s, owner)
    ensures Indexed(Authenticate(s, presented, now).store, owner)
  {
    if Authenticate(s, presented, now).record != None {
      var c := s.byHash[presented.value];
      var r := s.records[c];
      assert RecordIndexed(s, owner, c);
      var retired := if GraceElapsed(r, now) then {r.rotation.value.previous} else {};
      DropKeepsOthers(s, owner, c, retired);
      PutKeeps(s.(byHash := s.byHash - retired), owner, Used(r, now));
    }
  }

  lemma RotateKeeps(s: Store, owner: string -> string, options: Options, id: string, grace: int, now: int, token: Sha)
    requires Indexed(s, owner) && owner(token) == id
    ensures Indexed(Rotate(s, options, id, grace, now, token).store, owner)
  {
    if Rotate(s, options, id, grace, now, token).result != None {
      var r := s.records[id];
      assert RecordIndexed(s, owner, id);
      var oldest := if r.rotation != None then {r.rotation.value.previous} else {};
      DropKeepsOthers(s, owner, id, oldest);
      PutKeeps(s.(byHash := s.byHash - oldest), owner, Rotated(options, r, grace, now, token));
    }
  }

  lemma RevokeDeviceKeeps(s: Store, owner: string -> string, pool: string, host: string, device: string,
                          generation: nat, reason: string)
    requires Indexed(s, owner)
    ensures Indexed(RevokeDevice(s, pool, host, device, generation, reason).store, owner)
  {
    var s' := RevokeDevice(s, pool, host, device, generation, reason).store;
    if s' != s {
      var c := s.byHost[host];
      assert RecordIndexed(s, owner, c);
      var s1 := s.(fences := s.fences[FenceKey(pool, host, device) := generation]);
      forall d | d in s1.records
        ensures RecordIndexed(s1, owner, d)
      {
        assert RecordIndexed(s, owner, d);
      }
      PutKeeps(s1, owner, s.records[c]);
    }
  }

  lemma StepKeeps(s: Store, owner: string -> string, options: Options, op: Op, now: int)
    requires Indexed(s, owner) && Respects(s, owner, op)
    ensures Indexed(Apply(s, options, op, now), owner)
  {
    match op
    case EnrollOp(req, minted) =>
      DropKeepsOthers(s, owner, minted.id, {});
      assert s.(byHash := s.byHash - {}) == s;
      PutKeeps(s, owner, NewRecord(options, req, minted, now));
      EnrollStores(s, owner, options, req, minted, now);
    case AuthenticateOp(presented) => AuthenticateKeeps(s, owner, presented, now);
    case RotateOp(id, grace, token) => RotateKeeps(s, owner, options, id, grace, now, token);
    case RevokeOp(id) => if id in s.records { RevokeKeeps(s, owner, {id}, now); }
    case SyncOp(revision, entries) => SyncKeeps(s, owner, options, revision, entries, now);
    case RevokeDeviceOp(pool, host, device, generation, reason) =>
      RevokeDeviceKeeps(s, owner, pool, host, device, generation, reason);
  }

  /** The replay log and the revision stamp are not part of the index. */
  lemma StampKeeps(s: Store, owner: string -> string, replays: map<string, Enrollment>, revision: string)
    requires Indexed(s, owner)
    ensures Indexed(s.(replays := replays, revision := revision), owner)
  {
    var s' := s.(replays := replays, revision := revision);
    forall d | d in s'.records
      ensures RecordIndexed(s', owner, d)
    {
      assert RecordIndexed(s, owner, d);
    }
  }

  lemma EnrollStores(s: Store, owner: string -> string, options: Options, req: EnrollRequest, minted: Minted, now: int)
    requires Indexed(s, owner) && Indexed(Put(s, NewRecord(options, req, minted, now)), owner)
    ensures Indexed(Enroll(s, options, req, minted, now).store, owner)
  {
    var s1 := Put(s, NewRecord(options, req, minted, now));
    StampKeeps(s1, owner, Enroll(s, options, req, minted, now).store.replays, s1.revision);
  }

  lemma SyncKeeps(s: Store, owner: string -> string, options: Options, revision: string, entries: seq<SyncEntry>,
                  now: int)
    requires Indexed(s, owner) && EntriesRespect(entries, owner)
    ensures Indexed(SyncReplace(s, options, revision, entries, now).store, owner)
  {
    if SyncReplace(s, options, revision, entries, now).error == None {
      var s1 := Revoke(s, Dropped(s, entries), now);
      RevokeKeeps(s, owner, Dropped(s, entries), now);
      ApplyEntriesKeeps(s1, owner, options, entries, revision, now);
      var s2 := ApplyEntries(s1, options, entries, revision, now).store;
      StampKeeps(s2, owner, s2.replays, revision);
    }
  }

  ghost predicate RunRespects(s: Store, owner: string -> string, options: Options, events: seq<Event>) {
    events == [] ||
    (var before := events[..|events| - 1];
     RunRespects(s, owner, options, before) && Respects(Run(s, options, before), owner, events[|events| - 1].op))
  }

  lemma {:induction false} RunKeeps(s: Store, owner: string -> string, options: Options, events: seq<Event>)
    requires Indexed(s, owner) && RunRespects(s, owner, options, events)
    ensures Indexed(Run(s, options, events), owner)
    decreases |events|
  {
    if events != [] {
      var before, last := events[..|events| - 1], events[|events| - 1];
      RunKeeps(s, owner, options, before);
      StepKeeps(Run(s, options, before), owner, options, last.op, last.now);
    }
  }

  // ---- authentication is a scan ----

  /** When a secret opens a record that is not revoked: the current one until the record expires, the one before it
      until the overlap ends. */
  ghost predicate Opens(r: Record, h: string, now: int) {
    && r.state != Revoked
    && (|| (r.hash == h && now < r.expiresAt)
        || (r.hash != h && r.rotation.Some? && r.rotation.value.previous == h && now < r.rotation.value.until))
  }

  /** The record as its holder gets it: used now, without an overlap that has ended, without fenced devices. */
  ghost predicate IsAnswer(fences: map<FenceKey, nat>, r: Record, out: Record, now: int) {
    var ended := r.rotation.Some? && r.rotation.value.until <= now;
    && out.lastUsedAt == now && out.rotation == (if ended then None else r.rotation)
    && out.state == (if ended then Active else r.state)
    && (forall d :: d in out.devices <==>
          d in r.devices && (FenceKey(r.pool, r.host, d) in fences ==>
                               fences[FenceKey(r.pool, r.host, d)] < r.devices[d]))
    && (forall d :: d in out.devices ==> out.devices[d] == r.devices[d])
    && out == r.(lastUsedAt := now, rotation := out.rotation, state := out.state, devices := out.devices)
  }

  lemma UsedIsAnswer(fences: map<FenceKey, nat>, r: Record, now: int)
    ensures IsAnswer(fences, r, Filtered(fences, Used(r, now)), now)
  {
  }

  /** A lookup that ends at the holder of a secret opens exactly as the record says. */
  lemma HolderAnswers(s: Store, presented: Sha, now: int, c: string)
    requires c in s.records && s.records[c].kind == BEARER && presented in s.byHash && s.byHash[presented] == c
    ensures var answer := Authenticate(s, Some(presented), now).record;
            && (answer.Some? <==> Opens(s.records[c], presented, now))
            && (answer.Some? ==> IsAnswer(s.fences, s.records[c], answer.value, now))
  {
    UsedIsAnswer(s.fences, s.records[c], now);
    hide Put, Filtered, Used, IsAnswer;
  }

  /** In every reachable store the index lookup accepts a token exactly when it opens some record, stale entries
      notwithstanding, and answers with that record. */
  lemma AuthenticateIsAScan(owner: string -> string, options: Options, events: seq<Event>, presented: Sha, now: int)
    requires RunRespects(EMPTY, owner, options, events)
    ensures var s := Run(EMPTY, options, events);
            var answer := Authenticate(s, Some(presented), now).record;
            && (answer.Some? <==> exists c :: c in s.records && Opens(s.records[c], presented, now))
            && forall c :: c in s.records && Opens(s.records[c], presented, now) ==>
                 answer.Some? && IsAnswer(s.fences, s.records[c], answer.value, now)
  {
    var s := Run(EMPTY, options, events);
    RunKeeps(EMPTY, owner, options, events);
    forall c | c in s.records && Opens(s.records[c], presented, now)
      ensures presented in s.byHash && s.byHash[presented] == c
    {
      assert RecordIndexed(s, owner, c);
    }
    if presented in s.byHash && s.byHash[presented] in s.records {
      assert RecordIndexed(s, owner, s.byHash[presented]);
      HolderAnswers(s, presented, now, s.byHash[presented]);
    }
  }

  // ---- revocation is for good, generations only grow ----

  /** A credential that no push can bring back: locally enrolled, or synced under a generation. */
  ghost predicate Buried(s: Store, c: string) {
    && c in s.records && s.records[c].state == Revoked
    && (s.records[c].source == Enrolled || s.records[c].generation != 0)
  }

  lemma EntryKeepsBuried(s: Store, options: Options, e: SyncEntry, revision: string, now: int, c: string)
    requires ApplyEntry(s, options, e, revision, now).Ok? && c in s.records
    requires forall d :: d in s.records ==> s.records[d].id == d
    ensures var s' := ApplyEntry(s, options, e, revision, now).store;
            && c in s'.records && (forall d :: d in s'.records ==> s'.records[d].id == d)
            && (Buried(s, c) ==> Buried(s', c))
            && s.records[c].generation <= s'.records[c].generation && s'.records[c].source == s.records[c].source
            && (s.records[c].generation != 0 && s.records[c].generation == s'.records[c].generation ==>
                  s'.records[c].hash == s.records[c].hash)
  {
    hide IndexSecrets, IndexHost, FilterDevices;
  }

  lemma {:induction false} EntriesKeepBuried(s: Store, options: Options, entries: seq<SyncEntry>, revision: string,
                                             now: int, c: string)
    requires ApplyEntries(s, options, entries, revision, now).Ok? && c in s.records
    requires forall d :: d in s.records ==> s.records[d].id == d
    ensures var s' := ApplyEntries(s, options, entries, revision, now).store;
            && c in s'.records && (forall d :: d in s'.records ==> s'.records[d].id == d)
            && (Buried(s, c) ==> Buried(s', c))
            && s.records[c].generation <= s'.records[c].generation && s'.records[c].source == s.records[c].source
            && (s.records[c].generation != 0 && s.records[c].generation == s'.records[c].generation ==>
                  s'.records[c].hash == s.records[c].hash)
    decreases |entries|
  {
    if entries != [] {
      var earlier := entries[..|entries| - 1];
      EntriesKeepBuried(s, options, earlier, revision, now, c);
      EntryKeepsBuried(ApplyEntries(s, options, earlier, revision, now).store, options, entries[|entries| - 1],
                       revision, now, c);
    }
  }

  /** A push never lowers a generation, never revives a buried credential, and never changes the secret of a
      credential that stays live within one nonzero generation. */
  lemma SyncRespectsGenerations(s: Store, owner: string -> string, options: Options, revision: string,
                                entries: seq<SyncEntry>, now: int, c: string)
    requires Indexed(s, owner) && c in s.records
    ensures var s' := SyncReplace(s, options, revision, entries, now).store;
            && c in s'.records && s.records[c].generation <= s'.records[c].generation
            && (Buried(s, c) ==> Buried(s', c))
            && (s.records[c].generation != 0 && s.records[c].generation == s'.records[c].generation
                && s'.records[c].state != Revoked ==>
                  s'.records[c].hash == s.records[c].hash)
  {
    if SyncReplace(s, options, revision, entries, now).error == None {
      assert forall d :: d in s.records ==> RecordIndexed(s, owner, d) && s.records[d].id == d;
      var s1 := Revoke(s, Dropped(s, entries), now);
      EntriesKeepBuried(s1, options, entries, revision, now, c);
      if s.records[c].state != Revoked && s1.records[c].state == Revoked && s1.records[c].generation != 0 {
        assert Buried(s1, c);
      }
    }
  }

  /** Writing one record leaves the others alone. */
  lemma PutKeepsBuried(s: Store, byHash: map<string, string>, fences: map<FenceKey, nat>, r: Record, c: string)
    requires c in s.records
    requires r.id == c ==> (s.records[c].state == Revoked ==> r.state == Revoked) && r.source == s.records[c].source
                           && r.generation == s.records[c].generation
    ensures var s' := Put(s.(byHash := byHash, fences := fences), r);
            c in s'.records && s.records[c].generation <= s'.records[c].generation && (Buried(s, c) ==> Buried(s', c))
  {
  }

  lemma AuthenticateKeepsBuried(s: Store, owner: string -> string, presented: Option<Sha>, now: int, c: string)
    requires Indexed(s, owner) && c in s.records
    ensures var s' := Authenticate(s, presented, now).store;
            c in s'.records && s.records[c].generation <= s'.records[c].generation && (Buried(s, c) ==> Buried(s', c))
  {
    if Authenticate(s, presented, now).record != None {
      var r := s.records[s.byHash[presented.value]];
      assert RecordIndexed(s, owner, s.byHash[presented.value]);
      var retired := if GraceElapsed(r, now) then {r.rotation.value.previous} else {};
      PutKeepsBuried(s, s.byHash - retired, s.fences, Used(r, now), c);
    }
  }

  lemma RotateKeepsBuried(s: Store, owner: string -> string, options: Options, id: string, grace: int, now: int,
                          token: Sha, c: string)
    requires Indexed(s, owner) && c in s.records
    ensures var s' := Rotate(s, options, id, grace, now, token).store;
            c in s'.records && s.records[c].generation <= s'.records[c].generation && (Buried(s, c) ==> Buried(s', c))
  {
    if Rotate(s, options, id, grace, now, token).result != None {
      var r := s.records[id];
      assert RecordIndexed(s, owner, id);
      var oldest := if r.rotation != None then {r.rotation.value.previous} else {};
      PutKeepsBuried(s, s.byHash - oldest, s.fences, Rotated(options, r, grace, now, token), c);
    }
  }

  lemma EnrollKeepsBuried(s: Store, options: Options, req: EnrollRequest, minted: Minted, now: int, c: string)
    requires c in s.records && minted.id !in s.records
    ensures var s' := Enroll(s, options, req, minted, now).store;
            c in s'.records && s.records[c].generation <= s'.records[c].generation && (Buried(s, c) ==> Buried(s', c))
  {
    PutKeepsBuried(s, s.byHash, s.fences, NewRecord(options, req, minted, now), c);
  }

  lemma FenceKeepsBuried(s: Store, owner: string -> string, pool: string, host: string, device: string,
                         generation: nat, reason: string, c: string)
    requires Indexed(s, owner) && c in s.records
    ensures var s' := RevokeDevice(s, pool, host, device, generation, reason).store;
            c in s'.records && s.records[c].generation <= s'.records[c].generation && (Buried(s, c) ==> Buried(s', c))
  {
    if RevokeDevice(s, pool, host, device, generation, reason).store != s {
      assert RecordIndexed(s, owner, s.byHost[host]);
      PutKeepsBuried(s, s.byHash, s.fences[FenceKey(pool, host, device) := generation], s.records[s.byHost[host]], c);
    }
  }

  lemma StepKeepsBuried(s: Store, owner: string -> string, options: Options, op: Op, now: int, c: string)
    requires Indexed(s, owner) && Respects(s, owner, op) && c in s.records
    ensures var s' := Apply(s, options, op, now);
            c in s'.records && s.records[c].generation <= s'.records[c].generation && (Buried(s, c) ==> Buried(s', c))
  {
    hide Indexed, Enroll, Authenticate, Rotate, SyncReplace, RevokeDevice;
    match op
    case EnrollOp(req, minted) => EnrollKeepsBuried(s, options, req, minted, now, c);
    case AuthenticateOp(presented) => AuthenticateKeepsBuried(s, owner, presented, now, c);
    case RotateOp(id, grace, token) => RotateKeepsBuried(s, owner, options, id, grace, now, token, c);
    case RevokeOp(id) => assert Apply(s, options, op, now).records.Keys == s.records.Keys;
    case SyncOp(revision, entries) => SyncRespectsGenerations(s, owner, options, revision, entries, now, c);
    case RevokeDeviceOp(pool, host, device, generation, reason) =>
      FenceKeepsBuried(s, owner, pool, host, device, generation, reason, c);
  }

  /** Once a locally enrolled or generation-qualified credential is revoked, no later run accepts any secret of
      its, whenever presented; and no run ever lowers a generation. */
  lemma {:induction false} RevokedForGood(s: Store, owner: string -> string, options: Options, events: seq<Event>,
                                          c: string, presented: Sha, now: int)
    requires Indexed(s, owner) && RunRespects(s, owner, options, events) && c in s.records
    ensures var s' := Run(s, options, events);
            && c in s'.records && s.records[c].generation <= s'.records[c].generation
            && (Buried(s, c) ==> Buried(s', c))
            && (Buried(s, c) && owner(presented) == c ==> Authenticate(s', Some(presented), now).record == None)
    decreases |events|
  {
    RunKeeps(s, owner, options, events);
    var s' := Run(s, options, events);
    if events != [] {
      var before, last := events[..|events| - 1], events[|events| - 1];
      RevokedForGood(s, owner, options, before, c, presented, now);
      RunKeeps(s, owner, options, before);
      StepKeepsBuried(Run(s, options, before), owner, options, last.op, last.now, c);
    }
    if presented in s'.byHash && s'.byHash[presented] in s'.records {
      assert RecordIndexed(s', owner, s'.byHash[presented]);
    }
  }

  // ---- enrollment replays ----

  lemma {:induction false} PushKeepsReplays(s: Store, options: Options, entries: seq<SyncEntry>, revision: string,
                                            now: int)
    ensures var applied := ApplyEntries(s, options, entries, revision, now);
            applied.Ok? ==> applied.store.replays == s.replays
    decreases |entries|
  {
    if entries != [] {
      PushKeepsReplays(s, options, entries[..|entries| - 1], revision, now);
    }
  }

  /** A recorded enrollment is answered from the record for good: the same request id returns the same record and
      secret after any run, and mints nothing. */
  lemma {:induction false} EnrollmentReplays(s: Store, options: Options, events: seq<Event>, req: EnrollRequest,
                                             minted: Minted, now: int)
    requires req.requestId != "" && req.requestId in s.replays && (req.kind == "" || req.kind == BEARER)
    ensures var t := Run(s, options, events);
            && req.requestId in t.replays
            && Enroll(t, options, req, minted, now) == EnrollStep(t, Some(s.replays[req.requestId]), None)
    decreases |events|
  {
    if events != [] {
      var before, last := events[..|events| - 1], events[|events| - 1];
      EnrollmentReplays(s, options, before, req, minted, now);
      StepKeepsReplays(Run(s, options, before), options, last.op, last.now, req.requestId);
    }
  }

  lemma StepKeepsReplays(s: Store, options: Options, op: Op, now: int, id: string)
    requires id in s.replays
    ensures var t := Apply(s, options, op, now); id in t.replays && t.replays[id] == s.replays[id]
  {
    if op.SyncOp? && SyncReplace(s, options, op.revision, op.entries, now).error == None {
      PushKeepsReplays(Revoke(s, Dropped(s, op.entries), now), options, op.entries, op.revision, now);
    }
  }
}

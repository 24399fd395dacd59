/** When the hash index resolves every live secret, with no assumption about who owns a hash. */
module CredentialSecrets {
  import opened Optional
  import opened Credentials
  import opened CredentialFates
  import opened CredentialIndex
  import opened CredentialSync

  ghost predicate SecretAt(byHash: map<string, string>, h: string, c: string) {
    h in byHash && byHash[h] == c
  }

  /** A record that is closed without secrets, or live with secrets that can be presented. */
  ghost predicate Shaped(r: Record, c: string) {
    && r.id == c && r.kind == BEARER
    && (r.state == Revoked ==> r.hash == "" && r.rotation == None)
    && (r.state != Revoked ==> r.hash != "" && (r.rotation != None ==> r.rotation.value.previous != ""))
  }

  /** The secrets of a live record resolve to it. */
  ghost predicate Found(byHash: map<string, string>, r: Record, c: string) {
    r.state != Revoked ==> forall h :: h in Secrets(r) ==> SecretAt(byHash, h, c)
  }

  ghost predicate Resolved(s: Store, c: string)
    requires c in s.records
  {
    Shaped(s.records[c], c) && Found(s.byHash, s.records[c], c)
  }

  ghost predicate OthersResolved(s: Store, except: string) {
    forall c {:trigger Resolved(s, c)} :: c in s.records && c != except ==> Resolved(s, c)
  }

  ghost predicate AllResolved(s: Store) {
    forall c {:trigger Resolved(s, c)} :: c in s.records ==> Resolved(s, c)
  }

  lemma ResolvedIdsMatch(s: Store)
    requires AllResolved(s)
    ensures IdsMatch(s)
  {
    forall c | c in s.records ensures s.records[c].id == c { assert Resolved(s, c); }
  }

  /** With every live secret resolved, the index accepts a token exactly when it opens some record, and answers with
      that record. */
  lemma ResolvedIsAScan(s: Store, presented: Sha, now: int)
    requires AllResolved(s)
    ensures var answer := Authenticate(s, Some(presented), now).record;
            && (answer.Some? <==> exists c :: c in s.records && Opens(s.records[c], presented, now))
            && forall c :: c in s.records && Opens(s.records[c], presented, now) ==>
                 answer.Some? && IsAnswer(s.fences, s.records[c], answer.value, now)
  {
    forall c | c in s.records && Opens(s.records[c], presented, now)
      ensures presented in s.byHash && s.byHash[presented] == c
    {
      assert Resolved(s, c);
      assert presented in Secrets(s.records[c]) && SecretAt(s.byHash, presented, c);
    }
    if presented in s.byHash && s.byHash[presented] in s.records {
      assert Resolved(s, s.byHash[presented]);
      HolderAnswers(s, presented, now, s.byHash[presented]);
    }
  }

  // ---- what the index holds after a push ----

  /** The verdict on an entry, judged on this store. */
  ghost function VerdictOf(s: Store, options: Options, e: SyncEntry, revision: string, now: int): Verdict {
    Judge(options, Lookup(s, e.id), e, revision, now)
  }

  /** Writing the entry gives the hash away or takes it from the index. */
  ghost predicate Touches(s: Store, options: Options, e: SyncEntry, revision: string, now: int, h: string) {
    var verdict := VerdictOf(s, options, e, revision, now);
    verdict.Write? && (e.hash == h || h in verdict.stale)
  }

  ghost function HashAfter(s: Store, options: Options, entries: seq<SyncEntry>, revision: string,
                           now: int): map<string, string>
  {
    if entries == [] then s.byHash
    else
      var earlier, e := HashAfter(s, options, entries[..|entries| - 1], revision, now), entries[|entries| - 1];
      var verdict := VerdictOf(s, options, e, revision, now);
      if verdict.Write? then (earlier - verdict.stale)[e.hash := e.id] else earlier
  }

  lemma EntryIndexes(u: Store, options: Options, e: SyncEntry, revision: string, now: int)
    requires ApplyEntry(u, options, e, revision, now).Ok? && EntryError(e) == None && IdsMatch(u)
    ensures var t, verdict := ApplyEntry(u, options, e, revision, now).store, VerdictOf(u, options, e, revision, now);
            t.byHash == if verdict.Write? then (u.byHash - verdict.stale)[e.hash := e.id] else u.byHash
  {
    assert VerdictOf(u, options, e, revision, now).Write? ==> !e.revoked && |e.hash| == 64;
  }

  lemma {:induction false} EntriesIndex(s: Store, options: Options, entries: seq<SyncEntry>, revision: string, now: int)
    requires DistinctIds(entries) && IdsMatch(s) && PushError(entries) == None
    requires ApplyEntries(s, options, entries, revision, now).Ok?
    ensures ApplyEntries(s, options, entries, revision, now).store.byHash
            == HashAfter(s, options, entries, revision, now)
    decreases |entries|
  {
    if entries != [] {
      var n := |entries| - 1;
      var earlier, e := entries[..n], entries[n];
      EntriesIndex(s, options, earlier, revision, now);
      EntriesActAlone(s, options, earlier, revision, now);
      assert e.id !in Ids(earlier);
      hide Judge;
      EntryIndexes(ApplyEntries(s, options, earlier, revision, now).store, options, e, revision, now);
    }
  }

  /** From place n on no entry touches the hash. */
  ghost predicate Untouched(s: Store, options: Options, entries: seq<SyncEntry>, revision: string, now: int, n: nat,
                            h: string)
  {
    forall j :: n <= j < |entries| ==> !Touches(s, options, entries[j], revision, now, h)
  }

  lemma UntouchedOneLess(s: Store, options: Options, entries: seq<SyncEntry>, revision: string, now: int, n: nat,
                         h: string)
    requires n < |entries|
    ensures Untouched(s, options, entries, revision, now, n, h)
            <==> Untouched(s, options, entries[..|entries| - 1], revision, now, n, h)
                 && !Touches(s, options, entries[|entries| - 1], revision, now, h)
  {
    var m := |entries| - 1;
    assert forall j :: 0 <= j < m ==> entries[..m][j] == entries[j];
  }

  /** A hash that no entry touches is indexed as before. A hash that an entry writes is indexed for it exactly when no
      later one touches it, ids being distinct; and a credential no entry writes keeps a hash exactly when none does. */
  lemma {:induction false} IndexAfter(s: Store, options: Options, entries: seq<SyncEntry>, revision: string, now: int,
                                      h: string, c: string)
    requires forall j :: 0 <= j < |entries| && entries[j].id == c ==> !Touches(s, options, entries[j], revision, now, h)
    ensures SecretAt(HashAfter(s, options, entries, revision, now), h, c)
            <==> SecretAt(s.byHash, h, c) && Untouched(s, options, entries, revision, now, 0, h)
    decreases |entries|
  {
    if entries != [] {
      var n := |entries| - 1;
      forall j | 0 <= j < n && entries[..n][j].id == c ensures !Touches(s, options, entries[..n][j], revision, now, h) {
        assert entries[..n][j] == entries[j];
      }
      IndexAfter(s, options, entries[..n], revision, now, h, c);
      UntouchedOneLess(s, options, entries, revision, now, 0, h);
      hide Judge;
    }
  }

  lemma {:induction false} IndexAfterWrite(s: Store, options: Options, entries: seq<SyncEntry>, revision: string,
                                           now: int, i: nat)
    requires DistinctIds(entries) && i < |entries| && VerdictOf(s, options, entries[i], revision, now).Write?
    ensures SecretAt(HashAfter(s, options, entries, revision, now), entries[i].hash, entries[i].id)
            <==> Untouched(s, options, entries, revision, now, i + 1, entries[i].hash)
    decreases |entries|
  {
    hide Judge;
    var n := |entries| - 1;
    if i < n {
      assert entries[..n][i] == entries[i];
      IndexAfterWrite(s, options, entries[..n], revision, now, i);
      UntouchedOneLess(s, options, entries, revision, now, i + 1, entries[i].hash);
    }
  }

  // ---- which pushes keep every live secret resolved ----

  ghost predicate WrittenBy(s: Store, options: Options, entries: seq<SyncEntry>, revision: string, now: int, c: string)
  {
    exists i :: 0 <= i < |entries| && entries[i].id == c && VerdictOf(s, options, entries[i], revision, now).Write?
  }

  /** No later entry takes a written secret, and none takes a secret of a live credential the push does not write. */
  ghost predicate SecretsApart(s: Store, options: Options, entries: seq<SyncEntry>, revision: string, now: int) {
    && (forall i :: 0 <= i < |entries| && VerdictOf(s, options, entries[i], revision, now).Write? ==>
          Untouched(s, options, entries, revision, now, i + 1, entries[i].hash))
    && (forall c, h :: c in s.records && s.records[c].state != Revoked && h in Secrets(s.records[c])
                       && !WrittenBy(s, options, entries, revision, now, c) ==>
          Untouched(s, options, entries, revision, now, 0, h))
  }

  lemma UnwrittenStays(s: Store, options: Options, entries: seq<SyncEntry>, revision: string, now: int, c: string)
    requires DistinctIds(entries) && IdsMatch(s) && ApplyEntries(s, options, entries, revision, now).Ok?
    requires !WrittenBy(s, options, entries, revision, now, c)
    ensures Lookup(ApplyEntries(s, options, entries, revision, now).store, c) == Lookup(s, c)
  {
    EntriesActAlone(s, options, entries, revision, now);
    var t := ApplyEntries(s, options, entries, revision, now).store;
    hide Judge, ApplyEntries;
    if c in Ids(entries) {
      var i :| 0 <= i < |entries| && entries[i].id == c;
      assert Landed(s, t, options, entries[i], revision, now);
    }
  }

  lemma WrittenLands(s: Store, options: Options, entries: seq<SyncEntry>, revision: string, now: int, i: nat)
    requires DistinctIds(entries) && IdsMatch(s) && ApplyEntries(s, options, entries, revision, now).Ok?
    requires i < |entries| && VerdictOf(s, options, entries[i], revision, now).Write? && EntryError(entries[i]) == None
    ensures var t, e := ApplyEntries(s, options, entries, revision, now).store, entries[i];
            && e.id in t.records && Shaped(t.records[e.id], e.id) && t.records[e.id].state != Revoked
            && t.records[e.id].hash == e.hash && t.records[e.id].rotation == None
  {
    EntriesActAlone(s, options, entries, revision, now);
    assert Landed(s, ApplyEntries(s, options, entries, revision, now).store, options, entries[i], revision, now);
  }

  lemma {:induction false} EveryEntryIsSound(entries: seq<SyncEntry>, i: nat)
    requires PushError(entries) == None && i < |entries|
    ensures EntryError(entries[i]) == None
    decreases |entries|
  {
    if i < |entries| - 1 {
      assert entries[..|entries| - 1][i] == entries[i];
      EveryEntryIsSound(entries[..|entries| - 1], i);
    }
  }

  /** Whether a written credential is resolved afterwards. */
  lemma WrittenIsResolved(s: Store, options: Options, entries: seq<SyncEntry>, revision: string, now: int, i: nat)
    requires DistinctIds(entries) && IdsMatch(s) && PushError(entries) == None
    requires ApplyEntries(s, options, entries, revision, now).Ok?
    requires i < |entries| && VerdictOf(s, options, entries[i], revision, now).Write?
    ensures var t := ApplyEntries(s, options, entries, revision, now).store;
            && entries[i].id in t.records
            && (Resolved(t, entries[i].id) <==> Untouched(s, options, entries, revision, now, i + 1, entries[i].hash))
  {
    EveryEntryIsSound(entries, i);
    WrittenLands(s, options, entries, revision, now, i);
    EntriesIndex(s, options, entries, revision, now);
    IndexAfterWrite(s, options, entries, revision, now, i);
    var t := ApplyEntries(s, options, entries, revision, now).store;
    assert Secrets(t.records[entries[i].id]) == {entries[i].hash};
  }

  /** Whether a credential the push does not write is. */
  lemma UnwrittenIsResolved(s: Store, options: Options, entries: seq<SyncEntry>, revision: string, now: int, c: string)
    requires DistinctIds(entries) && AllResolved(s) && PushError(entries) == None
    requires ApplyEntries(s, options, entries, revision, now).Ok?
    requires !WrittenBy(s, options, entries, revision, now, c) && c in s.records
    ensures var t := ApplyEntries(s, options, entries, revision, now).store;
            && c in t.records
            && (Resolved(t, c) <==>
                  s.records[c].state == Revoked
                  || forall h :: h in Secrets(s.records[c]) ==> Untouched(s, options, entries, revision, now, 0, h))
  {
    ResolvedIdsMatch(s);
    UnwrittenStays(s, options, entries, revision, now, c);
    EntriesIndex(s, options, entries, revision, now);
    assert Resolved(s, c);
    var t := ApplyEntries(s, options, entries, revision, now).store;
    hide Judge, ApplyEntries, HashAfter;
    assert t.records[c] == s.records[c];
    forall h | h in Secrets(s.records[c]) && s.records[c].state != Revoked
      ensures SecretAt(t.byHash, h, c) <==> Untouched(s, options, entries, revision, now, 0, h)
    {
      IndexAfter(s, options, entries, revision, now, h, c);
    }
  }

  lemma UnknownIsWritten(s: Store, options: Options, entries: seq<SyncEntry>, revision: string, now: int, c: string)
    requires DistinctIds(entries) && IdsMatch(s) && ApplyEntries(s, options, entries, revision, now).Ok?
    requires c in ApplyEntries(s, options, entries, revision, now).store.records && c !in s.records
    ensures WrittenBy(s, options, entries, revision, now, c)
  {
    if !WrittenBy(s, options, entries, revision, now, c) {
      UnwrittenStays(s, options, entries, revision, now, c);
    }
  }

  /** Entries with distinct ids keep every live secret resolved exactly when they keep the secrets apart. */
  lemma EntriesResolveExactlyWhenApart(s: Store, options: Options, entries: seq<SyncEntry>, revision: string, now: int)
    requires DistinctIds(entries) && AllResolved(s) && PushError(entries) == None
    requires ApplyEntries(s, options, entries, revision, now).Ok?
    ensures AllResolved(ApplyEntries(s, options, entries, revision, now).store)
            <==> SecretsApart(s, options, entries, revision, now)
  {
    hide ApplyEntries, Untouched, Resolved, VerdictOf, DistinctIds, IdsMatch, PushError;
    ResolvedIdsMatch(s);
    var t := ApplyEntries(s, options, entries, revision, now).store;
    forall i | 0 <= i < |entries| && VerdictOf(s, options, entries[i], revision, now).Write?
      ensures entries[i].id in t.records
      ensures Resolved(t, entries[i].id) <==> Untouched(s, options, entries, revision, now, i + 1, entries[i].hash)
    {
      WrittenIsResolved(s, options, entries, revision, now, i);
    }
    forall c | c in s.records && !WrittenBy(s, options, entries, revision, now, c)
      ensures c in t.records
      ensures Resolved(t, c) <==> s.records[c].state == Revoked
                                  || forall h :: h in Secrets(s.records[c]) ==>
                                       Untouched(s, options, entries, revision, now, 0, h)
    {
      UnwrittenIsResolved(s, options, entries, revision, now, c);
    }
    forall c | c in t.records && c !in s.records ensures WrittenBy(s, options, entries, revision, now, c) {
      UnknownIsWritten(s, options, entries, revision, now, c);
    }
  }

  lemma RevokeResolves(s: Store, ids: set<string>, now: int)
    requires AllResolved(s) && ids <= s.records.Keys
    ensures AllResolved(Revoke(s, ids, now))
  {
    var t := Revoke(s, ids, now);
    forall c | c in t.records ensures Resolved(t, c) {
      assert Resolved(s, c);
      forall d | d in ids ensures d in s.records && Resolved(s, d) { assert d in s.records.Keys; }
    }
  }

  /** A push with distinct ids keeps every live secret resolved exactly when it fails or keeps the secrets apart. */
  lemma PushResolvesExactlyWhenApart(s: Store, options: Options, revision: string, entries: seq<SyncEntry>, now: int)
    requires DistinctIds(entries) && AllResolved(s)
    ensures AllResolved(SyncReplace(s, options, revision, entries, now).store)
            <==> SyncReplace(s, options, revision, entries, now).error != None
                 || SecretsApart(Revoke(s, Dropped(s, entries), now), options, entries, revision, now)
  {
    var s1 := Revoke(s, Dropped(s, entries), now);
    RevokeResolves(s, Dropped(s, entries), now);
    if SyncReplace(s, options, revision, entries, now).error == None {
      EntriesResolveExactlyWhenApart(s1, options, entries, revision, now);
      var t := ApplyEntries(s1, options, entries, revision, now).store;
      StampResolves(t, t.replays, revision);
    }
  }

  lemma StampResolves(s: Store, replays: map<string, Enrollment>, revision: string)
    ensures AllResolved(s) <==> AllResolved(s.(replays := replays, revision := revision))
  {
    var t := s.(replays := replays, revision := revision);
    forall c | c in s.records ensures Resolved(s, c) <==> Resolved(t, c) {}
  }

  // ---- every run that keeps secrets apart ----

  /** The hash is a secret of a live credential other than c. */
  ghost predicate TakenFrom(s: Store, h: string, c: string) {
    exists d :: d in s.records && d != c && s.records[d].state != Revoked && h in Secrets(s.records[d])
  }

  lemma PutResolves(s: Store, r: Record)
    requires OthersResolved(s, r.id) && Shaped(r, r.id)
    requires r.state != Revoked ==> forall h :: h in Secrets(r) ==> !TakenFrom(s, h, r.id)
    ensures AllResolved(Put(s, r))
  {
    var t := Put(s, r);
    forall c | c in t.records ensures Resolved(t, c) {
      if c != r.id {
        assert Resolved(s, c);
        assert forall h :: h in Secrets(s.records[c]) && s.records[c].state != Revoked ==> TakenFrom(s, h, r.id);
      }
    }
  }

  /** A live credential's secrets can leave the index without harm to the others. */
  lemma DropOwn(s: Store, c: string, stale: set<string>)
    requires AllResolved(s) && c in s.records && s.records[c].state != Revoked && stale <= Secrets(s.records[c])
    ensures OthersResolved(s.(byHash := s.byHash - stale), c)
  {
    var t := s.(byHash := s.byHash - stale);
    assert Resolved(s, c);
    forall d | d in t.records && d != c ensures Resolved(t, d) {
      assert Resolved(s, d);
    }
  }

  /** A live credential's secrets are not taken from anyone. */
  lemma OwnIsNotTaken(s: Store, c: string, h: string)
    requires AllResolved(s) && c in s.records && s.records[c].state != Revoked && h in Secrets(s.records[c])
    ensures !TakenFrom(s, h, c) && SecretAt(s.byHash, h, c)
  {
    assert Resolved(s, c);
    forall d | d in s.records && d != c && s.records[d].state != Revoked ensures h !in Secrets(s.records[d]) {
      assert Resolved(s, d);
    }
  }

  /** A minted secret is nobody else's at the time, minted ids are new, and pushes keep secrets apart. */
  ghost predicate Apart(s: Store, options: Options, op: Op, now: int) {
    match op
    case EnrollOp(_, minted) => minted.id !in s.records && !TakenFrom(s, minted.token, minted.id)
    case RotateOp(id, _, token) => !TakenFrom(s, token, id)
    case SyncOp(revision, entries) =>
      && DistinctIds(entries)
      && (SyncReplace(s, options, revision, entries, now).error == None ==>
            SecretsApart(Revoke(s, Dropped(s, entries), now), options, entries, revision, now))
    case _ => true
  }

  lemma EnrollResolves(s: Store, options: Options, req: EnrollRequest, minted: Minted, now: int)
    requires AllResolved(s) && minted.id !in s.records && !TakenFrom(s, minted.token, minted.id)
    ensures AllResolved(Enroll(s, options, req, minted, now).store)
  {
    var r := NewRecord(options, req, minted, now);
    PutResolves(s, r);
    StampResolves(Put(s, r), Enroll(s, options, req, minted, now).store.replays, Put(s, r).revision);
  }

  lemma AuthenticateResolves(s: Store, presented: Option<Sha>, now: int)
    requires AllResolved(s)
    ensures AllResolved(Authenticate(s, presented, now).store)
  {
    if Authenticate(s, presented, now).record != None {
      var c := s.byHash[presented.value];
      var r := s.records[c];
      assert Resolved(s, c);
      var retired := if GraceElapsed(r, now) then {r.rotation.value.previous} else {};
      DropOwn(s, c, retired);
      forall h | h in Secrets(Used(r, now)) ensures !TakenFrom(s.(byHash := s.byHash - retired), h, c) {
        OwnIsNotTaken(s, c, h);
      }
      PutResolves(s.(byHash := s.byHash - retired), Used(r, now));
    }
  }

  lemma RotateResolves(s: Store, options: Options, id: string, grace: int, now: int, token: Sha)
    requires AllResolved(s) && !TakenFrom(s, token, id)
    ensures AllResolved(Rotate(s, options, id, grace, now, token).store)
  {
    if Rotate(s, options, id, grace, now, token).result != None {
      var r := s.records[id];
      assert Resolved(s, id);
      var oldest := if r.rotation != None then {r.rotation.value.previous} else {};
      DropOwn(s, id, oldest);
      OwnIsNotTaken(s, id, r.hash);
      var s1 := s.(byHash := s.byHash - oldest);
      assert !TakenFrom(s1, r.hash, id) && !TakenFrom(s1, token, id);
      PutResolves(s1, Rotated(options, r, grace, now, token));
    }
  }

  lemma RevokeDeviceResolves(s: Store, pool: string, host: string, device: string, generation: nat, reason: string)
    requires AllResolved(s)
    ensures AllResolved(RevokeDevice(s, pool, host, device, generation, reason).store)
  {
    if RevokeDevice(s, pool, host, device, generation, reason).store != s {
      var c := s.byHost[host];
      var s1 := s.(fences := s.fences[FenceKey(pool, host, device) := generation]);
      assert Resolved(s, c);
      forall d | d in s1.records ensures Resolved(s1, d) { assert Resolved(s, d); }
      forall h | h in Secrets(s.records[c]) && s.records[c].state != Revoked ensures !TakenFrom(s1, h, c) {
        OwnIsNotTaken(s1, c, h);
      }
      PutResolves(s1, s.records[c]);
    }
  }

  lemma StepResolves(s: Store, options: Options, op: Op, now: int)
    requires AllResolved(s) && Apart(s, options, op, now)
    ensures AllResolved(Apply(s, options, op, now))
  {
    hide AllResolved, TakenFrom, SecretsApart;
    match op
    case EnrollOp(req, minted) => EnrollResolves(s, options, req, minted, now);
    case AuthenticateOp(presented) => AuthenticateResolves(s, presented, now);
    case RotateOp(id, grace, token) => RotateResolves(s, options, id, grace, now, token);
    case RevokeOp(id) => if id in s.records { RevokeResolves(s, {id}, now); }
    case SyncOp(revision, entries) => PushResolvesExactlyWhenApart(s, options, revision, entries, now);
    case RevokeDeviceOp(pool, host, device, generation, reason) =>
      RevokeDeviceResolves(s, pool, host, device, generation, reason);
  }

  ghost predicate RunApart(s: Store, options: Options, events: seq<Event>) {
    events == [] ||
    (var before, last := events[..|events| - 1], events[|events| - 1];
     RunApart(s, options, before) && Apart(Run(s, options, before), options, last.op, last.now))
  }

  lemma {:induction false} RunResolves(s: Store, options: Options, events: seq<Event>)
    requires AllResolved(s) && RunApart(s, options, events)
    ensures AllResolved(Run(s, options, events))
    decreases |events|
  {
    if events != [] {
      var before, last := events[..|events| - 1], events[|events| - 1];
      RunResolves(s, options, before);
      StepResolves(Run(s, options, before), options, last.op, last.now);
    }
  }

  /** In every run that keeps secrets apart when they are written, whoever held them before, the index accepts a token
      exactly when it opens some record. */
  lemma AuthenticateIsAScanWhereApart(options: Options, events: seq<Event>, presented: Sha, now: int)
    requires RunApart(EMPTY, options, events)
    ensures var s := Run(EMPTY, options, events);
            var answer := Authenticate(s, Some(presented), now).record;
            && (answer.Some? <==> exists c :: c in s.records && Opens(s.records[c], presented, now))
            && forall c :: c in s.records && Opens(s.records[c], presented, now) ==>
                 answer.Some? && IsAnswer(s.fences, s.records[c], answer.value, now)
  {
    RunResolves(EMPTY, options, events);
    ResolvedIsAScan(Run(EMPTY, options, events), presented, now);
  }
}

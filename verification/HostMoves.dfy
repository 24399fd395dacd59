/** Credentials that move between hosts, and exactly when a move undoes a device fence. */
module HostMoves {
  import opened Optional
  import opened Credentials
  import opened CredentialFates
  import opened CredentialSecrets
  import opened CredentialSync
  import opened DeviceFences
  import opened SyncLimits

  // ---- runs in which no credential moves ----

  /** Every host index entry names a record of that host. */
  ghost predicate HostsCurrent(s: Store) {
    IdsMatch(s) && forall h :: h in s.byHost ==> s.byHost[h] in s.records && s.records[s.byHost[h]].host == h
  }

  /** The live entries keep a known credential, and one named twice, at one host. */
  ghost predicate PushStays(s: Store, entries: seq<SyncEntry>) {
    && (forall i :: 0 <= i < |entries| && !entries[i].revoked && entries[i].id in s.records ==>
          s.records[entries[i].id].host == entries[i].host)
    && (forall i, j :: && 0 <= i < j < |entries| && !entries[i].revoked && !entries[j].revoked
                       && entries[i].id == entries[j].id ==>
          entries[i].host == entries[j].host)
  }

  /** The call moves no known credential to another host; minted ids are new. */
  ghost predicate Stays(s: Store, op: Op) {
    match op
    case EnrollOp(_, minted) => minted.id !in s.records
    case SyncOp(_, entries) => PushStays(s, entries)
    case _ => true
  }

  /** Writing a new record, or an old one at its host, keeps the host index current. */
  lemma PutKeepsHosts(s: Store, r: Record)
    requires HostsCurrent(s) && (r.id in s.records ==> s.records[r.id].host == r.host)
    ensures HostsCurrent(Put(s, r))
    ensures forall c :: c in Put(s, r).records <==> c in s.records || c == r.id
    ensures forall c :: c in Put(s, r).records ==>
              Put(s, r).records[c].host == if c == r.id then r.host else s.records[c].host
  {
  }

  lemma RevokeKeepsHosts(s: Store, ids: set<string>, now: int)
    requires HostsCurrent(s) && ids <= s.records.Keys
    ensures var t := Revoke(s, ids, now);
            && HostsCurrent(t) && t.records.Keys == s.records.Keys
            && forall c :: c in s.records ==> t.records[c].host == s.records[c].host
  {
  }

  /** Where the record of c stands once these entries are applied. */
  ghost predicate StandsAt(s: Store, t: Store, entries: seq<SyncEntry>, c: string)
    requires c in t.records
  {
    if c in s.records then t.records[c].host == s.records[c].host
    else exists j :: && 0 <= j < |entries| && !entries[j].revoked && entries[j].id == c
                     && t.records[c].host == entries[j].host
  }

  lemma {:induction false} EntriesKeepHosts(s: Store, options: Options, entries: seq<SyncEntry>, revision: string,
                                            now: int)
    requires HostsCurrent(s) && PushStays(s, entries) && ApplyEntries(s, options, entries, revision, now).Ok?
    ensures var t := ApplyEntries(s, options, entries, revision, now).store;
            HostsCurrent(t) && forall c :: c in t.records ==> StandsAt(s, t, entries, c)
    decreases |entries|
  {
    if entries != [] {
      var n := |entries| - 1;
      var earlier, e := entries[..n], entries[n];
      forall i | 0 <= i < n ensures earlier[i] == entries[i] {}
      EntriesKeepHosts(s, options, earlier, revision, now);
      var u := ApplyEntries(s, options, earlier, revision, now).store;
      var t := ApplyEntries(s, options, entries, revision, now).store;
      if !e.revoked && e.id in u.records { NextEntryStays(s, u, entries); }
      EntryKeepsHost(u, options, e, revision, now);
      forall c | c in t.records ensures StandsAt(s, t, entries, c) {
        if c in u.records && c !in s.records {
          var j :| 0 <= j < n && !earlier[j].revoked && earlier[j].id == c && u.records[c].host == earlier[j].host;
          assert entries[j] == earlier[j];
        }
      }
    }
  }

  /** The next entry, if it names a record by now, names it at its host. */
  lemma NextEntryStays(s: Store, u: Store, entries: seq<SyncEntry>)
    requires entries != [] && PushStays(s, entries) && !entries[|entries| - 1].revoked
             && entries[|entries| - 1].id in u.records
    requires StandsAt(s, u, entries[..|entries| - 1], entries[|entries| - 1].id)
    ensures u.records[entries[|entries| - 1].id].host == entries[|entries| - 1].host
  {
    var n := |entries| - 1;
    var e := entries[n];
    if e.id !in s.records {
      var j :| && 0 <= j < n && !entries[..n][j].revoked && entries[..n][j].id == e.id
               && u.records[e.id].host == entries[..n][j].host;
      assert entries[..n][j] == entries[j];
    }
  }

  lemma EntryKeepsHost(u: Store, options: Options, e: SyncEntry, revision: string, now: int)
    requires HostsCurrent(u) && (!e.revoked && e.id in u.records ==> u.records[e.id].host == e.host)
    requires ApplyEntry(u, options, e, revision, now).Ok?
    ensures var t := ApplyEntry(u, options, e, revision, now).store;
            && HostsCurrent(t)
            && (forall c :: c in u.records ==> c in t.records && t.records[c].host == u.records[c].host)
            && (forall c :: c in t.records && c !in u.records ==>
                  c == e.id && !e.revoked && t.records[c].host == e.host)
  {
    var verdict := Judge(options, Lookup(u, e.id), e, revision, now);
    if verdict.Write? {
      PutKeepsHosts(u.(byHash := u.byHash - verdict.stale), verdict.record);
    }
  }

  lemma SyncKeepsHosts(s: Store, options: Options, revision: string, entries: seq<SyncEntry>, now: int)
    requires HostsCurrent(s) && PushStays(s, entries)
    ensures HostsCurrent(SyncReplace(s, options, revision, entries, now).store)
  {
    if SyncReplace(s, options, revision, entries, now).error == None {
      RevokeKeepsHosts(s, Dropped(s, entries), now);
      EntriesKeepHosts(Revoke(s, Dropped(s, entries), now), options, entries, revision, now);
    }
  }

  lemma StepKeepsHosts(s: Store, options: Options, op: Op, now: int)
    requires HostsCurrent(s) && Stays(s, op)
    ensures HostsCurrent(Apply(s, options, op, now))
  {
    match op
    case EnrollOp(req, minted) => PutKeepsHosts(s, NewRecord(options, req, minted, now));
    case AuthenticateOp(presented) => AuthenticateKeepsHosts(s, presented, now);
    case RotateOp(id, grace, token) => RotateKeepsHosts(s, options, id, grace, now, token);
    case RevokeOp(id) => if id in s.records { RevokeKeepsHosts(s, {id}, now); }
    case SyncOp(revision, entries) => SyncKeepsHosts(s, options, revision, entries, now);
    case RevokeDeviceOp(pool, host, device, generation, reason) =>
      RevokeDeviceKeepsHosts(s, pool, host, device, generation, reason);
  }

  lemma AuthenticateKeepsHosts(s: Store, presented: Option<Sha>, now: int)
    requires HostsCurrent(s)
    ensures HostsCurrent(Authenticate(s, presented, now).store)
  {
    if Authenticate(s, presented, now).record != None {
      var r := s.records[s.byHash[presented.value]];
      var retired := if GraceElapsed(r, now) then {r.rotation.value.previous} else {};
      PutKeepsHosts(s.(byHash := s.byHash - retired), Used(r, now));
    }
  }

  lemma RotateKeepsHosts(s: Store, options: Options, id: string, grace: int, now: int, token: Sha)
    requires HostsCurrent(s)
    ensures HostsCurrent(Rotate(s, options, id, grace, now, token).store)
  {
    if Rotate(s, options, id, grace, now, token).result != None {
      var r := s.records[id];
      var oldest := if r.rotation != None then {r.rotation.value.previous} else {};
      PutKeepsHosts(s.(byHash := s.byHash - oldest), Rotated(options, r, grace, now, token));
    }
  }

  lemma RevokeDeviceKeepsHosts(s: Store, pool: string, host: string, device: string, generation: nat, reason: string)
    requires HostsCurrent(s)
    ensures HostsCurrent(RevokeDevice(s, pool, host, device, generation, reason).store)
  {
    if RevokeDevice(s, pool, host, device, generation, reason).store != s {
      PutKeepsHosts(s.(fences := s.fences[FenceKey(pool, host, device) := generation]), s.records[s.byHost[host]]);
    }
  }

  ghost predicate RunStays(s: Store, options: Options, events: seq<Event>) {
    events == [] ||
    (var before := events[..|events| - 1];
     RunStays(s, options, before) && Stays(Run(s, options, before), events[|events| - 1].op))
  }

  /** In every run whose pushes move no known credential, every host index entry names a record of that host. */
  lemma {:induction false} RunKeepsHosts(s: Store, options: Options, events: seq<Event>)
    requires HostsCurrent(s) && RunStays(s, options, events)
    ensures HostsCurrent(Run(s, options, events))
    decreases |events|
  {
    if events != [] {
      var before, last := events[..|events| - 1], events[|events| - 1];
      RunKeepsHosts(s, options, before);
      StepKeepsHosts(Run(s, options, before), options, last.op, last.now);
    }
  }

  /** So in such runs the fence holds without proviso: the record the host index names for that host and pool
      grants the device only above the revoked generation. */
  lemma DeviceStaysRevokedWhereHostsStay(options: Options, before: seq<Event>, pool: string, host: string,
                                         device: string,
                                         generation: nat, reason: string, later: seq<Event>)
    requires RunStays(EMPTY, options, before)
    requires RevokeDevice(Run(EMPTY, options, before), pool, host, device, generation, reason).error == None
    requires RunStays(RevokeDevice(Run(EMPTY, options, before), pool, host, device, generation, reason).store, options,
                      later)
    ensures var t := Run(RevokeDevice(Run(EMPTY, options, before), pool, host, device, generation, reason).store,
                         options, later);
            host in t.byHost ==>
              && t.byHost[host] in t.records
              && var r := t.records[t.byHost[host]];
              r.host == host && (r.pool == pool && device in r.devices ==> generation < r.devices[device])
  {
    var s0 := Run(EMPTY, options, before);
    var s := RevokeDevice(s0, pool, host, device, generation, reason).store;
    RunKeepsHosts(EMPTY, options, before);
    RevokeDeviceKeepsHosts(s0, pool, host, device, generation, reason);
    RunKeepsHosts(s, options, later);
    DeviceStaysRevoked(options, before, pool, host, device, generation, reason, later, generation);
  }

  // ---- when a fence is escaped ----

  /** The record indexed under the host grants the device at or below g in that pool. */
  ghost predicate Escapes(s: Store, pool: string, host: string, device: string, g: nat) {
    && host in s.byHost && s.byHost[host] in s.records
    && var r := s.records[s.byHost[host]];
    r.pool == pool && device in r.devices && r.devices[device] <= g
  }

  /** A successful revocation leaves the fence escaped exactly when it finds one already there, and writes nothing, on
      an escaped store; or when the record it finds has moved to another host and grants the device there unfenced. */
  lemma StaleHostEscapesTheFence(s: Store, pool: string, host: string, device: string, generation: nat, reason: string)
    requires FenceSafe(s) && RevokeDevice(s, pool, host, device, generation, reason).error == None
    ensures Escapes(RevokeDevice(s, pool, host, device, generation, reason).store, pool, host, device, generation)
            <==> if IsFenced(s.fences, pool, host, device, generation) then Escapes(s, pool, host, device, generation)
                 else && host in s.byHost && s.byHost[host] in s.records
                      && var r := s.records[s.byHost[host]];
                      && r.host != host && device in r.devices
                      && !IsFenced(s.fences, r.pool, r.host, device, r.devices[device])
  {
    if !IsFenced(s.fences, pool, host, device, generation) {
      var r := s.records[s.byHost[host]];
      var fences' := s.fences[FenceKey(pool, host, device) := generation];
      assert device in r.devices ==> r.devices[device] <= generation;
      assert r.host != host && device in r.devices ==>
          (IsFenced(fences', r.pool, r.host, device, r.devices[device])
           <==> IsFenced(s.fences, r.pool, r.host, device, r.devices[device]));
    }
  }

  /** Such stores are reachable: a push moves the credential from host "a" to host "b", and revoking the device at
      "a" then succeeds while the record that "a" names goes on granting it. */
  lemma StaleHostExample(options: Options, token: Sha)
    ensures var s1 := SyncReplace(EMPTY, options, "1", [OneEntry("a", token)], 1).store;
            var s2 := SyncReplace(s1, options, "2", [OneEntry("b", token)], 2).store;
            var step := RevokeDevice(s2, "pool", "a", "gpu", 1, "transfer");
            && step.error == None && DeviceRevoked(step.store, "pool", "a", "gpu", 1)
            && "a" in step.store.byHost && step.store.byHost["a"] == "cred" && "cred" in step.store.records
            && step.store.records["cred"].devices == map["gpu" := 1]
  {
    PushTo(EMPTY, options, "1", "a", token, 1);
    var s1 := SyncReplace(EMPTY, options, "1", [OneEntry("a", token)], 1).store;
    PushTo(s1, options, "2", "b", token, 2);
    RevokeAtOldHost(SyncReplace(s1, options, "2", [OneEntry("b", token)], 2).store, token);
  }

  lemma RevokeAtOldHost(s: Store, token: Sha)
    requires PushedTo(s, "b", token) && "a" in s.byHost && s.byHost["a"] == "cred"
    ensures var step := RevokeDevice(s, "pool", "a", "gpu", 1, "transfer");
            && step.error == None && DeviceRevoked(step.store, "pool", "a", "gpu", 1)
            && "a" in step.store.byHost && step.store.byHost["a"] == "cred" && "cred" in step.store.records
            && step.store.records["cred"].devices == map["gpu" := 1]
  {
    var t := RevokeDevice(s, "pool", "a", "gpu", 1, "transfer").store;
    assert t.records["cred"].devices == map["gpu" := 1];
  }

  ghost predicate Regrants(s: Store, options: Options, e: SyncEntry, revision: string, now: int,
                           pool: string, host: string, device: string, g: nat)
  {
    && VerdictOf(s, options, e, revision, now).Write? && e.host != host && e.pool == pool
    && device in e.devices && e.devices[device] <= g && !IsFenced(s.fences, e.pool, e.host, device, e.devices[device])
  }

  /** Some entry regrants to the credential indexed under the host. */
  ghost predicate IndexedRegrants(s: Store, options: Options, entries: seq<SyncEntry>, revision: string, now: int,
                                  pool: string, host: string, device: string, g: nat)
  {
    && host in s.byHost
    && exists i :: && 0 <= i < |entries| && entries[i].id == s.byHost[host]
                   && Regrants(s, options, entries[i], revision, now, pool, host, device, g)
  }

  /** No written entry is at the host. */
  ghost predicate NobodyAt(s: Store, options: Options, entries: seq<SyncEntry>, revision: string, now: int,
                           host: string)
  {
    forall j :: 0 <= j < |entries| && VerdictOf(s, options, entries[j], revision, now).Write? ==>
      entries[j].host != host
  }

  /** The push rewrites the credential indexed under the host, at another host and granting the device there, at or
      below g and unfenced, and writes nobody at the host itself. */
  ghost predicate PushRegains(s: Store, options: Options, revision: string, entries: seq<SyncEntry>, now: int,
                              pool: string, host: string, device: string, g: nat)
  {
    && SyncReplace(s, options, revision, entries, now).error == None
    && IndexedRegrants(s, options, entries, revision, now, pool, host, device, g)
    && NobodyAt(s, options, entries, revision, now, host)
  }

  lemma {:induction false} HostWritesAreWrites(s: Store, options: Options, entries: seq<SyncEntry>, revision: string,
                                               now: int, host: string)
    ensures var writes := HostWrites(s, options, entries, revision, now);
            if host in writes
            then exists j :: 0 <= j < |entries| && entries[j].host == host && entries[j].id == writes[host]
                             && VerdictOf(s, options, entries[j], revision, now).Write?
            else NobodyAt(s, options, entries, revision, now, host)
    decreases |entries|
  {
    hide Judge;
    if entries != [] {
      var n := |entries| - 1;
      HostWritesAreWrites(s, options, entries[..n], revision, now, host);
      assert forall j :: 0 <= j < n ==> entries[..n][j] == entries[j];
      var earlier := HostWrites(s, options, entries[..n], revision, now);
      if host in earlier {
        var j :| 0 <= j < n && entries[..n][j].host == host && entries[..n][j].id == earlier[host]
                 && VerdictOf(s, options, entries[..n][j], revision, now).Write?;
        assert entries[j].host == host;
      }
    }
  }

  lemma WrittenRecord(s: Store, options: Options, entries: seq<SyncEntry>, revision: string, now: int, i: nat)
    requires DistinctIds(entries) && IdsMatch(s) && ApplyEntries(s, options, entries, revision, now).Ok?
    requires i < |entries| && VerdictOf(s, options, entries[i], revision, now).Write?
    ensures var t, e := ApplyEntries(s, options, entries, revision, now).store, entries[i];
            && t.fences == s.fences && e.id in t.records
            && var r := t.records[e.id];
            && r.host == e.host && r.pool == e.pool
            && r.devices == map d | && d in e.devices
                                    && !IsFenced(s.fences, e.pool, e.host, d, e.devices[d]) :: e.devices[d]
  {
    EntriesActAlone(s, options, entries, revision, now);
    assert Landed(s, ApplyEntries(s, options, entries, revision, now).store, options, entries[i], revision, now);
  }

  /** Applied to a store where the fence holds, the entries escape it exactly when one regrants and none is at the
      host. */
  lemma EntriesEscapeExactlyWhen(s: Store, options: Options, entries: seq<SyncEntry>, revision: string, now: int,
                                 pool: string, host: string, device: string, g: nat)
    requires FenceSafe(s) && DistinctIds(entries) && ApplyEntries(s, options, entries, revision, now).Ok?
    requires IsFenced(s.fences, pool, host, device, g) && !Escapes(s, pool, host, device, g)
    ensures Escapes(ApplyEntries(s, options, entries, revision, now).store, pool, host, device, g)
            <==> && IndexedRegrants(s, options, entries, revision, now, pool, host, device, g)
                 && NobodyAt(s, options, entries, revision, now, host)
  {
    EntriesActAlone(s, options, entries, revision, now);
    HostWritesAreWrites(s, options, entries, revision, now, host);
    var t := ApplyEntries(s, options, entries, revision, now).store;
    var writes := HostWrites(s, options, entries, revision, now);
    if host in writes {
      var j :| 0 <= j < |entries| && entries[j].host == host && entries[j].id == writes[host]
               && VerdictOf(s, options, entries[j], revision, now).Write?;
      WrittenRecord(s, options, entries, revision, now, j);
    } else if host in s.byHost {
      EscapeOfTheIndexed(s, options, entries, revision, now, pool, host, device, g);
    }
  }

  lemma EscapeOfTheIndexed(s: Store, options: Options, entries: seq<SyncEntry>, revision: string, now: int,
                           pool: string, host: string, device: string, g: nat)
    requires FenceSafe(s) && DistinctIds(entries) && ApplyEntries(s, options, entries, revision, now).Ok?
    requires !Escapes(s, pool, host, device, g) && host in s.byHost
    requires NobodyAt(s, options, entries, revision, now, host)
    requires var t := ApplyEntries(s, options, entries, revision, now).store;
             host in t.byHost && t.byHost[host] == s.byHost[host]
    ensures Escapes(ApplyEntries(s, options, entries, revision, now).store, pool, host, device, g)
            <==> IndexedRegrants(s, options, entries, revision, now, pool, host, device, g)
  {
    var c := s.byHost[host];
    assert HostFenced(s, host);
    if WrittenBy(s, options, entries, revision, now, c) {
      var i :| 0 <= i < |entries| && entries[i].id == c && VerdictOf(s, options, entries[i], revision, now).Write?;
      WrittenRecord(s, options, entries, revision, now, i);
      hide Judge, ApplyEntries;
      assert forall j :: 0 <= j < |entries| && entries[j].id == c ==> j == i;
    } else {
      UnwrittenStays(s, options, entries, revision, now, c);
    }
  }

  lemma SweepKeepsTheFence(s: Store, ids: set<string>, now: int, pool: string, host: string, device: string, g: nat)
    requires FenceSafe(s) && ids <= s.records.Keys && !Escapes(s, pool, host, device, g)
    ensures !Escapes(Revoke(s, ids, now), pool, host, device, g)
  {
  }

  lemma SweptVerdict(s: Store, options: Options, entries: seq<SyncEntry>, revision: string, now: int, i: nat)
    requires DistinctIds(entries) && i < |entries|
    ensures var s1 := Revoke(s, Dropped(s, entries), now);
            VerdictOf(s1, options, entries[i], revision, now) == VerdictOf(s, options, entries[i], revision, now)
  {
    if !entries[i].revoked {
      SweepKeepsTheNamed(s, entries, now, i);
    }
  }

  /** A push on a store where the fence holds leaves it escaped exactly when it regains the grant. */
  lemma PushEscapesExactlyWhenItRegains(s: Store, options: Options, revision: string, entries: seq<SyncEntry>, now: int,
                                        pool: string, host: string, device: string, g: nat)
    requires FenceSafe(s) && DistinctIds(entries) && IsFenced(s.fences, pool, host, device, g)
    requires !Escapes(s, pool, host, device, g)
    ensures Escapes(SyncReplace(s, options, revision, entries, now).store, pool, host, device, g)
            <==> PushRegains(s, options, revision, entries, now, pool, host, device, g)
  {
    if SyncReplace(s, options, revision, entries, now).error == None {
      var s1 := Revoke(s, Dropped(s, entries), now);
      RevokeKeepsFences(s, Dropped(s, entries), now);
      SweepKeepsTheFence(s, Dropped(s, entries), now, pool, host, device, g);
      EntriesEscapeExactlyWhen(s1, options, entries, revision, now, pool, host, device, g);
      forall i | 0 <= i < |entries|
        ensures VerdictOf(s1, options, entries[i], revision, now) == VerdictOf(s, options, entries[i], revision, now)
        ensures !entries[i].revoked ==> entries[i].id !in Dropped(s, entries)
      {
        SweptVerdict(s, options, entries, revision, now, i);
        IncomingIsTheEntry(entries);
      }
      RegrantsAlike(s, s1, options, entries, revision, now, pool, host, device, g);
    }
  }

  lemma RegrantsAlike(s: Store, s1: Store, options: Options, entries: seq<SyncEntry>, revision: string, now: int,
                      pool: string, host: string, device: string, g: nat)
    requires IdsMatch(s) && s1 == Revoke(s, Dropped(s, entries), now)
    requires forall i :: 0 <= i < |entries| ==>
               && VerdictOf(s1, options, entries[i], revision, now) == VerdictOf(s, options, entries[i], revision, now)
               && (!entries[i].revoked ==> entries[i].id !in Dropped(s, entries))
    ensures IndexedRegrants(s1, options, entries, revision, now, pool, host, device, g)
            <==> IndexedRegrants(s, options, entries, revision, now, pool, host, device, g)
  {
    forall i | 0 <= i < |entries|
      ensures Regrants(s1, options, entries[i], revision, now, pool, host, device, g)
              <==> Regrants(s, options, entries[i], revision, now, pool, host, device, g)
      ensures Regrants(s, options, entries[i], revision, now, pool, host, device, g) ==> !entries[i].revoked
    {
    }
  }

  // ---- every other call, and whole runs ----

  /** Writing a record that grants nothing new does not escape a fence that held. */
  lemma PutKeepsTheFence(s: Store, byHash: map<string, string>, fences: map<FenceKey, nat>, r: Record,
                         pool: string, host: string, device: string, g: nat)
    requires FenceSafe(s) && !Escapes(s, pool, host, device, g) && IsFenced(fences, pool, host, device, g)
    requires r.devices == map[]
             || (r.id in s.records && r.pool == s.records[r.id].pool && r.devices == s.records[r.id].devices)
    ensures !Escapes(Put(s.(byHash := byHash, fences := fences), r), pool, host, device, g)
  {
  }

  lemma AuthenticateKeepsTheFence(s: Store, presented: Option<Sha>, now: int, pool: string, host: string,
                                  device: string, g: nat)
    requires FenceSafe(s) && !Escapes(s, pool, host, device, g) && IsFenced(s.fences, pool, host, device, g)
    ensures !Escapes(Authenticate(s, presented, now).store, pool, host, device, g)
  {
    if Authenticate(s, presented, now).record != None {
      var r := s.records[s.byHash[presented.value]];
      var retired := if GraceElapsed(r, now) then {r.rotation.value.previous} else {};
      PutKeepsTheFence(s, s.byHash - retired, s.fences, Used(r, now), pool, host, device, g);
    }
  }

  lemma RotateKeepsTheFence(s: Store, options: Options, id: string, grace: int, now: int, token: Sha,
                            pool: string, host: string, device: string, g: nat)
    requires FenceSafe(s) && !Escapes(s, pool, host, device, g) && IsFenced(s.fences, pool, host, device, g)
    ensures !Escapes(Rotate(s, options, id, grace, now, token).store, pool, host, device, g)
  {
    if Rotate(s, options, id, grace, now, token).result != None {
      var r := s.records[id];
      var oldest := if r.rotation != None then {r.rotation.value.previous} else {};
      PutKeepsTheFence(s, s.byHash - oldest, s.fences, Rotated(options, r, grace, now, token), pool, host, device, g);
    }
  }

  lemma RevokeDeviceKeepsTheFence(s: Store, pool': string, host': string, device': string, generation: nat,
                                  reason: string,
                                  pool: string, host: string, device: string, g: nat)
    requires FenceSafe(s) && !Escapes(s, pool, host, device, g) && IsFenced(s.fences, pool, host, device, g)
    ensures !Escapes(RevokeDevice(s, pool', host', device', generation, reason).store, pool, host, device, g)
  {
    if RevokeDevice(s, pool', host', device', generation, reason).store != s {
      PutKeepsTheFence(s, s.byHash, s.fences[FenceKey(pool', host', device') := generation], s.records[s.byHost[host']],
                       pool, host, device, g);
    }
  }

  /** The call is a push that regains the grant. */
  ghost predicate Regains(s: Store, options: Options, op: Op, now: int, pool: string, host: string, device: string,
                          g: nat)
  {
    op.SyncOp? && PushRegains(s, options, op.revision, op.entries, now, pool, host, device, g)
  }

  ghost predicate DistinctPush(op: Op) {
    op.SyncOp? ==> DistinctIds(op.entries)
  }

  /** Any call on a store where the fence holds leaves it escaped exactly when it is a push that regains the grant. */
  lemma StepEscapesExactlyWhenItRegains(s: Store, options: Options, op: Op, now: int, pool: string, host: string,
                                        device: string, g: nat)
    requires FenceSafe(s) && IsFenced(s.fences, pool, host, device, g) && !Escapes(s, pool, host, device, g)
             && DistinctPush(op)
    ensures Escapes(Apply(s, options, op, now), pool, host, device, g)
            <==> Regains(s, options, op, now, pool, host, device, g)
  {
    match op
    case EnrollOp(req, minted) =>
      PutKeepsTheFence(s, s.byHash, s.fences, NewRecord(options, req, minted, now), pool, host, device, g);
    case AuthenticateOp(presented) => AuthenticateKeepsTheFence(s, presented, now, pool, host, device, g);
    case RotateOp(id, grace, token) => RotateKeepsTheFence(s, options, id, grace, now, token, pool, host, device, g);
    case RevokeOp(id) => if id in s.records { SweepKeepsTheFence(s, {id}, now, pool, host, device, g); }
    case SyncOp(revision, entries) =>
      PushEscapesExactlyWhenItRegains(s, options, revision, entries, now, pool, host, device, g);
    case RevokeDeviceOp(pool', host', device', generation, reason) =>
      RevokeDeviceKeepsTheFence(s, pool', host', device', generation, reason, pool, host, device, g);
  }

  ghost predicate NeverRegains(s: Store, options: Options, events: seq<Event>, pool: string, host: string,
                               device: string, g: nat)
  {
    events == [] ||
    (var before, last := events[..|events| - 1], events[|events| - 1];
     && NeverRegains(s, options, before, pool, host, device, g)
     && !Regains(Run(s, options, before), options, last.op, last.now, pool, host, device, g))
  }

  ghost predicate NeverEscapes(s: Store, options: Options, events: seq<Event>, pool: string, host: string,
                               device: string, g: nat)
  {
    forall n :: 0 <= n <= |events| ==> !Escapes(Run(s, options, events[..n]), pool, host, device, g)
  }

  lemma NeverEscapesOneMore(s: Store, options: Options, events: seq<Event>, pool: string, host: string, device: string,
                            g: nat)
    requires events != []
    ensures NeverEscapes(s, options, events, pool, host, device, g)
            <==> && NeverEscapes(s, options, events[..|events| - 1], pool, host, device, g)
                 && !Escapes(Run(s, options, events), pool, host, device, g)
  {
    hide Run, Escapes;
    var before := events[..|events| - 1];
    assert events[..|events|] == events;
    assert forall n :: 0 <= n <= |before| ==> before[..n] == events[..n];
    if NeverEscapes(s, options, events, pool, host, device, g) {
      forall n | 0 <= n <= |before| ensures !Escapes(Run(s, options, before[..n]), pool, host, device, g) {
        assert !Escapes(Run(s, options, events[..n]), pool, host, device, g);
      }
    }
  }

  /** Over a whole run from a store where the fence holds, it holds at every point exactly when no push of the run
      regains the grant. */
  lemma {:induction false} FenceHoldsExactlyUnlessRegained(s: Store, options: Options, events: seq<Event>,
                                                           pool: string, host: string, device: string, g: nat)
    requires FenceSafe(s) && IsFenced(s.fences, pool, host, device, g) && !Escapes(s, pool, host, device, g)
    requires forall i :: 0 <= i < |events| ==> DistinctPush(events[i].op)
    ensures NeverEscapes(s, options, events, pool, host, device, g) <==>
              NeverRegains(s, options, events, pool, host, device, g)
    decreases |events|
  {
    if events == [] {
      assert events[..0] == events;
    } else {
      var before, last := events[..|events| - 1], events[|events| - 1];
      assert forall i :: 0 <= i < |before| ==> before[i] == events[i];
      FenceHoldsExactlyUnlessRegained(s, options, before, pool, host, device, g);
      NeverEscapesOneMore(s, options, events, pool, host, device, g);
      if NeverEscapes(s, options, before, pool, host, device, g) {
        assert before[..|before|] == before;
        RunKeepsFences(s, options, before);
        StepEscapesExactlyWhenItRegains(Run(s, options, before), options, last.op, last.now, pool, host, device, g);
      }
    }
  }
}

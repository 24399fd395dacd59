/** A revoked device generation stays revoked through every later write, delayed full syncs included. */
module DeviceFences {
  import opened Optional
  import opened Credentials
  import opened CredentialFates

  ghost predicate FullyFenced(fences: map<FenceKey, nat>, r: Record) {
    forall d :: d in r.devices ==> !IsFenced(fences, r.pool, r.host, d, r.devices[d])
  }

  /** The record the host index names, when it still is that host's, grants nothing a fence forbids. */
  ghost predicate HostFenced(s: Store, h: string)
    requires h in s.byHost
  {
    && s.byHost[h] in s.records
    && (s.records[s.byHost[h]].host == h ==> FullyFenced(s.fences, s.records[s.byHost[h]]))
  }

  ghost predicate FenceSafe(s: Store) {
    IdsMatch(s) && forall h {:trigger HostFenced(s, h)} :: h in s.byHost ==> HostFenced(s, h)
  }

  ghost predicate FencesGrow(s: Store, t: Store) {
    forall k :: k in s.fences ==> k in t.fences && s.fences[k] <= t.fences[k]
  }

  /** A write re-filters its record, so it keeps every host fenced that did not depend on the old one. */
  lemma PutKeepsFences(s: Store, r: Record)
    requires IdsMatch(s)
    requires forall h :: h in s.byHost && s.byHost[h] != r.id ==> HostFenced(s, h)
    ensures FenceSafe(Put(s, r)) && Put(s, r).fences == s.fences
  {
    var t := Put(s, r);
    assert FullyFenced(t.fences, t.records[r.id]);
    forall h | h in t.byHost
      ensures HostFenced(t, h)
    {
      if t.byHost[h] != r.id {
        assert HostFenced(s, h);
      }
    }
  }

  lemma RevokeKeepsFences(s: Store, ids: set<string>, now: int)
    requires FenceSafe(s) && ids <= s.records.Keys
    ensures FenceSafe(Revoke(s, ids, now)) && Revoke(s, ids, now).fences == s.fences
  {
    var t := Revoke(s, ids, now);
    forall h | h in t.byHost
      ensures HostFenced(t, h)
    {
      assert HostFenced(s, h);
    }
  }

  lemma {:induction false} EntriesKeepFences(s: Store, options: Options, entries: seq<SyncEntry>, revision: string,
                                             now: int)
    requires FenceSafe(s) && ApplyEntries(s, options, entries, revision, now).Ok?
    ensures var t := ApplyEntries(s, options, entries, revision, now).store; FenceSafe(t) && t.fences == s.fences
    decreases |entries|
  {
    if entries != [] {
      EntriesKeepFences(s, options, entries[..|entries| - 1], revision, now);
      var u := ApplyEntries(s, options, entries[..|entries| - 1], revision, now).store;
      var e := entries[|entries| - 1];
      var verdict := Judge(options, Lookup(u, e.id), e, revision, now);
      if verdict.Write? {
        RehashKeeps(u, u.byHash - verdict.stale);
        PutKeepsFences(u.(byHash := u.byHash - verdict.stale), verdict.record);
      }
    }
  }

  /** Hash index, replay log and revision stamp have no part in fencing. */
  lemma RehashKeeps(s: Store, byHash: map<string, string>)
    requires FenceSafe(s)
    ensures FenceSafe(s.(byHash := byHash))
  {
    var t := s.(byHash := byHash);
    forall h | h in t.byHost ensures HostFenced(t, h) { assert HostFenced(s, h); }
  }

  lemma StampKeepsFences(s: Store, replays: map<string, Enrollment>, revision: string)
    requires FenceSafe(s)
    ensures FenceSafe(s.(replays := replays, revision := revision))
  {
    var t := s.(replays := replays, revision := revision);
    forall h | h in t.byHost ensures HostFenced(t, h) { assert HostFenced(s, h); }
  }

  lemma SyncKeepsFences(s: Store, options: Options, revision: string, entries: seq<SyncEntry>, now: int)
    requires FenceSafe(s)
    ensures var t := SyncReplace(s, options, revision, entries, now).store; FenceSafe(t) && t.fences == s.fences
  {
    if SyncReplace(s, options, revision, entries, now).error == None {
      var s1 := Revoke(s, Dropped(s, entries), now);
      RevokeKeepsFences(s, Dropped(s, entries), now);
      EntriesKeepFences(s1, options, entries, revision, now);
      var t := ApplyEntries(s1, options, entries, revision, now).store;
      StampKeepsFences(t, t.replays, revision);
    }
  }

  lemma RevokeDeviceKeepsFences(s: Store, pool: string, host: string, device: string, generation: nat, reason: string)
    requires FenceSafe(s)
    ensures var t := RevokeDevice(s, pool, host, device, generation, reason).store; FenceSafe(t) && FencesGrow(s, t)
  {
    var step := RevokeDevice(s, pool, host, device, generation, reason);
    if step.store != s {
      var s1 := s.(fences := s.fences[FenceKey(pool, host, device) := generation]);
      forall h | h in s1.byHost && s1.byHost[h] != s.byHost[host]
        ensures HostFenced(s1, h)
      {
        assert HostFenced(s, h);
      }
      PutKeepsFences(s1, s.records[s.byHost[host]]);
    }
  }

  lemma StepKeepsFences(s: Store, options: Options, op: Op, now: int)
    requires FenceSafe(s)
    ensures FenceSafe(Apply(s, options, op, now)) && FencesGrow(s, Apply(s, options, op, now))
  {
    match op
    case EnrollOp(req, minted) =>
      var s1 := Put(s, NewRecord(options, req, minted, now));
      PutKeepsFences(s, NewRecord(options, req, minted, now));
      StampKeepsFences(s1, Enroll(s, options, req, minted, now).store.replays, s1.revision);
    case AuthenticateOp(presented) =>
      if Authenticate(s, presented, now).record != None {
        var r := s.records[s.byHash[presented.value]];
        var retired := if GraceElapsed(r, now) then {r.rotation.value.previous} else {};
        RehashKeeps(s, s.byHash - retired);
        PutKeepsFences(s.(byHash := s.byHash - retired), Used(r, now));
      }
    case RotateOp(id, grace, token) =>
      if Rotate(s, options, id, grace, now, token).result != None {
        var r := s.records[id];
        var oldest := if r.rotation != None then {r.rotation.value.previous} else {};
        RehashKeeps(s, s.byHash - oldest);
        PutKeepsFences(s.(byHash := s.byHash - oldest), Rotated(options, r, grace, now, token));
      }
    case RevokeOp(id) => if id in s.records { RevokeKeepsFences(s, {id}, now); }
    case SyncOp(revision, entries) => SyncKeepsFences(s, options, revision, entries, now);
    case RevokeDeviceOp(pool, host, device, generation, reason) =>
      RevokeDeviceKeepsFences(s, pool, host, device, generation, reason);
  }

  lemma {:induction false} RunKeepsFences(s: Store, options: Options, events: seq<Event>)
    requires FenceSafe(s)
    ensures FenceSafe(Run(s, options, events)) && FencesGrow(s, Run(s, options, events))
    decreases |events|
  {
    if events != [] {
      var before, last := events[..|events| - 1], events[|events| - 1];
      RunKeepsFences(s, options, before);
      StepKeepsFences(Run(s, options, before), options, last.op, last.now);
    }
  }

  /** Once a device generation is revoked, every later store reports every generation up to it revoked, and the
      record the host index names for that host and pool, if it is that host's record, grants the device only
      above it. */
  lemma DeviceStaysRevoked(options: Options, before: seq<Event>, pool: string, host: string, device: string,
                           generation: nat, reason: string, later: seq<Event>, g: nat)
    requires RevokeDevice(Run(EMPTY, options, before), pool, host, device, generation, reason).error == None
    requires g <= generation
    ensures var s := RevokeDevice(Run(EMPTY, options, before), pool, host, device, generation, reason).store;
            var t := Run(s, options, later);
            && DeviceRevoked(t, pool, host, device, g)
            && (host in t.byHost ==>
                  && t.byHost[host] in t.records
                  && var r := t.records[t.byHost[host]];
                  r.host == host && r.pool == pool && device in r.devices ==> generation < r.devices[device])
  {
    var s0 := Run(EMPTY, options, before);
    var s := RevokeDevice(s0, pool, host, device, generation, reason).store;
    var t := Run(s, options, later);
    RunKeepsFences(EMPTY, options, before);
    RevokeDeviceKeepsFences(s0, pool, host, device, generation, reason);
    RunKeepsFences(s, options, later);
    var key := FenceKey(pool, host, device);
    assert key in s.fences && generation <= s.fences[key];
    assert key in t.fences && generation <= t.fences[key];
    if host in t.byHost {
      assert HostFenced(t, host);
    }
  }
}

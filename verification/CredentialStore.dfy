/** The credential store as an object: each method is one transaction over the buckets, undone when it fails. */
module CredentialStore {
  import opened Optional
  import opened Credentials
  import opened Orders

  class RunnerCredentials {
    var credentials: map<string, Record>
    var byHash: map<string, string>
    var byHost: map<string, string>
    var fences: map<FenceKey, nat>
    var replays: map<string, Enrollment>
    var revision: string
    const options: Options

    ghost function Value(): Store
      reads this
    {
      Store(credentials, byHash, byHost, fences, replays, revision)
    }

    /** Every record sits under its own id. */
    ghost predicate Valid()
      reads this
    {
      forall c :: c in credentials ==> credentials[c].id == c
    }

    constructor (options: Options)
      ensures Valid() && Value() == EMPTY && this.options == options
    {
      this.options := options;
      credentials, byHash, byHost, fences, replays, revision := map[], map[], map[], map[], map[], "";
    }

    method FilterRevokedDevices(r: Record) returns (grants: map<string, nat>)
      ensures grants == FilterDevices(fences, r)
    {
      grants := map[];
      var todo := r.devices.Keys;
      while todo != {}
        invariant todo <= r.devices.Keys
        invariant grants == map d | && d in r.devices && d !in todo
                                    && !IsFenced(fences, r.pool, r.host, d, r.devices[d]) :: r.devices[d]
        decreases todo
      {
        var device :| device in todo;
        todo := todo - {device};
        var key := FenceKey(r.pool, r.host, device);
        if !(key in fences && r.devices[device] <= fences[key]) {
          grants := grants[device := r.devices[device]];
        }
      }
    }

    method WriteRecord(r: Record)
      modifies this`credentials
      ensures old(Valid()) ==> Valid()
      ensures Value() == PutRaw(old(Value()), r)
    {
      var grants := FilterRevokedDevices(r);
      credentials := credentials[r.id := r.(devices := grants)];
    }

    method PutRecord(r: Record)
      modifies this`credentials, this`byHash, this`byHost
      ensures old(Valid()) ==> Valid()
      ensures Value() == Put(old(Value()), r)
    {
      if r.hash != "" {
        byHash := byHash[r.hash := r.id];
      }
      if r.rotation != None {
        byHash := byHash[r.rotation.value.previous := r.id];
      }
      if r.state != Revoked {
        byHost := byHost[r.host := r.id];
      }
      WriteRecord(r);
    }

    method EnrollHost(req: EnrollRequest, minted: Minted, now: int)
      returns (result: Option<Enrollment>, error: Option<Error>)
      requires Valid()
      modifies this
      ensures Valid()
      ensures EnrollStep(Value(), result, error) == Enroll(old(Value()), options, req, minted, now)
    {
      if req.kind != "" && req.kind != BEARER {
        return None, Some(KindUnsupported);
      }
      if req.requestId != "" && req.requestId in replays {
        return Some(replays[req.requestId]), None;
      }
      var expiry := if req.expiresIn <= 0 then options.defaultExpiry else req.expiresIn;
      if options.maxExpiry < expiry {
        return None, Some(ExpiryTooLong);
      }
      var record := NewRecord(options, req, minted, now);
      if record.host in byHost && byHost[record.host] in credentials
          && credentials[byHost[record.host]].state != Revoked {
        return None, Some(HostTaken);
      }
      PutRecord(record);
      var enrolled := Enrollment(record, minted.token);
      if req.requestId != "" {
        replays := replays[req.requestId := enrolled];
      }
      return Some(enrolled), None;
    }

    method AuthenticateToken(presented: Option<Sha>, now: int) returns (record: Option<Record>)
      requires Valid()
      modifies this`credentials, this`byHash, this`byHost
      ensures Valid()
      ensures AuthStep(Value(), record) == Authenticate(old(Value()), presented, now)
    {
      if presented == None || presented.value !in byHash || byHash[presented.value] !in credentials {
        return None;
      }
      var r := credentials[byHash[presented.value]];
      if r.kind != BEARER || r.state == Revoked {
        return None;
      }
      if r.hash == presented.value {
        if r.expiresAt <= now {
          return None;
        }
      } else if r.rotation != None && r.rotation.value.previous == presented.value {
        if r.rotation.value.until <= now {
          return None;
        }
      } else {
        return None;
      }
      assert Honours(r, presented.value, now);
      r := r.(lastUsedAt := now);
      if r.rotation != None && r.rotation.value.until <= now {
        byHash := byHash - {r.rotation.value.previous};
        r := r.(rotation := None);
        r := r.(state := Active);
      } else {
        assert byHash - {} == byHash;
      }
      PutRecord(r);
      var grants := FilterRevokedDevices(r);
      return Some(r.(devices := grants));
    }

    method RotateToken(id: string, grace: int, now: int, token: Sha)
      returns (result: Option<Enrollment>, error: Option<Error>)
      requires Valid()
      modifies this`credentials, this`byHash, this`byHost
      ensures Valid()
      ensures EnrollStep(Value(), result, error) == Rotate(old(Value()), options, id, grace, now, token)
    {
      if id !in credentials {
        return None, Some(NotFound);
      }
      var r := credentials[id];
      if r.state == Revoked {
        return None, Some(AlreadyRevoked);
      }
      if r.kind != BEARER {
        return None, Some(KindUnsupported);
      }
      if r.rotation != None {
        byHash := byHash - {r.rotation.value.previous};
      } else {
        assert byHash - {} == byHash;
      }
      var until := now + if grace <= 0 then DEFAULT_GRACE else grace;
      r := r.(rotation := Some(Rotation(r.hash, until)));
      r := r.(hash := token);
      r := r.(state := Rotating, issuedAt := now, expiresAt := now + options.defaultExpiry);
      PutRecord(r);
      var grants := FilterRevokedDevices(r);
      return Some(Enrollment(r.(devices := grants), token)), None;
    }

    method CloseRecord(id: string, now: int)
      requires id in credentials && credentials[id].id == id
      modifies this`credentials, this`byHash, this`byHost
      ensures Value() == Revoke(old(Value()), {id}, now)
    {
      var r := credentials[id];
      byHash := byHash - {r.hash};
      if r.rotation != None {
        byHash := byHash - {r.rotation.value.previous};
      }
      if r.host in byHost && byHost[r.host] == id {
        byHost := byHost - {r.host};
      }
      WriteRecord(r.(hash := "", rotation := None, state := Revoked, revokedAt := now));
      RevokeOne(old(Value()), id, now);
      assert byHash == old(byHash) - Secrets(r);
    }

    method RevokeCredential(id: string, now: int) returns (record: Option<Record>, error: Option<Error>)
      requires Valid()
      modifies this`credentials, this`byHash, this`byHost
      ensures Valid()
      ensures id in old(credentials) ==>
                && error == None && Value() == Revoke(old(Value()), {id}, now)
                && id in credentials && record == Some(credentials[id]) && credentials[id].state == Revoked
      ensures id !in old(credentials) ==> record == None && error == Some(NotFound) && Value() == old(Value())
    {
      if id !in credentials {
        return None, Some(NotFound);
      }
      CloseRecord(id, now);
      return Some(credentials[id]), None;
    }

    /** Validate the push and key it by credential. */
    method ReadPush(entries: seq<SyncEntry>) returns (incoming: map<string, SyncEntry>, error: Option<Error>)
      ensures error == PushError(entries)
      ensures error == None ==> incoming == Incoming(entries)
    {
      incoming, error := map[], None;
      var i := 0;
      while i < |entries|
        invariant 0 <= i <= |entries|
        invariant PushError(entries[..i]) == None && incoming == Incoming(entries[..i])
      {
        var e := entries[i];
        assert entries[..i + 1][..i] == entries[..i];
        assert PushError(entries[..i + 1]) == EntryError(e);
        if e.id == "" || e.host == "" {
          FirstErrorStands(entries, i + 1);
          return incoming, Some(EntryUnidentified);
        }
        if e.kind != "" && e.kind != BEARER {
          FirstErrorStands(entries, i + 1);
          return incoming, Some(KindUnsupported);
        }
        if !e.revoked && !IsHex64(e.hash) {
          FirstErrorStands(entries, i + 1);
          return incoming, Some(EntryHashInvalid);
        }
        incoming := incoming[e.id := e];
        i := i + 1;
      }
      assert entries[..i] == entries;
    }

    method CloseOneMore(c: string, ghost s: Store, ghost done: set<string>, now: int)
      requires done <= s.records.Keys && c in s.records && c !in done && s.records[c].id == c
      requires Value() == Revoke(s, done, now)
      modifies this`credentials, this`byHash, this`byHost
      ensures Value() == Revoke(s, done + {c}, now)
    {
      RevokeOneMore(s, done, c, now);
      assert credentials[c] == s.records[c];
      CloseRecord(c, now);
    }

    /** Revoke the live synced credentials the push leaves out or marks revoked. */
    method RevokeDropped(entries: seq<SyncEntry>, incoming: map<string, SyncEntry>, now: int)
      returns (hosts: seq<string>)
      requires Valid() && incoming == Incoming(entries)
      modifies this`credentials, this`byHash, this`byHost
      ensures Valid()
      ensures Value() == Revoke(old(Value()), Dropped(old(Value()), entries), now)
      ensures multiset(hosts) == HostsOf(old(Value()), Dropped(old(Value()), entries))
    {
      ghost var s := Value();
      ghost var dropped := Dropped(s, entries);
      hosts := [];
      var existing := credentials;
      var todo := set c | c in credentials && credentials[c].source == Synced;
      ghost var done := {};
      RevokeNothing(s, now);
      while todo != {}
        invariant todo <= existing.Keys && done <= dropped <= done + todo && done !! todo
        invariant Value() == Revoke(s, done, now) && multiset(hosts) == HostsOf(s, done)
        decreases todo
      {
        var c :| c in todo;
        todo := todo - {c};
        var r := existing[c];
        if r.state != Revoked && (c !in incoming || incoming[c].revoked) {
          assert c in dropped;
          CloseOneMore(c, s, done, now);
          HostsOneMore(s, done, c);
          hosts := hosts + [r.host];
          done := done + {c};
        } else {
          assert c !in dropped;
        }
      }
      assert done == dropped;
    }

    method ApplyPushed(e: SyncEntry, newRevision: string, now: int) returns (error: Option<Error>)
      requires Valid()
      modifies this`credentials, this`byHash, this`byHost
      ensures Valid()
      ensures var applied := ApplyEntry(old(Value()), options, e, newRevision, now);
              if applied.Ok? then error == None && Value() == applied.store
              else error == Some(applied.error) && Value() == old(Value())
    {
      if e.revoked {
        return None;
      }
      var r := if e.id in credentials then credentials[e.id] else FreshSynced(e.id, now);
      if r.source != Synced {
        return Some(LocallyEnrolled);
      }
      if r.generation != 0 {
        if r.state == Revoked || e.generation < r.generation {
          return None;
        }
        if e.generation == r.generation && r.hash != e.hash {
          return Some(SecretChanged);
        }
      }
      if r.pool != "" && r.pool != e.pool {
        return Some(PoolImmutable);
      }
      if r.hash != "" && r.hash != e.hash {
        byHash := byHash - {r.hash};
      } else {
        assert byHash - {} == byHash;
      }
      PutRecord(Pushed(options, r, e, newRevision, now));
      return None;
    }

    /** Apply the entries in order, stopping at the first that fails. */
    method ApplyAllPushed(entries: seq<SyncEntry>, newRevision: string, now: int) returns (error: Option<Error>)
      requires Valid()
      modifies this`credentials, this`byHash, this`byHost
      ensures Valid()
      ensures var applied := ApplyEntries(old(Value()), options, entries, newRevision, now);
              if applied.Ok? then error == None && Value() == applied.store else error == Some(applied.error)
    {
      error := None;
      var i := 0;
      while i < |entries|
        invariant 0 <= i <= |entries|
        invariant ApplyEntries(old(Value()), options, entries[..i], newRevision, now) == Ok(Value())
        invariant error == None && Valid()
      {
        assert entries[..i + 1][..i] == entries[..i];
        error := ApplyPushed(entries[i], newRevision, now);
        if error != None {
          FirstFailureStands(old(Value()), options, entries, i + 1, newRevision, now);
          return;
        }
        i := i + 1;
      }
      assert entries[..i] == entries;
    }

    method SyncPush(newRevision: string, entries: seq<SyncEntry>, now: int)
      returns (hosts: seq<string>, error: Option<Error>)
      requires Valid()
      modifies this
      ensures Valid()
      ensures SyncStep(Value(), multiset(hosts), error) == SyncReplace(old(Value()), options, newRevision, entries, now)
      ensures SortedBy(hosts, Itself)
    {
      hide Dropped, Revoke, ApplyEntries, HostsOf, PushError, Sort;
      hosts := [];
      var incoming, invalid := ReadPush(entries);
      if invalid != None {
        return [], invalid;
      }
      var credentials0, byHash0, byHost0 := credentials, byHash, byHost;
      hosts := RevokeDropped(entries, incoming, now);
      SortSorts(hosts, Itself);
      hosts := Sort(hosts, Itself);
      error := ApplyAllPushed(entries, newRevision, now);
      if error != None {
        credentials, byHash, byHost := credentials0, byHash0, byHost0;
        return;
      }
      revision := newRevision;
    }

    method FenceDevice(pool: string, host: string, device: string, generation: nat, reason: string)
      returns (error: Option<Error>)
      requires Valid()
      modifies this
      ensures Valid()
      ensures FenceStep(Value(), error) == RevokeDevice(old(Value()), pool, host, device, generation, reason)
    {
      if pool == "" || host == "" || device == "" || generation == 0 || reason == "" {
        return Some(RevocationUnqualified);
      }
      var key := FenceKey(pool, host, device);
      if key in fences && generation <= fences[key] {
        return None;
      }
      if host !in byHost || byHost[host] !in credentials {
        return Some(NotFound);
      }
      var r := credentials[byHost[host]];
      var owned := if device in r.devices then r.devices[device] else 0;
      if r.pool != pool || (owned != generation && owned != 0) {
        return Some(DeviceGenerationMismatch);
      }
      fences := fences[key := generation];
      PutRecord(r);
      return None;
    }

    method IsDeviceRevoked(pool: string, host: string, device: string, generation: nat) returns (revoked: bool)
      ensures revoked == DeviceRevoked(Value(), pool, host, device, generation)
    {
      var key := FenceKey(pool, host, device);
      revoked := key in fences && fences[key] >= generation;
    }
  }

  // ---- the loops' arithmetic ----

  lemma {:induction false} FirstErrorStands(entries: seq<SyncEntry>, i: nat)
    requires i <= |entries| && PushError(entries[..i]) != None
    ensures PushError(entries) == PushError(entries[..i])
    decreases |entries|
  {
    if i == |entries| {
      assert entries[..i] == entries;
    } else {
      var earlier := entries[..|entries| - 1];
      assert earlier[..i] == entries[..i];
      FirstErrorStands(earlier, i);
    }
  }

  lemma {:induction false} FirstFailureStands(s: Store, options: Options, entries: seq<SyncEntry>, i: nat,
                                              revision: string, now: int)
    requires i <= |entries| && ApplyEntries(s, options, entries[..i], revision, now).Failed?
    ensures ApplyEntries(s, options, entries, revision, now) == ApplyEntries(s, options, entries[..i], revision, now)
    decreases |entries|
  {
    if i == |entries| {
      assert entries[..i] == entries;
    } else {
      var earlier := entries[..|entries| - 1];
      assert earlier[..i] == entries[..i];
      FirstFailureStands(s, options, earlier, i, revision, now);
    }
  }

  lemma RevokeOneMore(s: Store, done: set<string>, c: string, now: int)
    requires done <= s.records.Keys && c in s.records && c !in done
    ensures Revoke(Revoke(s, done, now), {c}, now) == Revoke(s, done + {c}, now)
  {
    var t, u := Revoke(Revoke(s, done, now), {c}, now), Revoke(s, done + {c}, now);
    assert t.records == u.records;
    assert t.byHash == u.byHash;
    assert t.byHost == u.byHost;
  }

  lemma {:induction false} HostsOneMore(s: Store, done: set<string>, c: string)
    requires done <= s.records.Keys && c in s.records && c !in done
    ensures HostsOf(s, done + {c}) == HostsOf(s, done) + multiset{s.records[c].host}
    decreases |done|
  {
    var all := done + {c};
    var k :| k in all && HostsOf(s, all) == multiset{s.records[k].host} + HostsOf(s, all - {k});
    if k == c {
      assert all - {c} == done;
    } else {
      var rest := done - {k};
      assert all - {k} == rest + {c} && rest + {k} == done;
      hide HostsOf;
      HostsOneMore(s, rest, c);
      HostsOneMore(s, rest, k);
    }
  }
}

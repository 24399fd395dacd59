/** What a controller push does not promise, and exactly when it does. */
module SyncLimits {
  import opened Optional
  import opened Credentials
  import opened CredentialFates
  import opened CredentialIndex
  import opened CredentialSecrets
  import opened CredentialSync

  ghost function OneEntry(host: string, token: Sha): SyncEntry {
    SyncEntry("cred", host, "pool", BEARER, 0, token, 0, "", false, map["gpu" := 1])
  }

  lemma PushOne(s: Store, options: Options, revision: string, e: SyncEntry, now: int)
    requires EntryError(e) == None && !e.revoked && Judge(options, Lookup(s, e.id), e, revision, now).Write?
    requires s.records.Keys <= {e.id}
    ensures var verdict := Judge(options, Lookup(s, e.id), e, revision, now);
            SyncReplace(s, options, revision, [e], now).store
            == Put(s.(byHash := s.byHash - verdict.stale), verdict.record).(revision := revision)
  {
    assert [e][..0] == [] && PushError([e]) == None && Dropped(s, [e]) == {};
    RevokeNothing(s, now);
    assert ApplyEntries(s, options, [e][..0], revision, now) == Ok(s);
  }

  /** The credential sits at this host, as pushed. */
  ghost predicate PushedTo(s: Store, host: string, token: Sha) {
    && s.records.Keys == {"cred"} && s.fences == map[]
    && var r := s.records["cred"];
    && r.id == "cred" && r.host == host && r.pool == "pool" && r.source == Synced && r.state == Active
    && r.generation == 0 && r.hash == token && r.devices == map["gpu" := 1]
    && host in s.byHost && s.byHost[host] == "cred"
  }

  lemma PushTo(s: Store, options: Options, revision: string, host: string, token: Sha, now: int)
    requires s == EMPTY || exists h :: PushedTo(s, h, token)
    requires host != ""
    ensures var t := SyncReplace(s, options, revision, [OneEntry(host, token)], now).store;
            && PushedTo(t, host, token)
            && forall h :: h in s.byHost && h != host ==> h in t.byHost && t.byHost[h] == s.byHost[h]
  {
    var e := OneEntry(host, token);
    assert Judge(options, Lookup(s, "cred"), e, revision, now).Write?;
    PushOne(s, options, revision, e, now);
    var t := SyncReplace(s, options, revision, [e], now).store;
    assert t.records["cred"].devices == map["gpu" := 1];
  }

  /** A revoked credential without a generation is not buried: one push brings any secret of it back. */
  lemma UngeneratedIsRevivable(s: Store, owner: string -> string, options: Options, c: string, host: string,
                               token: Sha, now: nat)
    requires Indexed(s, owner) && c in s.records && c != "" && host != "" && 0 < options.maxExpiry
    requires s.records[c].state == Revoked && s.records[c].source == Synced && s.records[c].generation == 0
    ensures var push := [SyncEntry(c, host, s.records[c].pool, BEARER, 0, token, now + 1, "", false, map[])];
            var step := SyncReplace(s, options, "", push, now);
            step.error == None && Authenticate(step.store, Some(token), now).record != None
  {
    var e := SyncEntry(c, host, s.records[c].pool, BEARER, 0, token, now + 1, "", false, map[]);
    var push := [e];
    IndexedIdsMatch(s, owner);
    assert push[..0] == [] && PushError(push) == None;
    var s1 := Revoke(s, Dropped(s, push), now);
    assert c !in Dropped(s, push) && s1.records[c] == s.records[c];
    assert ApplyEntries(s1, options, push[..0], "", now) == Ok(s1);
    assert Judge(options, Lookup(s1, c), e, "", now).Write?;
  }

  lemma NoHostsOfNobody(s: Store, ids: set<string>)
    requires ids <= s.records.Keys
    ensures HostsOf(s, ids) == multiset{} <==> ids == {}
  {
    if ids != {} {
      var c :| c in ids && HostsOf(s, ids) == multiset{s.records[c].host} + HostsOf(s, ids - {c});
      var h := s.records[c].host;
      assert (multiset{h} + HostsOf(s, ids - {c}))[h] > 0;
    }
  }

  /** A push that fails changes nothing, yet it still names hosts exactly when it is well formed, some id's entries are
      refused after the sweep, and the sweep had something to drop. */
  lemma FailedPushStillNamesHosts(s: Store, options: Options, revision: string, entries: seq<SyncEntry>, now: int)
    requires IdsMatch(s)
    ensures var step := SyncReplace(s, options, revision, entries, now);
            && (step.error != None ==> step.store == s)
            && (step.error != None && step.revokedHosts != multiset{} <==>
                  && PushError(entries) == None && Dropped(s, entries) != {}
                  && SomeIdRefused(Revoke(s, Dropped(s, entries), now), options, entries, revision, now))
  {
    PushFailsExactlyWhenAnIdIsRefused(s, options, revision, entries, now);
    NoHostsOfNobody(s, Dropped(s, entries));
  }

  lemma NamingAnEnrolledIdFails(s: Store, options: Options, revision: string, e: SyncEntry, now: int, c: string)
    requires IdsMatch(s) && EntryError(e) == None && !e.revoked && e.id in s.records
             && s.records[e.id].source == Enrolled
    requires IsLiveSynced(s, c)
    ensures var step := SyncReplace(s, options, revision, [e], now);
            step.error != None && step.store == s && step.revokedHosts != multiset{}
  {
    var entries := [e];
    assert entries[..0] == [] && PushError(entries[..0]) == None && Incoming(entries[..0]) == map[];
    assert Incoming(entries) == map[e.id := e];
    assert c in Dropped(s, entries);
    assert Judge(options, Lookup(s, entries[0].id), entries[0], revision, now).Fail?;
    PushFailsExactlyWhenRefused(s, options, revision, entries, now);
    NoHostsOfNobody(s, Dropped(s, entries));
  }

  /** Such a push: a synced credential at host "a" is left out of a push that names a locally enrolled one. */
  lemma FailedPushExample(options: Options, token: Sha, minted: Minted)
    requires minted.id != "cred" && minted.id != "" && options.defaultExpiry <= options.maxExpiry
    ensures var s1 := SyncReplace(EMPTY, options, "1", [OneEntry("a", token)], 1).store;
            var s2 := Enroll(s1, options, EnrollRequest("h", "", "", 0, ""), minted, 2).store;
            var step := SyncReplace(s2, options, "2", [OneEntry("h", token).(id := minted.id)], 3);
            step.error != None && step.store == s2 && step.revokedHosts != multiset{}
  {
    PushTo(EMPTY, options, "1", "a", token, 1);
    var s1 := SyncReplace(EMPTY, options, "1", [OneEntry("a", token)], 1).store;
    PushOne(EMPTY, options, "1", OneEntry("a", token), 1);
    assert "h" !in s1.byHost;
    EnrollBeside(s1, options, token, minted);
    var s2 := Enroll(s1, options, EnrollRequest("h", "", "", 0, ""), minted, 2).store;
    NamingAnEnrolledIdFails(s2, options, "2", OneEntry("h", token).(id := minted.id), 3, "cred");
  }

  lemma EnrollBeside(s: Store, options: Options, token: Sha, minted: Minted)
    requires PushedTo(s, "a", token) && "h" !in s.byHost && minted.id != "cred"
             && options.defaultExpiry <= options.maxExpiry
    ensures var t := Enroll(s, options, EnrollRequest("h", "", "", 0, ""), minted, 2).store;
            IdsMatch(t) && IsLiveSynced(t, "cred") && minted.id in t.records && t.records[minted.id].source == Enrolled
  {
    var t := Enroll(s, options, EnrollRequest("h", "", "", 0, ""), minted, 2).store;
    var r := NewRecord(options, EnrollRequest("h", "", "", 0, ""), minted, 2);
    assert t.records == s.records[minted.id := Filtered(s.fences, r)];
  }

  /** A push that names one credential first live and then revoked succeeds, returns its host, and leaves it live and as
      it was, on any store a push of it alone leaves (PushTo); so it does every time it is repeated. */
  lemma RepeatedIdNeverSettles(s: Store, options: Options, revision: string, token: Sha, now: int)
    requires PushedTo(s, "a", token)
    ensures var push := [OneEntry("a", token), OneEntry("a", token).(revoked := true)];
            var step := SyncReplace(s, options, revision, push, now);
            step.error == None && step.revokedHosts == multiset{"a"} && PushedTo(step.store, "a", token)
  {
    var e, e' := OneEntry("a", token), OneEntry("a", token).(revoked := true);
    var push := [e, e'];
    assert push[..1] == [e] && [e][..0] == [] && PushError([e]) == None && PushError(push) == None;
    assert Incoming([e]) == map["cred" := e] && Incoming(push) == map["cred" := e'];
    assert Dropped(s, push) == {"cred"};
    assert {"cred"} - {"cred"} == {} && HostsOf(s, {"cred"}) == multiset{"a"};
    var s1 := Revoke(s, {"cred"}, now);
    AfterTheSweep(s, s1, options, revision, token, now);
    assert ApplyEntries(s1, options, [e][..0], revision, now) == Ok(s1);
    assert ApplyEntries(s1, options, push, revision, now) == ApplyEntries(s1, options, [e], revision, now);
  }

  lemma AfterTheSweep(s: Store, s1: Store, options: Options, revision: string, token: Sha, now: int)
    requires PushedTo(s, "a", token) && s1 == Revoke(s, {"cred"}, now)
    ensures var applied := ApplyEntry(s1, options, OneEntry("a", token), revision, now);
            applied.Ok? && PushedTo(applied.store.(revision := revision), "a", token)
  {
    assert Judge(options, Lookup(s1, "cred"), OneEntry("a", token), revision, now).Write?;
    var t := ApplyEntry(s1, options, OneEntry("a", token), revision, now).store;
    assert t.records["cred"].devices == map["gpu" := 1];
  }

  // ---- a hash that changes hands ----

  function Holder(id: string, token: Sha): SyncEntry {
    SyncEntry(id, "host-" + id, "pool", BEARER, 0, token, 0, "", false, map[])
  }

  ghost predicate Holds(s: Store, id: string, token: Sha) {
    && id in s.records
    && var r := s.records[id];
    && r.id == id && r.source == Synced && r.state == Active && r.generation == 0 && r.pool == "pool"
    && r.kind == BEARER && r.hash == token
  }

  /** Both credentials are live with these hashes, and nothing else is known. */
  ghost predicate Hold(s: Store, a: Sha, b: Sha) {
    s.records.Keys == {"a", "b"} && s.fences == map[] && Holds(s, "a", a) && Holds(s, "b", b)
  }

  ghost predicate Starts(s: Store) {
    s == EMPTY || exists x: Sha, y: Sha :: Hold(s, x, y)
  }

  lemma HolderIsWritten(s: Store, options: Options, revision: string, id: string, token: Sha, now: int)
    requires Starts(s) && (id == "a" || id == "b")
    ensures var known, verdict := Lookup(s, id), VerdictOf(s, options, Holder(id, token), revision, now);
            && verdict.Write? && EntryError(Holder(id, token)) == None
            && verdict.stale == (if known != None && known.value.hash != token then {known.value.hash} else {})
            && var r := verdict.record;
            && r.id == id && r.source == Synced && r.state == Active && r.generation == 0 && r.pool == "pool"
            && r.kind == BEARER && r.hash == token
  {
  }

  lemma PushOfTwo(s: Store, a: Sha, b: Sha)
    requires Starts(s)
    ensures var push := [Holder("a", a), Holder("b", b)];
            DistinctIds(push) && PushError(push) == None && Dropped(s, push) == {} && IdsMatch(s)
  {
    var e, f := Holder("a", a), Holder("b", b);
    var push := [e, f];
    assert push[..1] == [e] && [e][..0] == [];
    assert EntryError(e) == None && EntryError(f) == None;
    assert PushError([e]) == None;
    IncomingHolds(push, 0);
    IncomingHolds(push, 1);
    assert push[0] == e && push[1] == f;
  }

  lemma TwoApply(s: Store, options: Options, revision: string, a: Sha, b: Sha, now: int)
    requires Starts(s)
    ensures ApplyEntries(s, options, [Holder("a", a), Holder("b", b)], revision, now).Ok?
  {
    var push := [Holder("a", a), Holder("b", b)];
    PushOfTwo(s, a, b);
    HolderIsWritten(s, options, revision, "a", a, now);
    HolderIsWritten(s, options, revision, "b", b, now);
    hide Judge, ApplyEntries;
    forall i | 0 <= i < 2 ensures !VerdictOf(s, options, push[i], revision, now).Fail? {
      assert push[i] == Holder("a", a) || push[i] == Holder("b", b);
    }
    UnrefusedEntriesApply(s, options, push, revision, now);
  }

  lemma HolderLands(s: Store, t: Store, options: Options, revision: string, id: string, token: Sha, now: int)
    requires Starts(s) && (id == "a" || id == "b") && Landed(s, t, options, Holder(id, token), revision, now)
    ensures Holds(t, id, token)
  {
    HolderIsWritten(s, options, revision, id, token, now);
  }

  lemma TwoLand(s: Store, options: Options, revision: string, a: Sha, b: Sha, now: int)
    requires Starts(s) && ApplyEntries(s, options, [Holder("a", a), Holder("b", b)], revision, now).Ok?
    ensures Hold(ApplyEntries(s, options, [Holder("a", a), Holder("b", b)], revision, now).store, a, b)
  {
    var push := [Holder("a", a), Holder("b", b)];
    PushOfTwo(s, a, b);
    EntriesActAlone(s, options, push, revision, now);
    hide Judge, ApplyEntries, HostWrites, Landed, Holds, Outcome;
    var t := ApplyEntries(s, options, push, revision, now).store;
    assert push[0] == Holder("a", a) && push[1] == Holder("b", b);
    assert Landed(s, t, options, push[0], revision, now) && Landed(s, t, options, push[1], revision, now);
    HolderLands(s, t, options, revision, "a", a, now);
    HolderLands(s, t, options, revision, "b", b, now);
    OnlyTheTwo(s, t, push, a, b);
  }

  lemma OnlyTheTwo(s: Store, t: Store, push: seq<SyncEntry>, a: Sha, b: Sha)
    requires Starts(s) && push == [Holder("a", a), Holder("b", b)] && OthersUntouched(s, t, push)
    requires Holds(t, "a", a) && Holds(t, "b", b)
    ensures t.records.Keys == {"a", "b"}
  {
    forall c | c != "a" && c != "b" ensures c !in t.records {
      assert c !in Ids(push);
      assert Lookup(t, c) == Lookup(s, c);
    }
  }

  lemma PushTwo(s: Store, options: Options, revision: string, a: Sha, b: Sha, now: int)
    requires Starts(s)
    ensures var push := [Holder("a", a), Holder("b", b)];
            var step := SyncReplace(s, options, revision, push, now);
            && step.error == None && Hold(step.store, a, b)
            && step.store.byHash == HashAfter(s, options, push, revision, now)
  {
    var push := [Holder("a", a), Holder("b", b)];
    PushOfTwo(s, a, b);
    RevokeNothing(s, now);
    TwoApply(s, options, revision, a, b, now);
    TwoLand(s, options, revision, a, b, now);
    EntriesIndex(s, options, push, revision, now);
    hide ApplyEntries, HashAfter, Dropped, PushError;
  }

  /** Two credentials that swap hashes in one push: the second drops the hash the first has just taken, so the first
      is live with a secret the index does not hold. */
  lemma SwappedHashIsLost(options: Options, h: Sha, k: Sha)
    requires h != k
    ensures var s1 := SyncReplace(EMPTY, options, "1", [Holder("a", h), Holder("b", k)], 1).store;
            var s2 := SyncReplace(s1, options, "2", [Holder("a", k), Holder("b", h)], 2).store;
            "a" in s2.records && s2.records["a"].state == Active && s2.records["a"].hash == k && k !in s2.byHash
  {
    PushTwo(EMPTY, options, "1", h, k, 1);
    var s1 := SyncReplace(EMPTY, options, "1", [Holder("a", h), Holder("b", k)], 1).store;
    PushTwo(s1, options, "2", k, h, 2);
    HolderIsWritten(s1, options, "2", "a", k, 2);
    HolderIsWritten(s1, options, "2", "b", h, 2);
    hide SyncReplace, VerdictOf;
    var push := [Holder("a", k), Holder("b", h)];
    assert push[..1] == [Holder("a", k)] && [Holder("a", k)][..0] == [];
  }
}

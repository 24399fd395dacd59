/** What a successful controller push leaves behind: exactly the pushed set, reported exactly, and idempotently. */
module CredentialSync {
  import opened Optional
  import opened Credentials
  import opened CredentialFates
  import opened CredentialIndex

  ghost predicate DistinctIds(entries: seq<SyncEntry>) {
    forall i, j :: 0 <= i < j < |entries| ==> entries[i].id != entries[j].id
  }

  /** The host index entries a push writes; a later entry for the same host wins. */
  ghost function HostWrites(s: Store, options: Options, entries: seq<SyncEntry>, revision: string,
                            now: int): map<string, string>
  {
    if entries == [] then map[]
    else
      var e := entries[|entries| - 1];
      var earlier := HostWrites(s, options, entries[..|entries| - 1], revision, now);
      if Judge(options, Lookup(s, e.id), e, revision, now).Write? then earlier[e.host := e.id] else earlier
  }

  ghost function Ids(entries: seq<SyncEntry>): set<string> {
    set i | 0 <= i < |entries| :: entries[i].id
  }

  /** The entry was accepted and left exactly its own outcome. */
  ghost predicate Landed(s: Store, t: Store, options: Options, e: SyncEntry, revision: string, now: int) {
    !Judge(options, Lookup(s, e.id), e, revision, now).Fail? && Lookup(t, e.id) == Outcome(s, options, e, revision, now)
  }

  ghost predicate AllLanded(s: Store, t: Store, options: Options, entries: seq<SyncEntry>, revision: string, now: int) {
    forall i :: 0 <= i < |entries| ==> Landed(s, t, options, entries[i], revision, now)
  }

  ghost predicate OthersUntouched(s: Store, t: Store, entries: seq<SyncEntry>) {
    forall c :: c !in Ids(entries) ==> Lookup(t, c) == Lookup(s, c)
  }

  /** With distinct ids every entry acts on the record the push started from, and on no other. */
  lemma {:induction false} EntriesActAlone(s: Store, options: Options, entries: seq<SyncEntry>, revision: string,
                                           now: int)
    requires DistinctIds(entries) && IdsMatch(s) && ApplyEntries(s, options, entries, revision, now).Ok?
    ensures var t := ApplyEntries(s, options, entries, revision, now).store;
            && IdsMatch(t) && t.fences == s.fences && t.replays == s.replays && t.revision == s.revision
            && t.byHost == s.byHost + HostWrites(s, options, entries, revision, now)
            && AllLanded(s, t, options, entries, revision, now) && OthersUntouched(s, t, entries)
    decreases |entries|
  {
    hide Judge, Put;
    if entries != [] {
      var n := |entries| - 1;
      var earlier, e := entries[..n], entries[n];
      EntriesActAlone(s, options, earlier, revision, now);
      var u := ApplyEntries(s, options, earlier, revision, now).store;
      var t := ApplyEntries(s, options, entries, revision, now).store;
      assert e.id !in Ids(earlier);
      assert Lookup(u, e.id) == Lookup(s, e.id);
      EntryActsAlone(u, options, e, revision, now);
      NextEntryLands(s, u, t, options, entries, revision, now);
      assert (s.byHost + HostWrites(s, options, earlier, revision, now))[e.host := e.id]
          == s.byHost + HostWrites(s, options, earlier, revision, now)[e.host := e.id];
    }
  }

  lemma NextEntryLands(s: Store, u: Store, t: Store, options: Options, entries: seq<SyncEntry>, revision: string,
                       now: int)
    requires entries != [] && DistinctIds(entries)
    requires var earlier := entries[..|entries| - 1];
             AllLanded(s, u, options, earlier, revision, now) && OthersUntouched(s, u, earlier)
    requires Landed(s, t, options, entries[|entries| - 1], revision, now)
    requires forall c :: c != entries[|entries| - 1].id ==> Lookup(t, c) == Lookup(u, c)
    ensures AllLanded(s, t, options, entries, revision, now) && OthersUntouched(s, t, entries)
  {
    var n := |entries| - 1;
    forall i | 0 <= i < |entries|
      ensures Landed(s, t, options, entries[i], revision, now)
    {
      if i < n {
        assert Landed(s, u, options, entries[..n][i], revision, now);
        assert Lookup(t, entries[i].id) == Lookup(u, entries[i].id);
      }
    }
    forall c | c !in Ids(entries)
      ensures Lookup(t, c) == Lookup(s, c)
    {
      assert entries[n].id in Ids(entries);
      forall i | 0 <= i < n ensures entries[..n][i].id != c { assert entries[i].id in Ids(entries); }
      assert c !in Ids(entries[..n]);
    }
  }

  // ---- when a push is refused ----

  /** Some entry of the push is refused by the record it names. */
  ghost predicate EntryRefused(s: Store, options: Options, entries: seq<SyncEntry>, revision: string, now: int) {
    exists i :: 0 <= i < |entries| && Judge(options, Lookup(s, entries[i].id), entries[i], revision, now).Fail?
  }

  lemma {:induction false} UnrefusedEntriesApply(s: Store, options: Options, entries: seq<SyncEntry>, revision: string,
                                                 now: int)
    requires DistinctIds(entries) && IdsMatch(s) && !EntryRefused(s, options, entries, revision, now)
    ensures ApplyEntries(s, options, entries, revision, now).Ok?
    decreases |entries|
  {
    if entries != [] {
      var n := |entries| - 1;
      var earlier, e := entries[..n], entries[n];
      forall i | 0 <= i < n ensures !Judge(options, Lookup(s, earlier[i].id), earlier[i], revision, now).Fail? {
        assert earlier[i] == entries[i];
      }
      UnrefusedEntriesApply(s, options, earlier, revision, now);
      EntriesActAlone(s, options, earlier, revision, now);
      assert e.id !in Ids(earlier);
    }
  }

  /** The sweep before the entries are applied does not touch what a live entry names. */
  lemma SweepKeepsTheNamed(s: Store, entries: seq<SyncEntry>, now: int, i: nat)
    requires DistinctIds(entries) && i < |entries| && !entries[i].revoked
    ensures Lookup(Revoke(s, Dropped(s, entries), now), entries[i].id) == Lookup(s, entries[i].id)
  {
    IncomingIsTheEntry(entries);
  }

  lemma SweepRefusesNoMore(s: Store, options: Options, entries: seq<SyncEntry>, revision: string, now: int)
    requires DistinctIds(entries)
    ensures EntryRefused(Revoke(s, Dropped(s, entries), now), options, entries, revision, now)
            <==> EntryRefused(s, options, entries, revision, now)
  {
    var s1 := Revoke(s, Dropped(s, entries), now);
    forall i | 0 <= i < |entries|
      ensures Judge(options, Lookup(s1, entries[i].id), entries[i], revision, now).Fail?
              <==> Judge(options, Lookup(s, entries[i].id), entries[i], revision, now).Fail?
    {
      if !entries[i].revoked {
        SweepKeepsTheNamed(s, entries, now, i);
      }
    }
  }

  /** A push with distinct ids fails exactly when an entry is malformed or refused by the record it names. */
  lemma PushFailsExactlyWhenRefused(s: Store, options: Options, revision: string, entries: seq<SyncEntry>, now: int)
    requires DistinctIds(entries) && IdsMatch(s)
    ensures SyncReplace(s, options, revision, entries, now).error != None
            <==> PushError(entries) != None || EntryRefused(s, options, entries, revision, now)
  {
    var s1 := Revoke(s, Dropped(s, entries), now);
    SweepRefusesNoMore(s, options, entries, revision, now);
    if EntryRefused(s1, options, entries, revision, now) {
      if ApplyEntries(s1, options, entries, revision, now).Ok? {
        EntriesActAlone(s1, options, entries, revision, now);
      }
    } else {
      UnrefusedEntriesApply(s1, options, entries, revision, now);
    }
  }

  /** Any push fails exactly when an entry is malformed or, after the sweep, some id's entries are refused in turn. */
  lemma PushFailsExactlyWhenAnIdIsRefused(s: Store, options: Options, revision: string, entries: seq<SyncEntry>,
                                          now: int)
    requires IdsMatch(s)
    ensures SyncReplace(s, options, revision, entries, now).error != None
            <==> PushError(entries) != None
                 || SomeIdRefused(Revoke(s, Dropped(s, entries), now), options, entries, revision, now)
  {
    EntriesFailExactlyWhenAnIdIsRefused(Revoke(s, Dropped(s, entries), now), options, entries, revision, now);
  }

  lemma {:induction false} IncomingHolds(entries: seq<SyncEntry>, i: nat)
    requires DistinctIds(entries) && i < |entries|
    ensures entries[i].id in Incoming(entries) && Incoming(entries)[entries[i].id] == entries[i]
    decreases |entries|
  {
    var n := |entries| - 1;
    if i < n {
      IncomingHolds(entries[..n], i);
    }
  }

  lemma {:induction false} IncomingIsPushed(entries: seq<SyncEntry>, c: string)
    requires c in Incoming(entries)
    ensures exists i :: 0 <= i < |entries| && entries[i].id == c
    decreases |entries|
  {
    var n := |entries| - 1;
    if c != entries[n].id {
      IncomingIsPushed(entries[..n], c);
      var i :| 0 <= i < n && entries[..n][i].id == c;
      assert entries[i].id == c;
    }
  }

  /** With distinct ids the push by id is the push. */
  lemma IncomingIsTheEntry(entries: seq<SyncEntry>)
    requires DistinctIds(entries)
    ensures forall i :: 0 <= i < |entries| ==>
              entries[i].id in Incoming(entries) && Incoming(entries)[entries[i].id] == entries[i]
    ensures forall c :: c in Incoming(entries) ==> exists i :: 0 <= i < |entries| && entries[i].id == c
  {
    forall i | 0 <= i < |entries|
      ensures entries[i].id in Incoming(entries) && Incoming(entries)[entries[i].id] == entries[i]
    {
      IncomingHolds(entries, i);
    }
    forall c | c in Incoming(entries) ensures exists i :: 0 <= i < |entries| && entries[i].id == c {
      IncomingIsPushed(entries, c);
    }
  }

  /** A live entry names c, and c is not a generation-qualified credential that was revoked or that the sweep drops. */
  ghost predicate PushedLive(s: Store, entries: seq<SyncEntry>, c: string) {
    && NamesLive(entries, c)
    && !(c in s.records && s.records[c].generation != 0 && (s.records[c].state == Revoked || c in Dropped(s, entries)))
  }

  /** What the push did to c. */
  ghost predicate PushOutcome(s: Store, t: Store, entries: seq<SyncEntry>, c: string) {
    && (IsLiveSynced(t, c) <==> PushedLive(s, entries, c))
    && (c in s.records && s.records[c].source == Enrolled ==> Lookup(t, c) == Lookup(s, c))
    && (c in t.records && t.records[c].source == Enrolled ==> Lookup(t, c) == Lookup(s, c))
    && (c in Dropped(s, entries) && !PushedLive(s, entries, c) <==>
          c in s.records && s.records[c].state != Revoked && c in t.records && t.records[c].state == Revoked)
  }

  lemma {:induction false} LastEntryIsPushed(entries: seq<SyncEntry>, c: string)
    requires c in Incoming(entries) && !Incoming(entries)[c].revoked
    ensures NamesLive(entries, c)
    decreases |entries|
  {
    NamesLiveOneMore(entries, c);
    if c != entries[|entries| - 1].id {
      LastEntryIsPushed(entries[..|entries| - 1], c);
    }
  }

  /** After any successful push the live synced credentials are exactly those a live entry names, less the
      generation-qualified ones that were revoked already or by the sweep; locally enrolled records are untouched. */
  lemma LiveSetIsThePush(s: Store, options: Options, revision: string, entries: seq<SyncEntry>, now: int, c: string)
    requires IdsMatch(s) && SyncReplace(s, options, revision, entries, now).error == None
    ensures var t := SyncReplace(s, options, revision, entries, now).store;
            IdsMatch(t) && t.fences == s.fences && PushOutcome(s, t, entries, c)
  {
    var s1 := Revoke(s, Dropped(s, entries), now);
    var t0 := ApplyEntries(s1, options, entries, revision, now).store;
    var t := t0.(revision := revision);
    EntriesFollowTheirIds(s1, options, entries, revision, now, c);
    FateIsAsNamed(s1.fences, options, Lookup(s1, c), entries, c, revision, now);
    hide FateOf, ApplyEntries;
    assert Lookup(t, c) == Lookup(t0, c);
    if IsLiveSynced(s, c) && c !in Dropped(s, entries) {
      LastEntryIsPushed(entries, c);
    }
  }

  /** A credential the sweep drops and a live entry of the same push brings back. */
  ghost predicate Revived(s: Store, entries: seq<SyncEntry>, c: string) {
    c in Dropped(s, entries) && NamesLive(entries, c) && s.records[c].generation == 0
  }

  ghost predicate SomeRevived(s: Store, entries: seq<SyncEntry>) {
    exists c :: Revived(s, entries, c)
  }

  /** The credentials that went from live to revoked. */
  function ClosedBetween(s: Store, t: Store): (ids: set<string>)
    ensures ids <= s.records.Keys
  {
    set c | c in s.records && s.records[c].state != Revoked && c in t.records && t.records[c].state == Revoked
  }

  lemma {:induction false} HostsAreCounted(s: Store, ids: set<string>)
    requires ids <= s.records.Keys
    ensures |HostsOf(s, ids)| == |ids|
    decreases |ids|
  {
    if ids != {} {
      var c :| c in ids && HostsOf(s, ids) == multiset{s.records[c].host} + HostsOf(s, ids - {c});
      HostsAreCounted(s, ids - {c});
    }
  }

  lemma FewerAreFewer(a: set<string>, b: set<string>)
    requires a <= b && |a| == |b|
    ensures a == b
  {
    assert b == a + (b - a) && |b| == |a| + |b - a|;
  }

  /** The hosts handed back are exactly those of the credentials the push took from live to revoked, just when no
      credential is both dropped and revived. */
  lemma RevokedHostsAreExact(s: Store, options: Options, revision: string, entries: seq<SyncEntry>, now: int)
    requires IdsMatch(s) && SyncReplace(s, options, revision, entries, now).error == None
    ensures var step := SyncReplace(s, options, revision, entries, now);
            step.revokedHosts == HostsOf(s, ClosedBetween(s, step.store)) <==> !SomeRevived(s, entries)
  {
    var step := SyncReplace(s, options, revision, entries, now);
    var closed, dropped := ClosedBetween(s, step.store), Dropped(s, entries);
    forall c ensures c in closed <==> c in dropped && !Revived(s, entries, c) {
      LiveSetIsThePush(s, options, revision, entries, now, c);
    }
    hide SyncReplace, Dropped;
    assert closed <= dropped;
    if step.revokedHosts == HostsOf(s, closed) {
      HostsAreCounted(s, closed);
      HostsAreCounted(s, dropped);
      FewerAreFewer(closed, dropped);
    }
    if !SomeRevived(s, entries) {
      assert closed == dropped;
    }
  }

  /** Distinct ids revive nobody. */
  lemma DistinctIdsReviveNobody(s: Store, entries: seq<SyncEntry>)
    requires DistinctIds(entries)
    ensures !SomeRevived(s, entries)
  {
    IncomingIsTheEntry(entries);
  }

  /** A push does not touch what locally enrolled credentials can do: a token resolves to an enrolled record
      after the push exactly as it did before. */
  lemma EnrolledAuthenticateAsBefore(s: Store, owner: string -> string, options: Options, revision: string,
                                     entries: seq<SyncEntry>, now: int, presented: Sha, later: int)
    requires Indexed(s, owner) && EntriesRespect(entries, owner)
    requires SyncReplace(s, options, revision, entries, now).error == None
    ensures var t := SyncReplace(s, options, revision, entries, now).store;
            var before := Authenticate(s, Some(presented), later).record;
            var after := Authenticate(t, Some(presented), later).record;
            ((before != None && before.value.source == Enrolled) || (after != None && after.value.source == Enrolled))
            ==> before == after
  {
    var t := SyncReplace(s, options, revision, entries, now).store;
    var c := owner(presented);
    SyncKeeps(s, owner, options, revision, entries, now);
    IndexedIdsMatch(s, owner);
    LiveSetIsThePush(s, options, revision, entries, now, c);
    assert c in s.records ==> RecordIndexed(s, owner, c);
    assert c in t.records ==> RecordIndexed(t, owner, c);
  }

  lemma IndexedIdsMatch(s: Store, owner: string -> string)
    requires Indexed(s, owner)
    ensures IdsMatch(s)
  {
    forall c | c in s.records ensures s.records[c].id == c { assert RecordIndexed(s, owner, c); }
  }

  // ---- idempotence ----

  /** Judged again on what it left behind, an entry writes the same record and drops nothing. */
  lemma JudgedAgain(s: Store, t: Store, options: Options, e: SyncEntry, revision: string, now: int)
    requires IdsMatch(s) && t.fences == s.fences && Landed(s, t, options, e, revision, now)
    ensures var first := Judge(options, Lookup(s, e.id), e, revision, now);
            var again := Judge(options, Lookup(t, e.id), e, revision, now);
            && (first.Skip? <==> again.Skip?)
            && (first.Write? ==> again == Write(first.record, {}))
  {
  }

  /** The second pass rewrites what is there and repeats the host index writes. */
  lemma {:induction false} SecondPass(s: Store, t: Store, owner: string -> string, options: Options,
                                      entries: seq<SyncEntry>, revision: string, now: int)
    requires IdsMatch(s) && Indexed(t, owner) && t.fences == s.fences
    requires PushError(entries) == None
    requires AllLanded(s, t, options, entries, revision, now)
    ensures ApplyEntries(t, options, entries, revision, now)
            == Ok(t.(byHost := t.byHost + HostWrites(s, options, entries, revision, now)))
    decreases |entries|
  {
    if entries == [] {
      assert t.byHost + map[] == t.byHost;
    } else {
      var n := |entries| - 1;
      var earlier, e := HostWrites(s, options, entries[..n], revision, now), entries[n];
      assert forall i :: 0 <= i < n ==> entries[..n][i] == entries[i];
      SecondPass(s, t, owner, options, entries[..n], revision, now);
      assert Landed(s, t, options, e, revision, now);
      RewritesNothing(s, t, owner, options, e, revision, now, t.byHost + earlier);
      assert (t.byHost + earlier)[e.host := e.id] == t.byHost + earlier[e.host := e.id];
    }
  }

  lemma RewritesNothing(s: Store, t: Store, owner: string -> string, options: Options, e: SyncEntry, revision: string,
                        now: int, hosts: map<string, string>)
    requires IdsMatch(s) && Indexed(t, owner) && t.fences == s.fences && EntryError(e) == None
    requires Landed(s, t, options, e, revision, now)
    ensures ApplyEntry(t.(byHost := hosts), options, e, revision, now)
            == Ok(t.(byHost := if Judge(options, Lookup(s, e.id), e, revision, now).Write?
                               then hosts[e.host := e.id] else hosts))
  {
    var first := Judge(options, Lookup(s, e.id), e, revision, now);
    var u := t.(byHost := hosts);
    JudgedAgain(s, t, options, e, revision, now);
    assert Lookup(u, e.id) == Lookup(t, e.id);
    if first.Write? {
      var r := first.record;
      assert RecordIndexed(t, owner, e.id);
      assert u.byHash - {} == u.byHash;
      assert IndexSecrets(u.byHash, r) == u.byHash by { assert u.byHash[e.hash := e.id] == u.byHash; }
      assert u.records[e.id := Filtered(u.fences, r)] == u.records;
    }
  }

  /** Repeating a successful push at the same time changes nothing and reports no hosts. */
  lemma SyncIsIdempotent(s: Store, owner: string -> string, options: Options, revision: string,
                         entries: seq<SyncEntry>, now: int)
    requires Indexed(s, owner) && EntriesRespect(entries, owner) && DistinctIds(entries)
    requires SyncReplace(s, options, revision, entries, now).error == None
    ensures var t := SyncReplace(s, options, revision, entries, now).store;
            SyncReplace(t, options, revision, entries, now) == SyncStep(t, multiset{}, None)
  {
    var t := SyncReplace(s, options, revision, entries, now).store;
    var s1 := Revoke(s, Dropped(s, entries), now);
    IndexedIdsMatch(s, owner);
    SyncKeeps(s, owner, options, revision, entries, now);
    NothingLeftToDrop(s, options, revision, entries, now);
    RevokeNothing(t, now);
    EntriesActAlone(s1, options, entries, revision, now);
    var writes := HostWrites(s1, options, entries, revision, now);
    SecondPass(s1, t, owner, options, entries, revision, now);
    assert t.byHost == s1.byHost + writes;
    assert t.byHost + writes == t.byHost;
    assert t.(revision := revision) == t;
  }

  lemma NothingLeftToDrop(s: Store, options: Options, revision: string, entries: seq<SyncEntry>, now: int)
    requires DistinctIds(entries) && IdsMatch(s) && SyncReplace(s, options, revision, entries, now).error == None
    ensures Dropped(SyncReplace(s, options, revision, entries, now).store, entries) == {}
  {
    RepeatedPushDrops(s, options, revision, entries, now);
    IncomingIsTheEntry(entries);
  }

  /** An id that ends up live although its last entry is revoked. */
  ghost predicate EndsAtOdds(s: Store, entries: seq<SyncEntry>, c: string) {
    PushedLive(s, entries, c) && c in Incoming(entries) && Incoming(entries)[c].revoked
  }

  /** Repeating a successful push, whether or not ids repeat in it, finds nobody to revoke exactly when no id ends up
      live although its last entry is revoked. */
  lemma RepeatedPushDrops(s: Store, options: Options, revision: string, entries: seq<SyncEntry>, now: int)
    requires IdsMatch(s) && SyncReplace(s, options, revision, entries, now).error == None
    ensures Dropped(SyncReplace(s, options, revision, entries, now).store, entries) == {}
            <==> !exists c :: EndsAtOdds(s, entries, c)
  {
    var t := SyncReplace(s, options, revision, entries, now).store;
    forall c ensures c in Dropped(t, entries) <==> EndsAtOdds(s, entries, c) {
      LiveSetIsThePush(s, options, revision, entries, now, c);
      if NamesLive(entries, c) {
        NamedIsIncoming(entries, c);
      }
    }
  }

  lemma {:induction false} NamedIsIncoming(entries: seq<SyncEntry>, c: string)
    requires NamesLive(entries, c)
    ensures c in Incoming(entries)
    decreases |entries|
  {
    NamesLiveOneMore(entries, c);
    if c != entries[|entries| - 1].id {
      NamedIsIncoming(entries[..|entries| - 1], c);
    }
  }
}

/** What a push does to each credential: its record follows the entries that name it, in turn, and no others. */
module CredentialFates {
  import opened Optional
  import opened Credentials

  ghost predicate IdsMatch(s: Store) {
    forall c :: c in s.records ==> s.records[c].id == c
  }

  /** The record a push's entry leads to, judged on the store the push starts from. */
  ghost function Outcome(s: Store, options: Options, e: SyncEntry, revision: string, now: int): Option<Record> {
    match Judge(options, Lookup(s, e.id), e, revision, now)
    case Skip => Lookup(s, e.id)
    case Fail(_) => None
    case Write(r, _) => Some(Filtered(s.fences, r))
  }

  /** Writing a record touches its own id and host entry, and nothing else but the hash index. */
  lemma PutActsAlone(u: Store, byHash: map<string, string>, r: Record)
    requires IdsMatch(u)
    ensures var t := Put(u.(byHash := byHash), r);
            && IdsMatch(t) && t.fences == u.fences && t.replays == u.replays && t.revision == u.revision
            && t.byHost == (if r.state != Revoked then u.byHost[r.host := r.id] else u.byHost)
            && Lookup(t, r.id) == Some(Filtered(u.fences, r)) && forall c :: c != r.id ==> Lookup(t, c) == Lookup(u, c)
  {
  }

  lemma EntryActsAlone(u: Store, options: Options, e: SyncEntry, revision: string, now: int)
    requires IdsMatch(u) && ApplyEntry(u, options, e, revision, now).Ok?
    ensures var t := ApplyEntry(u, options, e, revision, now).store;
            && IdsMatch(t) && t.fences == u.fences && t.replays == u.replays && t.revision == u.revision
            && t.byHost == (if Judge(options, Lookup(u, e.id), e, revision, now).Write?
                            then u.byHost[e.host := e.id] else u.byHost)
            && !Judge(options, Lookup(u, e.id), e, revision, now).Fail?
            && Lookup(t, e.id) == Outcome(u, options, e, revision, now)
            && forall c :: c != e.id ==> Lookup(t, c) == Lookup(u, c)
  {
    var verdict := Judge(options, Lookup(u, e.id), e, revision, now);
    if verdict.Write? {
      assert verdict.record.id == e.id && verdict.record.host == e.host && verdict.record.state == Active;
      PutActsAlone(u, u.byHash - verdict.stale, verdict.record);
      hide Put;
    }
  }

  // ---- the entries of one id ----

  datatype Fate = Refused | Stands(known: Option<Record>)

  /** What becomes of one id's record under the entries that name it. */
  ghost function FateOf(fences: map<FenceKey, nat>, options: Options, known: Option<Record>, entries: seq<SyncEntry>,
                        id: string, revision: string, now: int): Fate
  {
    if entries == [] then Stands(known)
    else
      var earlier := FateOf(fences, options, known, entries[..|entries| - 1], id, revision, now);
      var e := entries[|entries| - 1];
      if earlier == Refused || e.id != id then earlier
      else
        match Judge(options, earlier.known, e, revision, now)
        case Skip => earlier
        case Fail(_) => Refused
        case Write(r, _) => Stands(Some(Filtered(fences, r)))
  }

  /** Where the push goes through, every record stands as its own entries leave it. */
  lemma {:induction false} EntriesFollowTheirIds(s: Store, options: Options, entries: seq<SyncEntry>, revision: string,
                                                 now: int, id: string)
    requires IdsMatch(s) && ApplyEntries(s, options, entries, revision, now).Ok?
    ensures var t := ApplyEntries(s, options, entries, revision, now).store;
            && IdsMatch(t) && t.fences == s.fences
            && FateOf(s.fences, options, Lookup(s, id), entries, id, revision, now) == Stands(Lookup(t, id))
    decreases |entries|
  {
    hide Judge, Put;
    if entries != [] {
      EntriesFollowTheirIds(s, options, entries[..|entries| - 1], revision, now, id);
      var u := ApplyEntries(s, options, entries[..|entries| - 1], revision, now).store;
      EntryActsAlone(u, options, entries[|entries| - 1], revision, now);
    }
  }

  /** Where it does not, some id's own entries are refused. */
  lemma {:induction false} FailureIsAnIds(s: Store, options: Options, entries: seq<SyncEntry>, revision: string,
                                          now: int)
    returns (id: string)
    requires IdsMatch(s) && ApplyEntries(s, options, entries, revision, now).Failed?
    ensures FateOf(s.fences, options, Lookup(s, id), entries, id, revision, now) == Refused
    decreases |entries|
  {
    hide Judge, Put;
    var earlier, e := entries[..|entries| - 1], entries[|entries| - 1];
    if ApplyEntries(s, options, earlier, revision, now).Failed? {
      id := FailureIsAnIds(s, options, earlier, revision, now);
    } else {
      id := e.id;
      EntriesFollowTheirIds(s, options, earlier, revision, now, id);
    }
  }

  /** Some id's entries are refused, starting from its record in this store. */
  ghost predicate SomeIdRefused(s: Store, options: Options, entries: seq<SyncEntry>, revision: string, now: int) {
    exists id :: FateOf(s.fences, options, Lookup(s, id), entries, id, revision, now) == Refused
  }

  lemma EntriesFailExactlyWhenAnIdIsRefused(s: Store, options: Options, entries: seq<SyncEntry>, revision: string,
                                            now: int)
    requires IdsMatch(s)
    ensures ApplyEntries(s, options, entries, revision, now).Failed? <==>
              SomeIdRefused(s, options, entries, revision, now)
  {
    if ApplyEntries(s, options, entries, revision, now).Failed? {
      var id := FailureIsAnIds(s, options, entries, revision, now);
    } else {
      forall id ensures FateOf(s.fences, options, Lookup(s, id), entries, id, revision, now) != Refused {
        EntriesFollowTheirIds(s, options, entries, revision, now, id);
      }
    }
  }

  // ---- which ids end up live ----

  ghost predicate LiveRecord(known: Option<Record>) {
    known != None && known.value.source == Synced && known.value.state != Revoked
  }

  /** A closed record that no push revives. */
  ghost predicate BuriedRecord(known: Option<Record>) {
    known != None && known.value.source == Synced && known.value.state == Revoked && known.value.generation != 0
  }

  ghost predicate NamesLive(entries: seq<SyncEntry>, id: string) {
    exists i :: 0 <= i < |entries| && entries[i].id == id && !entries[i].revoked
  }

  lemma NamesLiveOneMore(entries: seq<SyncEntry>, id: string)
    requires entries != []
    ensures var e := entries[|entries| - 1];
            NamesLive(entries, id) <==> NamesLive(entries[..|entries| - 1], id) || (e.id == id && !e.revoked)
  {
    var n := |entries| - 1;
    if i :| 0 <= i < n && entries[..n][i].id == id && !entries[..n][i].revoked {
      assert entries[i].id == id;
    }
    if i :| 0 <= i < |entries| && entries[i].id == id && !entries[i].revoked {
      assert i < n ==> entries[..n][i] == entries[i];
    }
  }

  /** A record that stands is live exactly when it was, or a live entry named it and it was not buried; an enrolled
      record is as it was, and none becomes enrolled; a buried one stays buried, and an unnamed one as it was. */
  ghost predicate StandsAsNamed(known: Option<Record>, after: Option<Record>, named: bool) {
    && (LiveRecord(after) <==> LiveRecord(known) || (named && !BuriedRecord(known)))
    && (known != None && known.value.source == Enrolled ==> after == known)
    && (after != None && after.value.source == Enrolled ==> after == known)
    && (BuriedRecord(known) ==> BuriedRecord(after)) && (known != None ==> after != None)
    && (known == None && after != None ==> LiveRecord(after)) && (!named ==> after == known)
  }

  lemma {:induction false} FateIsAsNamed(fences: map<FenceKey, nat>, options: Options, known: Option<Record>,
                                         entries: seq<SyncEntry>, id: string, revision: string, now: int)
    requires FateOf(fences, options, known, entries, id, revision, now).Stands?
    ensures StandsAsNamed(known, FateOf(fences, options, known, entries, id, revision, now).known,
                          NamesLive(entries, id))
    decreases |entries|
  {
    if entries != [] {
      FateIsAsNamed(fences, options, known, entries[..|entries| - 1], id, revision, now);
      NamesLiveOneMore(entries, id);
    }
  }
}

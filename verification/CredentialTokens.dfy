/** How long each token is accepted: enrolled, rotated, pushed and revoked ones, from the call that decides it. */
module CredentialTokens {
  import opened Optional
  import opened Credentials
  import opened CredentialFates
  import opened CredentialIndex
  import opened CredentialSecrets
  import opened CredentialSync

  // ---- who a secret opens ----

  /** With every live secret resolved, a live record's secret opens that record or nothing. */
  lemma OpensItsHolder(s: Store, c: string, presented: Sha, now: int)
    requires AllResolved(s) && c in s.records && s.records[c].state != Revoked && presented in Secrets(s.records[c])
    ensures var answer := Authenticate(s, Some(presented), now).record;
            && (answer.Some? <==> Opens(s.records[c], presented, now))
            && (answer.Some? ==> answer.value.id == c && IsAnswer(s.fences, s.records[c], answer.value, now))
  {
    assert Resolved(s, c) && SecretAt(s.byHash, presented, c);
    HolderAnswers(s, presented, now, c);
  }

  /** A secret no live record has is refused. */
  lemma OpensNobody(s: Store, presented: Sha, now: int)
    requires AllResolved(s)
    requires forall c :: c in s.records && s.records[c].state != Revoked ==> presented !in Secrets(s.records[c])
    ensures Authenticate(s, Some(presented), now).record == None
  {
    ResolvedIsAScan(s, presented, now);
    assert forall c :: c in s.records && Opens(s.records[c], presented, now) ==> presented in Secrets(s.records[c]);
  }

  /** An accepted token leaves its record as answered, and a refused one leaves the store alone. */
  lemma UseIsRecorded(s: Store, presented: Option<Sha>, now: int)
    requires AllResolved(s)
    ensures var step := Authenticate(s, presented, now);
            && (step.record == None ==> step.store == s)
            && (step.record.Some? ==> step.store.records == s.records[step.record.value.id := step.record.value])
            && (presented == None ==> step.record == None)
  {
    if Authenticate(s, presented, now).record.Some? {
      assert Resolved(s, s.byHash[presented.value]);
    }
  }

  // ---- enrolling ----

  /** The lifetime asked for, or the default where none is. */
  function Lifetime(options: Options, req: EnrollRequest): int {
    if 0 < req.expiresIn then req.expiresIn else options.defaultExpiry
  }

  /** A request that is not a repeat is granted exactly for a bearer token that lives within the maximum, at a host with
      no live credential. The token then opens the new record for exactly its lifetime. */
  lemma EnrollIsExact(s: Store, options: Options, req: EnrollRequest, minted: Minted, now: int, later: int)
    requires AllResolved(s) && minted.id !in s.records && !TakenFrom(s, minted.token, minted.id)
    requires req.requestId == "" || req.requestId !in s.replays
    ensures var step, host := Enroll(s, options, req, minted, now), if req.host == "" then minted.host else req.host;
            var taken := exists c :: host in s.byHost && s.byHost[host] == c && c in s.records
                                     && s.records[c].state != Revoked;
            && (step.error == Some(KindUnsupported) <==> req.kind !in {"", BEARER})
            && (step.error == Some(ExpiryTooLong) <==>
                  req.kind in {"", BEARER} && options.maxExpiry < Lifetime(options, req))
            && (step.error == None <==>
                  req.kind in {"", BEARER} && Lifetime(options, req) <= options.maxExpiry && !taken)
            && (step.error.Some? ==>
                  && step.store == s && step.result == None
                  && step.error.value in {KindUnsupported, ExpiryTooLong, HostTaken})
            && (step.error == None ==>
                  && step.result.Some? && step.result.value.token == minted.token
                  && minted.id in step.store.records && step.store.records[minted.id] == step.result.value.record
                  && step.store.records == s.records[minted.id := step.result.value.record]
                  && host in step.store.byHost && step.store.byHost[host] == minted.id
                  && var r := step.result.value.record;
                  && r.id == minted.id && r.host == host && r.source == Enrolled && r.state == Active
                  && r.hash == minted.token && r.rotation == None && r.generation == 0 && r.devices == map[]
                  && r.issuedAt == now && r.note == req.note && r.pool == "" && r.lastUsedAt == 0 && r.revokedAt == 0
                  && step.store.replays == (if req.requestId == "" then s.replays
                                            else s.replays[req.requestId := step.result.value])
                  && (Authenticate(step.store, Some(minted.token), later).record.Some? <==>
                        later < now + Lifetime(options, req)))
  {
    var step := Enroll(s, options, req, minted, now);
    if step.error == None {
      EnrollResolves(s, options, req, minted, now);
      assert step.result.value.record.devices == map[];
      OpensItsHolder(step.store, minted.id, minted.token, later);
    }
  }

  /** A granted request that carries an id is answered alike ever after, whatever is called in between, and mints no
      second credential. */
  lemma GrantedRequestReplays(s: Store, options: Options, req: EnrollRequest, minted: Minted, now: int,
                              events: seq<Event>, other: Minted, later: int)
    requires req.requestId != "" && Enroll(s, options, req, minted, now).error == None
    ensures var granted := Enroll(s, options, req, minted, now);
            var t := Run(granted.store, options, events);
            Enroll(t, options, req, other, later) == EnrollStep(t, granted.result, None)
  {
    EnrollmentReplays(Enroll(s, options, req, minted, now).store, options, events, req, other, later);
  }

  // ---- rotating ----

  /** The overlap asked for, or an hour where none is. */
  function Overlap(grace: int): int {
    if 0 < grace then grace else 3600
  }

  ghost predicate Opened(s: Store, presented: Sha, now: int) {
    Authenticate(s, Some(presented), now).record.Some?
  }

  /** A live credential is rotated. From then on its new token opens it for the default lifetime, the one it replaces
      for the overlap, and the one before that not at all. */
  lemma RotatedTokens(s: Store, options: Options, id: string, grace: int, now: int, token: Sha, presented: Sha,
                      later: int)
    requires AllResolved(s) && id in s.records && s.records[id].state != Revoked && !TakenFrom(s, token, id)
    ensures var r, step := s.records[id], Rotate(s, options, id, grace, now, token);
            && step.error == None && step.result.Some? && step.result.value.token == token
            && step.store.records == s.records[id := step.result.value.record]
            && var r' := step.result.value.record;
            && r'.state == Rotating && r'.issuedAt == now
            && r' == r.(hash := r'.hash, rotation := r'.rotation, state := r'.state, issuedAt := r'.issuedAt,
                        expiresAt := r'.expiresAt, devices := r'.devices)
            && (Opened(step.store, token, later) <==> later < now + options.defaultExpiry)
            && (presented == r.hash && presented != token ==>
                  (Opened(step.store, presented, later) <==> later < now + Overlap(grace)))
            && (r.rotation.Some? && presented == r.rotation.value.previous && presented !in {token, r.hash} ==>
                  !Opened(step.store, presented, later))
  {
    assert Resolved(s, id);
    RotateResolves(s, options, id, grace, now, token);
    var r, t := s.records[id], Rotate(s, options, id, grace, now, token).store;
    assert t.records == s.records[id := Filtered(s.fences, Rotated(options, r, grace, now, token))];
    assert Secrets(t.records[id]) == {token, r.hash};
    OpensItsHolder(t, id, token, later);
    if presented == r.hash {
      OpensItsHolder(t, id, presented, later);
    } else if r.rotation.Some? && presented == r.rotation.value.previous && presented != token {
      OwnIsNotTaken(s, id, presented);
      assert forall c :: c in t.records && c != id ==> c in s.records && t.records[c] == s.records[c];
      OpensNobody(t, presented, later);
    }
  }

  /** Nothing else is rotated, and a refused rotation changes nothing. */
  lemma RotateRefusals(s: Store, options: Options, id: string, grace: int, now: int, token: Sha)
    requires AllResolved(s)
    ensures var step := Rotate(s, options, id, grace, now, token);
            && (step.error == Some(NotFound) <==> id !in s.records)
            && (step.error == Some(AlreadyRevoked) <==> id in s.records && s.records[id].state == Revoked)
            && (step.error.Some? ==> step.store == s && step.result == None)
  {
    if id in s.records {
      assert Resolved(s, id);
    }
  }

  // ---- revoking ----

  /** A revoked credential is closed as of now, without secrets, and those it had are refused at once. */
  lemma RevokedTokenIsRefused(s: Store, id: string, now: int, presented: Sha, later: int)
    requires AllResolved(s) && id in s.records && s.records[id].state != Revoked && presented in Secrets(s.records[id])
    ensures !Opened(Revoke(s, {id}, now), presented, later)
    ensures id in Revoke(s, {id}, now).records
    ensures var r, r' := s.records[id], Revoke(s, {id}, now).records[id];
            && r'.state == Revoked && r'.revokedAt == now && r'.hash == "" && r'.rotation == None
            && r' == r.(state := r'.state, revokedAt := r'.revokedAt, hash := r'.hash, rotation := r'.rotation,
                        devices := r'.devices)
  {
    RevokeResolves(s, {id}, now);
    OwnIsNotTaken(s, id, presented);
    OpensNobody(Revoke(s, {id}, now), presented, later);
  }

  /** And where no push can bring the credential back, no later run accepts them either. */
  lemma RevokingIsForGood(s: Store, owner: string -> string, options: Options, c: string, now: int, events: seq<Event>,
                          presented: Sha, later: int)
    requires Indexed(s, owner) && c in s.records && (s.records[c].source == Enrolled || s.records[c].generation != 0)
    requires RunRespects(Apply(s, options, RevokeOp(c), now), owner, options, events) && owner(presented) == c
    ensures !Opened(Run(Apply(s, options, RevokeOp(c), now), options, events), presented, later)
  {
    RevokeKeeps(s, owner, {c}, now);
    RevokedForGood(Apply(s, options, RevokeOp(c), now), owner, options, events, c, presented, later);
  }

  // ---- pushing ----

  ghost predicate IsHexText(h: string) {
    |h| == 64 && forall i :: 0 <= i < |h| ==> h[i] in "0123456789abcdefABCDEF"
  }

  ghost predicate IsMalformed(e: SyncEntry) {
    e.id == "" || e.host == "" || e.kind !in {"", "bearer"} || (!e.revoked && !IsHexText(e.hash))
  }

  /** A token's hash is written in lower case. */
  lemma ShaIsLowerHex(h: string)
    ensures IsSha(h) <==> |h| == 64 && forall i :: 0 <= i < |h| ==> h[i] in "0123456789abcdef"
  {
    forall i | 0 <= i < |h|
      ensures IsHexDigit(h[i]) && !('A' <= h[i] <= 'F') <==> h[i] in "0123456789abcdef"
    {
    }
  }

  lemma EntryErrorIsMalformed(e: SyncEntry)
    ensures EntryError(e).Some? <==> IsMalformed(e)
  {
    assert IsHex64(e.hash) <==> IsHexText(e.hash) by {
      forall i | 0 <= i < |e.hash| ensures IsHexDigit(e.hash[i]) <==> e.hash[i] in "0123456789abcdefABCDEF" {
        HexDigits(e.hash[i]);
      }
    }
  }

  lemma HexDigits(c: char)
    ensures IsHexDigit(c) <==> c in "0123456789abcdefABCDEF"
  {
  }

  /** A push is malformed exactly when one of its entries is. */
  lemma {:induction false} PushIsMalformed(entries: seq<SyncEntry>)
    ensures PushError(entries).Some? <==> exists i :: 0 <= i < |entries| && IsMalformed(entries[i])
    decreases |entries|
  {
    if entries != [] {
      var n := |entries| - 1;
      PushIsMalformed(entries[..n]);
      EntryErrorIsMalformed(entries[n]);
      assert forall i :: 0 <= i < n ==> entries[..n][i] == entries[i];
    }
  }

  /** A live entry may write: its credential is new, or a synced one of the same pool that no generation holds back. */
  ghost predicate MayWrite(known: Option<Record>, e: SyncEntry) {
    && !e.revoked
    && (known.Some? ==>
          && var r := known.value;
          && r.source == Synced && r.pool in {"", e.pool}
          && (r.generation != 0 ==>
                && r.state != Revoked && r.generation <= e.generation
                && (e.generation == r.generation ==> e.hash == r.hash)))
  }

  /** It is refused: the credential is enrolled here, or another pool's, or has another secret in this generation. */
  ghost predicate MustRefuse(known: Option<Record>, e: SyncEntry) {
    && !e.revoked && known.Some?
    && var r := known.value;
    && (|| r.source == Enrolled
        || (&& (r.generation != 0 ==> r.state != Revoked && r.generation <= e.generation)
            && (|| (r.generation != 0 && e.generation == r.generation && e.hash != r.hash)
                || r.pool !in {"", e.pool})))
  }

  /** A stated expiry is kept up to the maximum; where none is stated the record keeps its own, and a record without one
      gets the default. */
  ghost predicate ExpiryRule(options: Options, known: Option<Record>, stated: int, now: int, expiry: int) {
    var latest := now + options.maxExpiry;
    if stated != 0 then expiry <= stated && expiry <= latest && expiry in {stated, latest}
    else if known.Some? && known.value.expiresAt != 0 then expiry == known.value.expiresAt
    else expiry == now + options.defaultExpiry
  }

  /** The record an entry writes says what the entry says. */
  ghost predicate SaysAsPushed(options: Options, known: Option<Record>, e: SyncEntry, revision: string, now: int,
                               r: Record)
  {
    && r.id == e.id && r.host == e.host && r.pool == e.pool && r.kind == BEARER && r.generation == e.generation
    && r.hash == e.hash && r.note == e.note && r.devices == e.devices && r.source == Synced && r.state == Active
    && r.rotation == None && r.revision == revision && ExpiryRule(options, known, e.expiresAt, now, r.expiresAt)
    && (known.Some? ==> r.issuedAt == known.value.issuedAt && r.lastUsedAt == known.value.lastUsedAt
                        && r.revokedAt == known.value.revokedAt)
    && (known == None ==> r.issuedAt == now && r.lastUsedAt == 0 && r.revokedAt == 0)
  }

  /** What an entry does to its credential. */
  lemma EntryIsJudged(options: Options, known: Option<Record>, e: SyncEntry, revision: string, now: int)
    requires known.Some? ==> known.value.id == e.id
    ensures var verdict := Judge(options, known, e, revision, now);
            && (verdict.Write? <==> MayWrite(known, e)) && (verdict.Fail? <==> MustRefuse(known, e))
            && (verdict.Write? ==>
                  && SaysAsPushed(options, known, e, revision, now, verdict.record)
                  && verdict.stale == if known.Some? then {known.value.hash} - {"", e.hash} else {})
  {
  }

  /** A push with distinct ids fails exactly when one of its entries is malformed or must be refused. */
  lemma PushFailsExactly(s: Store, options: Options, revision: string, entries: seq<SyncEntry>, now: int)
    requires DistinctIds(entries) && IdsMatch(s)
    ensures SyncReplace(s, options, revision, entries, now).error.Some? <==>
              exists i :: && 0 <= i < |entries|
                          && (IsMalformed(entries[i]) || MustRefuse(Lookup(s, entries[i].id), entries[i]))
  {
    PushIsMalformed(entries);
    PushFailsExactlyWhenRefused(s, options, revision, entries, now);
    forall i | 0 <= i < |entries|
      ensures Judge(options, Lookup(s, entries[i].id), entries[i], revision, now).Fail?
              <==> MustRefuse(Lookup(s, entries[i].id), entries[i])
    {
      EntryIsJudged(options, Lookup(s, entries[i].id), entries[i], revision, now);
    }
    hide SyncReplace, Judge, IsMalformed, MustRefuse;
  }

  /** What a successful push with distinct ids writes for each entry that may write. */
  lemma PushWrites(s: Store, options: Options, revision: string, entries: seq<SyncEntry>, now: int, i: nat)
    requires DistinctIds(entries) && IdsMatch(s) && SyncReplace(s, options, revision, entries, now).error == None
    requires i < |entries| && MayWrite(Lookup(s, entries[i].id), entries[i])
    ensures var t, e := SyncReplace(s, options, revision, entries, now).store, entries[i];
            && e.id in t.records
            && exists r :: SaysAsPushed(options, Lookup(s, e.id), e, revision, now, r)
                           && t.records[e.id] == Filtered(s.fences, r)
  {
    var s1, e := Revoke(s, Dropped(s, entries), now), entries[i];
    var t := ApplyEntries(s1, options, entries, revision, now).store;
    SweepKeepsTheNamed(s, entries, now, i);
    EntryIsJudged(options, Lookup(s, e.id), e, revision, now);
    assert IdsMatch(s1);
    EntriesActAlone(s1, options, entries, revision, now);
    assert Landed(s1, t, options, e, revision, now);
    var r := Judge(options, Lookup(s, e.id), e, revision, now).record;
    assert SaysAsPushed(options, Lookup(s, e.id), e, revision, now, r) && t.records[e.id] == Filtered(s.fences, r);
  }

  /** A pushed token opens its record from the push on, at exactly the times before the record's expiry, where the push
      leaves every live secret resolved. */
  lemma PushedTokenOpens(s: Store, options: Options, revision: string, entries: seq<SyncEntry>, now: int, i: nat,
                         presented: Sha, later: int)
    requires DistinctIds(entries) && AllResolved(s) && SyncReplace(s, options, revision, entries, now).error == None
    requires SecretsApart(Revoke(s, Dropped(s, entries), now), options, entries, revision, now)
    requires i < |entries| && MayWrite(Lookup(s, entries[i].id), entries[i]) && presented == entries[i].hash
    ensures exists expiry :: && ExpiryRule(options, Lookup(s, entries[i].id), entries[i].expiresAt, now, expiry)
                             && var t := SyncReplace(s, options, revision, entries, now).store;
                             && (Opened(t, presented, later) <==> later < expiry)
                             && (Opened(t, presented, later) ==>
                                   Authenticate(t, Some(presented), later).record.value.id == entries[i].id)
  {
    var t, e := SyncReplace(s, options, revision, entries, now).store, entries[i];
    ResolvedIdsMatch(s);
    PushWrites(s, options, revision, entries, now, i);
    PushResolvesExactlyWhenApart(s, options, revision, entries, now);
    hide SyncReplace, MayWrite, Judge;
    var r :| SaysAsPushed(options, Lookup(s, e.id), e, revision, now, r) && t.records[e.id] == Filtered(s.fences, r);
    OpensItsHolder(t, e.id, presented, later);
    assert ExpiryRule(options, Lookup(s, e.id), e.expiresAt, now, r.expiresAt);
  }

  /** A new credential pushed without an expiry is not dead on arrival: it opens for the default lifetime. */
  lemma OrdinaryPushOpens(s: Store, options: Options, revision: string, entries: seq<SyncEntry>, now: int, i: nat,
                          presented: Sha, later: int)
    requires DistinctIds(entries) && AllResolved(s) && SyncReplace(s, options, revision, entries, now).error == None
    requires SecretsApart(Revoke(s, Dropped(s, entries), now), options, entries, revision, now)
    requires i < |entries| && entries[i].id !in s.records && !entries[i].revoked && entries[i].expiresAt == 0
    requires presented == entries[i].hash
    ensures Opened(SyncReplace(s, options, revision, entries, now).store, presented, later)
            <==> later < now + options.defaultExpiry
  {
    PushedTokenOpens(s, options, revision, entries, now, i, presented, later);
  }

  // ---- fencing a device ----

  /** A qualified revocation of a generation not yet fenced is accepted exactly when the host's indexed record is of
      that pool and grants the device nothing, or just that generation. It raises the fence and takes the grant away. */
  lemma FenceIsExact(s: Store, pool: string, host: string, device: string, generation: nat, reason: string)
    requires IdsMatch(s)
    ensures var step, key := RevokeDevice(s, pool, host, device, generation, reason), FenceKey(pool, host, device);
            var known := host in s.byHost && s.byHost[host] in s.records;
            && (step.error == Some(RevocationUnqualified) <==> "" in {pool, host, device, reason} || generation == 0)
            && (step.error.Some? ==>
                  && step.store == s
                  && step.error.value in {RevocationUnqualified, NotFound, DeviceGenerationMismatch})
            && ("" !in {pool, host, device, reason} && generation != 0 ==>
                  if key in s.fences && generation <= s.fences[key] then step == FenceStep(s, None)
                  else
                    && (step.error == Some(NotFound) <==> !known)
                    && (step.error == None <==>
                          && known && s.records[s.byHost[host]].pool == pool
                          && var grants := s.records[s.byHost[host]].devices;
                          device in grants ==> grants[device] in {0, generation})
                    && (step.error == None ==>
                          && step.store.fences == s.fences[key := generation]
                          && var r, r' := s.records[s.byHost[host]], step.store.records[s.byHost[host]];
                          && step.store.records == s.records[s.byHost[host] := r']
                          && r' == r.(devices := r'.devices)
                          && (r.host == host ==> device !in r'.devices)))
  {
  }
}

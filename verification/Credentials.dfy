/** The runner credential store as a value: sealed records, two indexes, device fences, and the transactions on them. */
module Credentials {
  import opened Optional

  /** Secrets appear only as their hashes. HashToken yields 64 lower-case hex digits; a pushed hash may be
      written in either case. */
  predicate IsHexDigit(c: char) {
    '0' <= c <= '9' || 'a' <= c <= 'f' || 'A' <= c <= 'F'
  }

  predicate IsHex64(h: string) {
    |h| == 64 && forall i :: 0 <= i < |h| ==> IsHexDigit(h[i])
  }

  predicate IsSha(h: string) {
    IsHex64(h) && forall i :: 0 <= i < |h| ==> !('A' <= h[i] <= 'F')
  }

  function Zeros(n: nat): (z: string)
    ensures |z| == n && forall i :: 0 <= i < n ==> z[i] == '0'
  {
    if n == 0 then "" else Zeros(n - 1) + "0"
  }

  type Sha = h: string | IsSha(h) witness Zeros(64)

  const BEARER: string := "bearer"
  const DEFAULT_GRACE: int := 3600

  datatype Source = Enrolled | Synced
  datatype State = Active | Rotating | Revoked
  datatype Rotation = Rotation(previous: string, until: int)

  /** Times are seconds; zero is Go's zero time. Device names are case-folded where they enter. */
  datatype Record = Record(id: string, host: string, pool: string, kind: string, generation: nat, hash: string,
                           note: string, source: Source, state: State, issuedAt: int, expiresAt: int, lastUsedAt: int,
                           rotation: Option<Rotation>, revokedAt: int, devices: map<string, nat>, revision: string)

  datatype FenceKey = FenceKey(pool: string, host: string, device: string)

  datatype Enrollment = Enrollment(record: Record, token: Sha)

  datatype Store = Store(records: map<string, Record>, byHash: map<string, string>, byHost: map<string, string>,
                         fences: map<FenceKey, nat>, replays: map<string, Enrollment>, revision: string)

  datatype Options = Options(defaultExpiry: int, maxExpiry: int)

  datatype Error =
    | Rejected | NotFound | HostTaken | KindUnsupported | AlreadyRevoked | ExpiryTooLong
    | EntryUnidentified | EntryHashInvalid | LocallyEnrolled | SecretChanged | PoolImmutable
    | RevocationUnqualified | DeviceGenerationMismatch

  const EMPTY: Store := Store(map[], map[], map[], map[], map[], "")

  // ---- writes ----

  predicate IsFenced(fences: map<FenceKey, nat>, pool: string, host: string, device: string, generation: nat) {
    FenceKey(pool, host, device) in fences && generation <= fences[FenceKey(pool, host, device)]
  }

  function FilterDevices(fences: map<FenceKey, nat>, r: Record): map<string, nat> {
    map d | d in r.devices && !IsFenced(fences, r.pool, r.host, d, r.devices[d]) :: r.devices[d]
  }

  function Filtered(fences: map<FenceKey, nat>, r: Record): Record {
    r.(devices := FilterDevices(fences, r))
  }

  function PutRaw(s: Store, r: Record): Store {
    s.(records := s.records[r.id := Filtered(s.fences, r)])
  }

  function IndexSecrets(byHash: map<string, string>, r: Record): map<string, string> {
    var current := if r.hash != "" then byHash[r.hash := r.id] else byHash;
    if r.rotation != None then current[r.rotation.value.previous := r.id] else current
  }

  function IndexHost(byHost: map<string, string>, r: Record): map<string, string> {
    if r.state != Revoked then byHost[r.host := r.id] else byHost
  }

  /** Write a record and both index entries. */
  function Put(s: Store, r: Record): Store {
    PutRaw(s.(byHash := IndexSecrets(s.byHash, r), byHost := IndexHost(s.byHost, r)), r)
  }

  // ---- enrollment ----

  datatype EnrollRequest = EnrollRequest(host: string, note: string, kind: string, expiresIn: int, requestId: string)

  /** What the random source supplies. */
  datatype Minted = Minted(id: string, host: string, token: Sha)

  datatype EnrollStep = EnrollStep(store: Store, result: Option<Enrollment>, error: Option<Error>)

  predicate HostIsTaken(s: Store, host: string) {
    host in s.byHost && s.byHost[host] in s.records && s.records[s.byHost[host]].state != Revoked
  }

  function NewRecord(options: Options, req: EnrollRequest, minted: Minted, now: int): Record {
    var host := if req.host == "" then minted.host else req.host;
    var expiry := if req.expiresIn <= 0 then options.defaultExpiry else req.expiresIn;
    Record(minted.id, host, "", BEARER, 0, minted.token, req.note, Enrolled, Active, now, now + expiry, 0, None, 0,
           map[], "")
  }

  function Enroll(s: Store, options: Options, req: EnrollRequest, minted: Minted, now: int): EnrollStep {
    var record := NewRecord(options, req, minted, now);
    if req.kind != "" && req.kind != BEARER then EnrollStep(s, None, Some(KindUnsupported))
    else if req.requestId != "" && req.requestId in s.replays then EnrollStep(s, Some(s.replays[req.requestId]), None)
    else if options.maxExpiry < (if req.expiresIn <= 0 then options.defaultExpiry else req.expiresIn)
    then EnrollStep(s, None, Some(ExpiryTooLong))
    else if HostIsTaken(s, record.host) then EnrollStep(s, None, Some(HostTaken))
    else
      var result := Enrollment(record, minted.token);
      var s1 := Put(s, record);
      var s2 := if req.requestId == "" then s1 else s1.(replays := s1.replays[req.requestId := result]);
      EnrollStep(s2, Some(result), None)
  }

  // ---- authentication ----

  datatype AuthStep = AuthStep(store: Store, record: Option<Record>)

  /** Whether this record honours the hash now; the current secret's expiry decides before the previous one's. */
  predicate Honours(r: Record, presented: string, now: int) {
    && r.kind == BEARER && r.state != Revoked
    && if r.hash == presented then now < r.expiresAt
       else r.rotation != None && r.rotation.value.previous == presented && now < r.rotation.value.until
  }

  predicate GraceElapsed(r: Record, now: int) {
    r.rotation != None && r.rotation.value.until <= now
  }

  function Used(r: Record, now: int): Record {
    if GraceElapsed(r, now) then r.(lastUsedAt := now, rotation := None, state := Active) else r.(lastUsedAt := now)
  }

  /** Resolve a presented hash (none for a blank token) through the hash index. */
  function Authenticate(s: Store, presented: Option<Sha>, now: int): AuthStep {
    if presented == None || presented.value !in s.byHash || s.byHash[presented.value] !in s.records
    then AuthStep(s, None)
    else
      var r := s.records[s.byHash[presented.value]];
      if !Honours(r, presented.value, now) then AuthStep(s, None)
      else
        var retired := if GraceElapsed(r, now) then {r.rotation.value.previous} else {};
        var s1 := s.(byHash := s.byHash - retired);
        AuthStep(Put(s1, Used(r, now)), Some(Filtered(s.fences, Used(r, now))))
  }

  // ---- rotation and revocation ----

  function Rotated(options: Options, r: Record, grace: int, now: int, token: Sha): Record {
    r.(rotation := Some(Rotation(r.hash, now + if grace <= 0 then DEFAULT_GRACE else grace)), hash := token,
       state := Rotating, issuedAt := now, expiresAt := now + options.defaultExpiry)
  }

  function Rotate(s: Store, options: Options, id: string, grace: int, now: int, token: Sha): EnrollStep {
    if id !in s.records then EnrollStep(s, None, Some(NotFound))
    else
      var r := s.records[id];
      if r.state == Revoked then EnrollStep(s, None, Some(AlreadyRevoked))
      else if r.kind != BEARER then EnrollStep(s, None, Some(KindUnsupported))
      else
        var oldest := if r.rotation != None then {r.rotation.value.previous} else {};
        var r' := Rotated(options, r, grace, now, token);
        EnrollStep(Put(s.(byHash := s.byHash - oldest), r'), Some(Enrollment(Filtered(s.fences, r'), token)), None)
  }

  function Closed(fences: map<FenceKey, nat>, r: Record, now: int): Record {
    Filtered(fences, r.(hash := "", rotation := None, state := Revoked, revokedAt := now))
  }

  function Secrets(r: Record): set<string> {
    {r.hash} + if r.rotation != None then {r.rotation.value.previous} else {}
  }

  /** Close a set of credentials: their secrets leave the hash index, and the host index entries that name them
      under their own host go too. */
  function Revoke(s: Store, ids: set<string>, now: int): Store
    requires ids <= s.records.Keys
  {
    var dead := set c, h | c in ids && h in Secrets(s.records[c]) :: h;
    s.(records := map c | c in s.records :: if c in ids then Closed(s.fences, s.records[c], now) else s.records[c],
       byHash := s.byHash - dead,
       byHost := map h | h in s.byHost && !(s.byHost[h] in ids && s.records[s.byHost[h]].host == h) :: s.byHost[h])
  }

  lemma RevokeNothing(s: Store, now: int)
    ensures Revoke(s, {}, now) == s
  {
    var t := Revoke(s, {}, now);
    assert t.records == s.records && t.byHash == s.byHash && t.byHost == s.byHost;
  }

  /** Revoking one credential, as three bucket updates. */
  lemma RevokeOne(s: Store, id: string, now: int)
    requires id in s.records
    ensures var r := s.records[id];
            Revoke(s, {id}, now)
            == s.(records := s.records[id := Closed(s.fences, r, now)], byHash := s.byHash - Secrets(r),
                  byHost := if r.host in s.byHost && s.byHost[r.host] == id then s.byHost - {r.host} else s.byHost)
  {
    var r, t := s.records[id], Revoke(s, {id}, now);
    assert (set c, h | c in {id} && h in Secrets(s.records[c]) :: h) == Secrets(r);
    assert t.records == s.records[id := Closed(s.fences, r, now)];
    assert t.byHost == if r.host in s.byHost && s.byHost[r.host] == id then s.byHost - {r.host} else s.byHost;
  }

  // ---- controller sync ----

  datatype SyncEntry = SyncEntry(id: string, host: string, pool: string, kind: string, generation: nat, hash: string,
                                 expiresAt: int, note: string, revoked: bool, devices: map<string, nat>)

  function EntryError(e: SyncEntry): Option<Error> {
    if e.id == "" || e.host == "" then Some(EntryUnidentified)
    else if e.kind != "" && e.kind != BEARER then Some(KindUnsupported)
    else if !e.revoked && !IsHex64(e.hash) then Some(EntryHashInvalid)
    else None
  }

  /** The first malformed entry's error. */
  function PushError(entries: seq<SyncEntry>): Option<Error> {
    if entries == [] then None
    else
      var earlier := PushError(entries[..|entries| - 1]);
      if earlier != None then earlier else EntryError(entries[|entries| - 1])
  }

  /** The push by id; a repeated id keeps its last entry. */
  function Incoming(entries: seq<SyncEntry>): map<string, SyncEntry> {
    if entries == [] then map[]
    else Incoming(entries[..|entries| - 1])[entries[|entries| - 1].id := entries[|entries| - 1]]
  }

  predicate IsLiveSynced(s: Store, c: string) {
    c in s.records && s.records[c].source == Synced && s.records[c].state != Revoked
  }

  /** Live synced credentials the push leaves out or marks revoked. */
  function Dropped(s: Store, entries: seq<SyncEntry>): (ids: set<string>)
    ensures ids <= s.records.Keys
  {
    var incoming := Incoming(entries);
    set c | c in s.records && IsLiveSynced(s, c) && (c !in incoming || incoming[c].revoked)
  }

  function SyncExpiry(options: Options, current: int, pushed: int, now: int): int {
    if pushed != 0 then (if now + options.maxExpiry < pushed then now + options.maxExpiry else pushed)
    else if current != 0 then current
    else now + options.defaultExpiry
  }

  datatype Verdict = Skip | Fail(error: Error) | Write(record: Record, stale: set<string>)

  function FreshSynced(id: string, now: int): Record {
    Record(id, "", "", "", 0, "", "", Synced, Active, now, 0, 0, None, 0, map[], "")
  }

  function Pushed(options: Options, r: Record, e: SyncEntry, revision: string, now: int): Record {
    r.(generation := e.generation, host := e.host, kind := BEARER, hash := e.hash, note := e.note, pool := e.pool,
       devices := e.devices, expiresAt := SyncExpiry(options, r.expiresAt, e.expiresAt, now), state := Active,
       rotation := None, revision := revision)
  }

  /** What one live entry does to the record it names. A generation-qualified record is never revived and never
      moved back, and its secret is fixed within a generation. */
  function Judge(options: Options, known: Option<Record>, e: SyncEntry, revision: string, now: int): Verdict {
    var r := if known == None then FreshSynced(e.id, now) else known.value;
    if e.revoked then Skip
    else if r.source != Synced then Fail(LocallyEnrolled)
    else if r.generation != 0 && (r.state == Revoked || e.generation < r.generation) then Skip
    else if r.generation != 0 && e.generation == r.generation && r.hash != e.hash then Fail(SecretChanged)
    else if r.pool != "" && r.pool != e.pool then Fail(PoolImmutable)
    else Write(Pushed(options, r, e, revision, now), if r.hash != "" && r.hash != e.hash then {r.hash} else {})
  }

  function Lookup(s: Store, id: string): Option<Record> {
    if id in s.records then Some(s.records[id]) else None
  }

  datatype Applied = Ok(store: Store) | Failed(error: Error)

  function ApplyEntry(s: Store, options: Options, e: SyncEntry, revision: string, now: int): Applied {
    match Judge(options, Lookup(s, e.id), e, revision, now)
    case Skip => Ok(s)
    case Fail(error) => Failed(error)
    case Write(r, stale) => Ok(Put(s.(byHash := s.byHash - stale), r))
  }

  function ApplyEntries(s: Store, options: Options, entries: seq<SyncEntry>, revision: string, now: int): Applied {
    if entries == [] then Ok(s)
    else
      var earlier := ApplyEntries(s, options, entries[..|entries| - 1], revision, now);
      if earlier.Failed? then earlier
      else ApplyEntry(earlier.store, options, entries[|entries| - 1], revision, now)
  }

  datatype SyncStep = SyncStep(store: Store, revokedHosts: multiset<string>, error: Option<Error>)

  ghost function HostsOf(s: Store, ids: set<string>): multiset<string>
    requires ids <= s.records.Keys
    decreases |ids|
  {
    if ids == {} then multiset{}
    else
      var c :| c in ids;
      multiset{s.records[c].host} + HostsOf(s, ids - {c})
  }

  /** Replace the synced set. A failure rolls the store back but still hands back the hosts collected so far. */
  ghost function SyncReplace(s: Store, options: Options, revision: string, entries: seq<SyncEntry>, now: int): SyncStep
  {
    if PushError(entries) != None then SyncStep(s, multiset{}, PushError(entries))
    else
      var dropped := Dropped(s, entries);
      var applied := ApplyEntries(Revoke(s, dropped, now), options, entries, revision, now);
      if applied.Failed? then SyncStep(s, HostsOf(s, dropped), Some(applied.error))
      else SyncStep(applied.store.(revision := revision), HostsOf(s, dropped), None)
  }

  // ---- device fences ----

  datatype FenceStep = FenceStep(store: Store, error: Option<Error>)

  function RevokeDevice(s: Store, pool: string, host: string, device: string, generation: nat,
                        reason: string): FenceStep
  {
    var key := FenceKey(pool, host, device);
    if pool == "" || host == "" || device == "" || generation == 0 || reason == ""
    then FenceStep(s, Some(RevocationUnqualified))
    else if key in s.fences && generation <= s.fences[key] then FenceStep(s, None)
    else if host !in s.byHost || s.byHost[host] !in s.records then FenceStep(s, Some(NotFound))
    else
      var r := s.records[s.byHost[host]];
      var owned := if device in r.devices then r.devices[device] else 0;
      if r.pool != pool || (owned != generation && owned != 0) then FenceStep(s, Some(DeviceGenerationMismatch))
      else FenceStep(Put(s.(fences := s.fences[key := generation]), r), None)
  }

  predicate DeviceRevoked(s: Store, pool: string, host: string, device: string, generation: nat) {
    IsFenced(s.fences, pool, host, device, generation)
  }

  // ---- runs ----

  datatype Op =
    | EnrollOp(req: EnrollRequest, minted: Minted)
    | AuthenticateOp(presented: Option<Sha>)
    | RotateOp(id: string, grace: int, token: Sha)
    | RevokeOp(id: string)
    | SyncOp(revision: string, entries: seq<SyncEntry>)
    | RevokeDeviceOp(pool: string, host: string, device: string, generation: nat, reason: string)

  ghost function Apply(s: Store, options: Options, op: Op, now: int): Store {
    match op
    case EnrollOp(req, minted) => Enroll(s, options, req, minted, now).store
    case AuthenticateOp(presented) => Authenticate(s, presented, now).store
    case RotateOp(id, grace, token) => Rotate(s, options, id, grace, now, token).store
    case RevokeOp(id) => if id in s.records then Revoke(s, {id}, now) else s
    case SyncOp(revision, entries) => SyncReplace(s, options, revision, entries, now).store
    case RevokeDeviceOp(pool, host, device, generation, reason) =>
      RevokeDevice(s, pool, host, device, generation, reason).store
  }

  datatype Event = Event(op: Op, now: int)

  ghost function Run(s: Store, options: Options, events: seq<Event>): Store {
    if events == [] then s
    else Apply(Run(s, options, events[..|events| - 1]), options, events[|events| - 1].op, events[|events| - 1].now)
  }
}

/**
 * The control-plane tables and the mutations on them
 * (src/control-plane/store.ts, src/control-plane/repository.ts and the table
 * constraints of src/storage/schema-v1.ts), as functions from tables to tables.
 */
module ControlPlane {
  import opened Wrappers

  type Id = string

  /** A JSON column; `secretFree` is the verdict of the scan for forbidden keys. */
  datatype Json = Json(text: string, secretFree: bool)

  datatype Stamp = Stamp(version: int, createdAt: string, updatedAt: string)

  datatype Provider = Provider(name: string, details: Json, requiredTerms: Option<string>, enabled: bool, stamp: Stamp)

  datatype AccountState = Ready | Paused | Unready | Revoked

  datatype Account = Account(
    pseudonym: string, providerId: Id, credentialHandle: string, credentialGeneration: int,
    state: AccountState, pauseReason: Option<string>, quotaClass: string, cooldownUntil: Option<string>,
    terms: Option<string>, stamp: Stamp)

  datatype Pool = Pool(
    name: string, providerId: Id, strategy: string, affinity: Json, retryBudget: int, stamp: Stamp)

  datatype Membership = Membership(poolId: Id, accountId: Id, pinOrder: nat)

  datatype Profile = Profile(
    name: string, harness: string, providerId: Option<Id>, poolId: Option<Id>,
    modelRoles: map<string, string>, policy: Json, stamp: Stamp)

  datatype Outcome = Success | Auth | Quota | Transient | Fatal

  datatype Health = Health(lastOutcome: Option<Outcome>, lastOutcomeAt: Option<string>, failures: nat, cooldownUntil: Option<string>)

  /** A pool as it is read: its row and its memberships in pin order. */
  datatype PoolView = PoolView(row: Pool, members: seq<Membership>)

  datatype Snapshot = Snapshot(
    providers: map<Id, Provider>, accounts: map<Id, Account>, pools: map<Id, PoolView>, profiles: map<Id, Profile>)

  datatype Policy = Policy(revision: nat, snapshot: Snapshot, createdAt: string)

  datatype Tables = Tables(
    providers: map<Id, Provider>,
    accounts: map<Id, Account>,
    pools: map<Id, Pool>,
    memberships: seq<Membership>,  // in the order of insertion
    profiles: map<Id, Profile>,
    health: map<Id, Health>,
    terms: map<(Id, Id, string), string>,
    policies: seq<Policy>)

  const EmptyTables := Tables(map[], map[], map[], [], map[], map[], map[], [])

  datatype Error = NotFound | VersionConflict | Invalid | Conflict | StorageFailure

  // ------------------------------------------------------------------ input

  datatype Request =
    | CreateProvider(name: string, details: Json, requiredTerms: Option<string>)
    | UpdateProvider(id: Id, version: int, newName: Option<string>, newDetails: Option<Json>,
                     requiredTerms: Option<string>, enabled: Option<bool>)
    | BindCredential(id: Id, version: int, handle: string, generation: int, toState: AccountState)
    | CreateAccount(name: string, providerId: Id, handle: string, state: Option<AccountState>, quota: Option<string>)
    | UpdateAccount(id: Id, version: int, state: Option<AccountState>, pauseReason: Option<string>, quota: Option<string>)
    | AcknowledgeTerms(id: Id, version: int, revision: string)
    | CreatePool(name: string, providerId: Id, strategy: string, affinity: Json, retryBudget: Option<int>, accountIds: Option<seq<Id>>)
    | UpdatePool(id: Id, version: int, newName: Option<string>, newStrategy: Option<string>, newAffinity: Option<Json>,
                 retryBudget: Option<int>, accountIds: Option<seq<Id>>)
    | CreateProfile(name: string, harness: string, provider: Option<Id>, pool: Option<Id>, roles: map<string, string>, policy: Json)
    | UpdateProfile(id: Id, version: int, newName: Option<string>, newHarness: Option<string>, provider: Option<Id>,
                    pool: Option<Id>, newRoles: Option<map<string, string>>, newPolicy: Option<Json>)
    | RecordOutcome(id: Id, outcome: Outcome, quota: Option<string>, cooldown: Option<Option<string>>)

  function Or<T>(o: Option<T>, default: T): T {
    if o.Some? then o.value else default
  }

  /** White space as `String.prototype.trim` takes it. */
  const SPACES: set<char> := {
    '\t', '\n', '\U{0B}', '\U{0C}', '\r', ' ', '\U{A0}', '\U{1680}', '\U{2028}', '\U{2029}', '\U{202F}',
    '\U{205F}', '\U{3000}', '\U{FEFF}'}

  predicate IsSpace(c: char) { c in SPACES || '\U{2000}' <= c <= '\U{200A}' }

  function Trim(s: string): string {
    if s == [] then s
    else if IsSpace(s[0]) then Trim(s[1..])
    else if IsSpace(s[|s| - 1]) then Trim(s[..|s| - 1])
    else s
  }

  const MODEL_ROLES := {"primary", "fast", "reasoning", "haiku", "sonnet", "opus", "fable"}

  predicate ValidRoles(roles: map<string, string>) {
    roles != map[] && (forall k :: k in roles ==> roles[k] != "") && roles.Keys <= MODEL_ROLES
  }

  function Next(stamp: Stamp, now: string): Stamp {
    stamp.(version := stamp.version + 1, updatedAt := now)
  }

  // ---------------------------------------------------------------- reading

  function Rows(ms: seq<Membership>, pool: Id): seq<Membership> {
    if ms == [] then []
    else Rows(ms[..|ms| - 1], pool) + if ms[|ms| - 1].poolId == pool then [ms[|ms| - 1]] else []
  }

  function Without(ms: seq<Membership>, pool: Id): seq<Membership> {
    if ms == [] then []
    else Without(ms[..|ms| - 1], pool) + if ms[|ms| - 1].poolId == pool then [] else [ms[|ms| - 1]]
  }

  function InsertByPin(m: Membership, ms: seq<Membership>): seq<Membership> {
    if ms == [] then [m]
    else if ms[|ms| - 1].pinOrder <= m.pinOrder then ms + [m]
    else InsertByPin(m, ms[..|ms| - 1]) + [ms[|ms| - 1]]
  }

  function SortByPin(ms: seq<Membership>): seq<Membership> {
    if ms == [] then [] else InsertByPin(ms[|ms| - 1], SortByPin(ms[..|ms| - 1]))
  }

  /** `SELECT ... WHERE pool_id = ? ORDER BY pin_order`. */
  function Members(t: Tables, pool: Id): seq<Membership> {
    SortByPin(Rows(t.memberships, pool))
  }

  function Accounts(ms: seq<Membership>): seq<Id> {
    seq(|ms|, i requires 0 <= i < |ms| => ms[i].accountId)
  }

  function Snap(t: Tables): Snapshot {
    Snapshot(t.providers, t.accounts, map p | p in t.pools :: PoolView(t.pools[p], Members(t, p)), t.profiles)
  }

  predicate ProviderNameTaken(t: Tables, name: string, self: Option<Id>) {
    exists k :: k in t.providers && Some(k) != self && t.providers[k].name == name
  }

  predicate PoolNameTaken(t: Tables, name: string, self: Option<Id>) {
    exists k :: k in t.pools && Some(k) != self && t.pools[k].name == name
  }

  predicate ProfileNameTaken(t: Tables, name: string, self: Option<Id>) {
    exists k :: k in t.profiles && Some(k) != self && t.profiles[k].name == name
  }

  predicate PseudonymTaken(t: Tables, provider: Id, pseudonym: string) {
    exists k :: k in t.accounts && t.accounts[k].providerId == provider && t.accounts[k].pseudonym == pseudonym
  }

  // ---------------------------------------------------------------- writing

  /** Writes a provider row; refused for a secret or for a name in use. */
  function PutProvider(t: Tables, id: Id, row: Provider): Result<Tables, Error> {
    if !row.details.secretFree then Err(Invalid)
    else if ProviderNameTaken(t, row.name, Some(id)) then Err(Conflict)
    else Ok(t.(providers := t.providers[id := row]))
  }

  function PutPool(t: Tables, id: Id, row: Pool): Result<Tables, Error> {
    if !row.affinity.secretFree then Err(Invalid)
    else if PoolNameTaken(t, row.name, Some(id)) then Err(Conflict)
    else Ok(t.(pools := t.pools[id := row]))
  }

  function PutProfile(t: Tables, id: Id, row: Profile): Result<Tables, Error> {
    if !row.policy.secretFree then Err(Invalid)
    else if ProfileNameTaken(t, row.name, Some(id)) then Err(Conflict)
    else Ok(t.(profiles := t.profiles[id := row]))
  }

  function PutAccount(t: Tables, id: Id, row: Account): Tables {
    t.(accounts := t.accounts[id := row])
  }

  predicate NoRepeats(ids: seq<Id>) {
    forall i, j :: 0 <= i < j < |ids| ==> ids[i] != ids[j]
  }

  /** The insertions of `replaceMemberships`, one account after the other, up to `n`. */
  function InsertMembers(t: Tables, pool: Id, provider: Id, ids: seq<Id>, n: nat): Result<Tables, Error>
    requires n <= |ids|
  {
    if n == 0 then Ok(t)
    else
      var before := InsertMembers(t, pool, provider, ids, n - 1);
      if before.Err? then before
      else if ids[n - 1] !in t.accounts then Err(NotFound)
      else if t.accounts[ids[n - 1]].providerId != provider then Err(Invalid)
      else Ok(before.value.(memberships := before.value.memberships + [Membership(pool, ids[n - 1], n - 1)]))
  }

  function ReplaceMemberships(t: Tables, pool: Id, provider: Id, ids: seq<Id>): Result<Tables, Error> {
    if !NoRepeats(ids) then Err(Conflict)
    else InsertMembers(t.(memberships := Without(t.memberships, pool)), pool, provider, ids, |ids|)
  }

  // ------------------------------------------------------------- operations

  function DoCreateProvider(t: Tables, r: Request, id: Id, now: string): Result<Tables, Error>
    requires r.CreateProvider?
  {
    var name := Trim(r.name);
    if name == "" then Err(Invalid)
    else PutProvider(t, id, Provider(name, r.details, r.requiredTerms, true, Stamp(1, now, now)))
  }

  function DoUpdateProvider(t: Tables, r: Request, now: string): Result<Tables, Error>
    requires r.UpdateProvider?
  {
    if r.id !in t.providers then Err(NotFound)
    else if r.newName.Some? && Trim(r.newName.value) == "" then Err(Invalid)
    else
      var current := t.providers[r.id];
      PutProvider(t, r.id, Provider(
        if r.newName.None? then current.name else Trim(r.newName.value),
        Or(r.newDetails, current.details),
        if r.requiredTerms.Some? then r.requiredTerms else current.requiredTerms,
        Or(r.enabled, current.enabled),
        Next(current.stamp, now)))
  }

  function DoBindCredential(t: Tables, r: Request, now: string): Result<Tables, Error>
    requires r.BindCredential?
  {
    if r.id !in t.accounts then Err(NotFound)
    else if Trim(r.handle) == "" then Err(Invalid)
    else if r.generation < 0 then Err(Invalid)
    else
      var current := t.accounts[r.id];
      Ok(PutAccount(t, r.id, current.(
        credentialHandle := Trim(r.handle), credentialGeneration := r.generation, state := r.toState,
        pauseReason := if r.toState == Paused then current.pauseReason else None,
        stamp := Next(current.stamp, now))))
  }

  function DoCreateAccount(t: Tables, r: Request, id: Id, now: string): Result<Tables, Error>
    requires r.CreateAccount?
  {
    if r.providerId !in t.providers then Err(NotFound)
    else if Trim(r.name) == "" || Trim(r.handle) == "" then Err(Invalid)
    else if PseudonymTaken(t, r.providerId, Trim(r.name)) then Err(Conflict)
    else
      var row := Account(Trim(r.name), r.providerId, Trim(r.handle), 0, Or(r.state, Unready), None,
                         Or(r.quota, "unknown"), None, None, Stamp(1, now, now));
      Ok(PutAccount(t, id, row).(health := t.health[id := Health(None, None, 0, None)]))
  }

  function DoUpdateAccount(t: Tables, r: Request, now: string): Result<Tables, Error>
    requires r.UpdateAccount?
  {
    if r.id !in t.accounts then Err(NotFound)
    else
      var current := t.accounts[r.id];
      var state := Or(r.state, current.state);
      Ok(PutAccount(t, r.id, current.(
        state := state,
        pauseReason := if state != Paused then None else if r.pauseReason.Some? then r.pauseReason else current.pauseReason,
        quotaClass := Or(r.quota, current.quotaClass),
        stamp := Next(current.stamp, now))))
  }

  function DoAcknowledgeTerms(t: Tables, r: Request, now: string): Result<Tables, Error>
    requires r.AcknowledgeTerms?
  {
    if r.id !in t.accounts then Err(NotFound)
    else
      var current := t.accounts[r.id];
      if current.providerId !in t.providers then Err(NotFound)
      else if Trim(r.revision) == "" then Err(Invalid)
      else
        var required := t.providers[current.providerId].requiredTerms;
        var revision := Trim(r.revision);
        if required.Some? && required.value != revision then Err(Invalid)
        else
          Ok(PutAccount(t.(terms := t.terms[(r.id, current.providerId, revision) := now]), r.id,
                        current.(terms := Some(revision), stamp := Next(current.stamp, now))))
  }

  function NewPool(r: Request, now: string): Pool
    requires r.CreatePool?
  {
    Pool(Trim(r.name), r.providerId, r.strategy, r.affinity, Or(r.retryBudget, 1), Stamp(1, now, now))
  }

  function DoCreatePool(t: Tables, r: Request, id: Id, now: string): Result<Tables, Error>
    requires r.CreatePool?
  {
    if r.providerId !in t.providers then Err(NotFound)
    else if Trim(r.name) == "" || Or(r.retryBudget, 1) < 0 then Err(Invalid)
    else
      var put := PutPool(t, id, NewPool(r, now));
      if put.Err? then put
      else ReplaceMemberships(put.value, id, r.providerId, Or(r.accountIds, []))
  }

  /** The provider of a pool never changes. */
  function UpdatedPool(current: Pool, r: Request, now: string): Pool
    requires r.UpdatePool?
  {
    Pool(if r.newName.None? then current.name else Trim(r.newName.value), current.providerId,
         Or(r.newStrategy, current.strategy), Or(r.newAffinity, current.affinity),
         Or(r.retryBudget, current.retryBudget), Next(current.stamp, now))
  }

  function DoUpdatePool(t: Tables, r: Request, now: string): Result<Tables, Error>
    requires r.UpdatePool?
  {
    if r.id !in t.pools then Err(NotFound)
    else
      var current := t.pools[r.id];
      if Or(r.retryBudget, current.retryBudget) < 0 then Err(Invalid)
      else if r.newName.Some? && Trim(r.newName.value) == "" then Err(Invalid)
      else
        var put := PutPool(t, r.id, UpdatedPool(current, r, now));
        if put.Err? || r.accountIds.None? then put
        else ReplaceMemberships(put.value, r.id, current.providerId, r.accountIds.value)
  }

  /** The references of a profile, checked in the order of the source. */
  function ProfileRefs(t: Tables, provider: Option<Id>, pool: Option<Id>): Option<Error> {
    if provider.None? && pool.None? then Some(Invalid)
    else if provider.Some? && provider.value !in t.providers then Some(NotFound)
    else if pool.Some? && pool.value !in t.pools then Some(NotFound)
    else if provider.Some? && pool.Some? && t.pools[pool.value].providerId != provider.value then Some(Invalid)
    else None
  }

  function DoCreateProfile(t: Tables, r: Request, id: Id, now: string): Result<Tables, Error>
    requires r.CreateProfile?
  {
    var refs := ProfileRefs(t, r.provider, r.pool);
    if refs.Some? then Err(refs.value)
    else if Trim(r.name) == "" || !ValidRoles(r.roles) then Err(Invalid)
    else PutProfile(t, id, Profile(Trim(r.name), r.harness, r.provider, r.pool, r.roles, r.policy, Stamp(1, now, now)))
  }

  function DoUpdateProfile(t: Tables, r: Request, now: string): Result<Tables, Error>
    requires r.UpdateProfile?
  {
    if r.id !in t.profiles then Err(NotFound)
    else
      var current := t.profiles[r.id];
      var provider := if r.provider.Some? then r.provider else current.providerId;
      var pool := if r.pool.Some? then r.pool else current.poolId;
      var refs := ProfileRefs(t, provider, pool);
      if refs.Some? then Err(refs.value)
      else if r.newName.Some? && Trim(r.newName.value) == "" then Err(Invalid)
      else if r.newRoles.Some? && !ValidRoles(r.newRoles.value) then Err(Invalid)
      else PutProfile(t, r.id, Profile(
        if r.newName.None? then current.name else Trim(r.newName.value), Or(r.newHarness, current.harness),
        provider, pool, Or(r.newRoles, current.modelRoles), Or(r.newPolicy, current.policy), Next(current.stamp, now)))
  }

  function DoRecordOutcome(t: Tables, r: Request, now: string): Result<Tables, Error>
    requires r.RecordOutcome?
  {
    if r.id !in t.accounts then Err(NotFound)
    else
      var current := t.accounts[r.id];
      var failures := if r.id in t.health then t.health[r.id].failures else 0;
      var success := r.outcome == Success;
      var cooldown := if success then None else Or(r.cooldown, current.cooldownUntil);
      Ok(PutAccount(t, r.id, current.(
        quotaClass := Or(r.quota, current.quotaClass), cooldownUntil := cooldown, stamp := Next(current.stamp, now))).(
          health := t.health[r.id := Health(Some(r.outcome), Some(now), if success then 0 else failures + 1, cooldown)]))
  }

  function Work(t: Tables, r: Request, id: Id, now: string): Result<Tables, Error> {
    match r
    case CreateProvider(_, _, _) => DoCreateProvider(t, r, id, now)
    case UpdateProvider(_, _, _, _, _, _) => DoUpdateProvider(t, r, now)
    case BindCredential(_, _, _, _, _) => DoBindCredential(t, r, now)
    case CreateAccount(_, _, _, _, _) => DoCreateAccount(t, r, id, now)
    case UpdateAccount(_, _, _, _, _) => DoUpdateAccount(t, r, now)
    case AcknowledgeTerms(_, _, _) => DoAcknowledgeTerms(t, r, now)
    case CreatePool(_, _, _, _, _, _) => DoCreatePool(t, r, id, now)
    case UpdatePool(_, _, _, _, _, _, _) => DoUpdatePool(t, r, now)
    case CreateProfile(_, _, _, _, _, _) => DoCreateProfile(t, r, id, now)
    case UpdateProfile(_, _, _, _, _, _, _, _) => DoUpdateProfile(t, r, now)
    case RecordOutcome(_, _, _, _) => DoRecordOutcome(t, r, now)
  }

  /** The check of the expected version that opens an update. */
  function VersionError(t: Tables, r: Request): Option<Error> {
    match r
    case UpdateProvider(id, v, _, _, _, _) =>
      if id !in t.providers then Some(NotFound) else if t.providers[id].stamp.version != v then Some(VersionConflict) else None
    case BindCredential(id, v, _, _, _) => AccountVersionError(t, id, v)
    case UpdateAccount(id, v, _, _, _) => AccountVersionError(t, id, v)
    case AcknowledgeTerms(id, v, _) => AccountVersionError(t, id, v)
    case UpdatePool(id, v, _, _, _, _, _) =>
      if id !in t.pools then Some(NotFound) else if t.pools[id].stamp.version != v then Some(VersionConflict) else None
    case UpdateProfile(id, v, _, _, _, _, _, _) =>
      if id !in t.profiles then Some(NotFound) else if t.profiles[id].stamp.version != v then Some(VersionConflict) else None
    case _ => None
  }

  function AccountVersionError(t: Tables, id: Id, v: int): Option<Error> {
    if id !in t.accounts then Some(NotFound) else if t.accounts[id].stamp.version != v then Some(VersionConflict) else None
  }

  /** Revisions grow from the largest one stored; two revisions with the same content hash are refused. */
  function Publish(t: Tables, now: string): Result<Tables, Error> {
    if exists i :: 0 <= i < |t.policies| && t.policies[i].snapshot == Snap(t) then Err(StorageFailure)
    else Ok(t.(policies := t.policies + [Policy(LargestRevision(t.policies) + 1, Snap(t), now)]))
  }

  function LargestRevision(ps: seq<Policy>): nat {
    if ps == [] then 0
    else
      var before := LargestRevision(ps[..|ps| - 1]);
      if ps[|ps| - 1].revision > before then ps[|ps| - 1].revision else before
  }

  function Mutate(t: Tables, r: Request, id: Id, now: string): Result<Tables, Error> {
    var stale := VersionError(t, r);
    if stale.Some? then Err(stale.value)
    else
      var done := Work(t, r, id, now);
      if done.Err? || r.RecordOutcome? then done else Publish(done.value, now)
  }
}

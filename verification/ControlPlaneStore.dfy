/**
 * The control-plane store as an object: tables changed in place inside a
 * transaction that is rolled back when the work throws midway.
 */
module ControlPlaneStore {
  import opened Wrappers
  import opened ControlPlane
  import opened ControlPlaneInvariant
  import opened ControlPlaneRuns

  class Store {
    var db: Tables
    var audit: seq<AuditEvent>

    constructor ()
      ensures db == EmptyTables && audit == []
    {
      db, audit := EmptyTables, [];
    }

    /** The outcome of a step inside a transaction; after an error the tables may be half changed. */
    ghost predicate Follows(spec: Result<Tables, Error>, error: Option<Error>)
      reads this
    {
      match spec
      case Ok(t) => error == None && db == t
      case Err(e) => error == Some(e)
    }

    /** Deletes the memberships of a pool and inserts the accounts one by one; may throw between two inserts. */
    method ReplaceMembers(pool: Id, provider: Id, ids: seq<Id>) returns (error: Option<Error>)
      modifies this`db
      ensures Follows(ReplaceMemberships(old(db), pool, provider, ids), error)
    {
      if exists i, j :: 0 <= i < j < |ids| && ids[i] == ids[j] { return Some(Conflict); }
      db := db.(memberships := Without(db.memberships, pool));
      ghost var base := db;
      var i := 0;
      while i < |ids|
        invariant i <= |ids|
        invariant InsertMembers(base, pool, provider, ids, i) == Ok(db)
        invariant db.accounts == base.accounts
      {
        if ids[i] !in db.accounts {
          InsertStops(base, pool, provider, ids, i + 1, NotFound);
          return Some(NotFound);
        }
        if db.accounts[ids[i]].providerId != provider {
          InsertStops(base, pool, provider, ids, i + 1, Invalid);
          return Some(Invalid);
        }
        db := db.(memberships := db.memberships + [Membership(pool, ids[i], i)]);
        i := i + 1;
      }
      error := None;
    }

    /** Runs the statements of one operation. */
    method RunWork(r: Request, id: Id, now: string) returns (error: Option<Error>)
      modifies this`db
      ensures Follows(Work(old(db), r, id, now), error)
    {
      match r
      case CreatePool(name, providerId, strategy, affinity, retryBudget, accountIds) =>
        if providerId !in db.providers { return Some(NotFound); }
        if Trim(name) == "" || Or(retryBudget, 1) < 0 { return Some(Invalid); }
        error := WritePool(id, NewPool(r, now));
        if error.Some? { return; }
        error := ReplaceMembers(id, providerId, Or(accountIds, []));
      case UpdatePool(poolId, version, newName, newStrategy, newAffinity, retryBudget, accountIds) =>
        if poolId !in db.pools { return Some(NotFound); }
        var current := db.pools[poolId];
        if Or(retryBudget, current.retryBudget) < 0 { return Some(Invalid); }
        if newName.Some? && Trim(newName.value) == "" { return Some(Invalid); }
        error := WritePool(poolId, UpdatedPool(current, r, now));
        if error.Some? || accountIds.None? { return; }
        error := ReplaceMembers(poolId, current.providerId, accountIds.value);
      case CreateAccount(name, providerId, handle, state, quota) =>
        if providerId !in db.providers { return Some(NotFound); }
        if Trim(name) == "" || Trim(handle) == "" { return Some(Invalid); }
        if PseudonymTaken(db, providerId, Trim(name)) { return Some(Conflict); }
        db := PutAccount(db, id, Account(Trim(name), providerId, Trim(handle), 0, Or(state, Unready), None,
                                         Or(quota, "unknown"), None, None, Stamp(1, now, now)));
        db := db.(health := db.health[id := Health(None, None, 0, None)]);
        error := None;
      case AcknowledgeTerms(accountId, version, revision) =>
        if accountId !in db.accounts { return Some(NotFound); }
        var current := db.accounts[accountId];
        if current.providerId !in db.providers { return Some(NotFound); }
        if Trim(revision) == "" { return Some(Invalid); }
        var required := db.providers[current.providerId].requiredTerms;
        if required.Some? && required.value != Trim(revision) { return Some(Invalid); }
        db := db.(terms := db.terms[(accountId, current.providerId, Trim(revision)) := now]);
        db := PutAccount(db, accountId, current.(terms := Some(Trim(revision)), stamp := Next(current.stamp, now)));
        error := None;
      case RecordOutcome(accountId, outcome, quota, cooldown) =>
        if accountId !in db.accounts { return Some(NotFound); }
        var current := db.accounts[accountId];
        var failures := if accountId in db.health then db.health[accountId].failures else 0;
        var until := if outcome == Success then None else Or(cooldown, current.cooldownUntil);
        db := PutAccount(db, accountId, current.(quotaClass := Or(quota, current.quotaClass), cooldownUntil := until,
                                                 stamp := Next(current.stamp, now)));
        db := db.(health := db.health[accountId :=
          Health(Some(outcome), Some(now), if outcome == Success then 0 else failures + 1, until)]);
        error := None;
      case CreateProvider(_, _, _) => error := InsertNewProvider(r, id, now);
      case UpdateProvider(_, _, _, _, _, _) => error := ChangeProvider(r, now);
      case BindCredential(_, _, _, _, _) => error := BindAccount(r, now);
      case UpdateAccount(_, _, _, _, _) => error := ChangeAccount(r, now);
      case CreateProfile(_, _, _, _, _, _) => error := InsertNewProfile(r, id, now);
      case UpdateProfile(_, _, _, _, _, _, _, _) => error := ChangeProfile(r, now);
    }

    method InsertNewProvider(r: Request, id: Id, now: string) returns (error: Option<Error>)
      requires r.CreateProvider?
      modifies this`db
      ensures Follows(DoCreateProvider(old(db), r, id, now), error)
    {
      var name := Trim(r.name);
      if |name| == 0 { return Some(Invalid); }
      error := WriteProvider(id, Provider(name, r.details, r.requiredTerms, true, Stamp(1, now, now)));
    }

    method ChangeProvider(r: Request, now: string) returns (error: Option<Error>)
      requires r.UpdateProvider?
      modifies this`db
      ensures Follows(DoUpdateProvider(old(db), r, now), error)
    {
      if r.id !in db.providers { return Some(NotFound); }
      var next := db.providers[r.id];
      if r.newName.Some? {
        next := next.(name := Trim(r.newName.value));
        if next.name == "" { return Some(Invalid); }
      }
      if r.newDetails.Some? { next := next.(details := r.newDetails.value); }
      if r.requiredTerms.Some? { next := next.(requiredTerms := r.requiredTerms); }
      if r.enabled.Some? { next := next.(enabled := r.enabled.value); }
      next := next.(stamp := Stamp(next.stamp.version + 1, next.stamp.createdAt, now));
      error := WriteProvider(r.id, next);
    }

    method WriteProvider(id: Id, row: Provider) returns (error: Option<Error>)
      modifies this`db
      ensures Follows(PutProvider(old(db), id, row), error)
    {
      if !row.details.secretFree { return Some(Invalid); }
      if ProviderNameTaken(db, row.name, Some(id)) { return Some(Conflict); }
      db := db.(providers := db.providers[id := row]);
      error := None;
    }

    method BindAccount(r: Request, now: string) returns (error: Option<Error>)
      requires r.BindCredential?
      modifies this`db
      ensures Follows(DoBindCredential(old(db), r, now), error)
    {
      if r.id !in db.accounts { return Some(NotFound); }
      var next := db.accounts[r.id];
      var handle := Trim(r.handle);
      if handle == "" { return Some(Invalid); }
      next := next.(credentialHandle := handle, credentialGeneration := r.generation, state := r.toState);
      if next.state != Paused { next := next.(pauseReason := None); }
      next := next.(stamp := Stamp(next.stamp.version + 1, next.stamp.createdAt, now));
      if next.credentialGeneration < 0 { return Some(Invalid); }
      db := db.(accounts := db.accounts[r.id := next]);
      error := None;
    }

    method ChangeAccount(r: Request, now: string) returns (error: Option<Error>)
      requires r.UpdateAccount?
      modifies this`db
      ensures Follows(DoUpdateAccount(old(db), r, now), error)
    {
      if r.id !in db.accounts { return Some(NotFound); }
      var next := db.accounts[r.id];
      if r.state.Some? { next := next.(state := r.state.value); }
      if next.state != Paused {
        next := next.(pauseReason := None);
      } else if r.pauseReason.Some? {
        next := next.(pauseReason := r.pauseReason);
      }
      if r.quota.Some? { next := next.(quotaClass := r.quota.value); }
      next := next.(stamp := Stamp(next.stamp.version + 1, next.stamp.createdAt, now));
      db := db.(accounts := db.accounts[r.id := next]);
      error := None;
    }

    /** A profile names a provider, a pool, or a pool of that provider. */
    method AssertProfileRefs(provider: Option<Id>, pool: Option<Id>) returns (error: Option<Error>)
      ensures error == ProfileRefs(db, provider, pool)
      ensures error.None? <==>
              && (provider.Some? || pool.Some?)
              && (provider.Some? ==> provider.value in db.providers)
              && (pool.Some? ==> pool.value in db.pools)
              && (provider.Some? && pool.Some? ==> db.pools[pool.value].providerId == provider.value)
    {
      if provider.None? && pool.None? { return Some(Invalid); }
      if provider.Some? {
        if provider.value !in db.providers { return Some(NotFound); }
      }
      if pool.Some? {
        if pool.value !in db.pools { return Some(NotFound); }
        if provider.Some? && db.pools[pool.value].providerId != provider.value { return Some(Invalid); }
      }
      error := None;
    }

    method InsertNewProfile(r: Request, id: Id, now: string) returns (error: Option<Error>)
      requires r.CreateProfile?
      modifies this`db
      ensures Follows(DoCreateProfile(old(db), r, id, now), error)
    {
      error := AssertProfileRefs(r.provider, r.pool);
      if error.Some? { return; }
      var name := Trim(r.name);
      if name == "" { return Some(Invalid); }
      if !ValidRoles(r.roles) { return Some(Invalid); }
      error := WriteProfile(id, Profile(name, r.harness, r.provider, r.pool, r.roles, r.policy, Stamp(1, now, now)));
    }

    method ChangeProfile(r: Request, now: string) returns (error: Option<Error>)
      requires r.UpdateProfile?
      modifies this`db
      ensures Follows(DoUpdateProfile(old(db), r, now), error)
    {
      if r.id !in db.profiles { return Some(NotFound); }
      var next := db.profiles[r.id];
      if r.provider.Some? { next := next.(providerId := r.provider); }
      if r.pool.Some? { next := next.(poolId := r.pool); }
      error := AssertProfileRefs(next.providerId, next.poolId);
      if error.Some? { return; }
      if r.newName.Some? {
        next := next.(name := Trim(r.newName.value));
        if next.name == "" { return Some(Invalid); }
      }
      if r.newHarness.Some? { next := next.(harness := r.newHarness.value); }
      if r.newRoles.Some? {
        if !ValidRoles(r.newRoles.value) { return Some(Invalid); }
        next := next.(modelRoles := r.newRoles.value);
      }
      if r.newPolicy.Some? { next := next.(policy := r.newPolicy.value); }
      next := next.(stamp := Stamp(next.stamp.version + 1, next.stamp.createdAt, now));
      error := WriteProfile(r.id, next);
    }

    method WriteProfile(id: Id, row: Profile) returns (error: Option<Error>)
      modifies this`db
      ensures Follows(PutProfile(old(db), id, row), error)
    {
      if !row.policy.secretFree { return Some(Invalid); }
      if ProfileNameTaken(db, row.name, Some(id)) { return Some(Conflict); }
      db := db.(profiles := db.profiles[id := row]);
      error := None;
    }

    method WritePool(id: Id, row: Pool) returns (error: Option<Error>)
      modifies this`db
      ensures Follows(PutPool(old(db), id, row), error)
    {
      if !row.affinity.secretFree { return Some(Invalid); }
      if PoolNameTaken(db, row.name, Some(id)) { return Some(Conflict); }
      db := db.(pools := db.pools[id := row]);
      error := None;
    }

    method CompilePolicy(now: string) returns (error: Option<Error>)
      modifies this`db
      ensures Follows(Publish(old(db), now), error)
    {
      var snapshot := Snap(db);
      var revision, i := 0, 0;
      while i < |db.policies|
        invariant i <= |db.policies|
        invariant revision == LargestRevision(db.policies[..i])
      {
        assert db.policies[..i + 1][..i] == db.policies[..i];
        if db.policies[i].revision > revision { revision := db.policies[i].revision; }
        i := i + 1;
      }
      assert db.policies[..|db.policies|] == db.policies;
      if exists k :: 0 <= k < |db.policies| && db.policies[k].snapshot == snapshot { return Some(StorageFailure); }
      db := db.(policies := db.policies + [Policy(revision + 1, snapshot, now)]);
      error := None;
    }

    /**
     * Begin, version check, work, policy, audit, commit; on any error the
     * tables are exactly as before and the audit log says so.
     */
    method Transact(r: Request, id: Id, now: string) returns (error: Option<Error>)
      modifies this
      ensures var s := Step(State(old(db), old(audit), {}, map[]), Call(r, id, now));
              db == s.t && audit == s.audit
      ensures error == match Mutate(old(db), r, id, now) case Ok(_) => None case Err(e) => Some(e)
      ensures error.Some? ==> db == old(db) && audit == old(audit) + [AuditEvent(r, false, now)]
    {
      var saved := db;
      error := VersionError(db, r);
      if error.None? {
        error := RunWork(r, id, now);
        if error.None? && !r.RecordOutcome? {
          error := CompilePolicy(now);
        }
      }
      if error.Some? {
        db := saved;
      }
      audit := audit + [AuditEvent(r, error.None?, now)];
    }
  }

  /** Once an insertion throws, so does every longer list. */
  lemma {:induction false} InsertStops(t: Tables, pool: Id, provider: Id, ids: seq<Id>, n: nat, e: Error)
    requires n <= |ids| && InsertMembers(t, pool, provider, ids, n) == Err(e)
    ensures InsertMembers(t, pool, provider, ids, |ids|) == Err(e)
    decreases |ids| - n
  {
    if n < |ids| {
      InsertStops(t, pool, provider, ids, n + 1, e);
    }
  }
}

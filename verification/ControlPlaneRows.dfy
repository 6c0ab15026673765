/**
 * What each accepted control-plane mutation makes of its own row, field by
 * field, and which mutations are accepted.
 */
module ControlPlaneRows {
  import opened Wrappers
  import opened ControlPlane
  import opened ControlPlaneInvariant
  import opened ControlPlaneRuns

  /** A field after an update: the given value, or the one it had. */
  predicate Takes<T(==)>(field: T, given: Option<T>, before: T) {
    match given
    case Some(value) => field == value
    case None => field == before
  }

  /** The same for an optional field, which an update can set but not clear. */
  predicate TakesSome<T(==)>(field: Option<T>, given: Option<T>, before: Option<T>) {
    match given
    case Some(_) => field == given
    case None => field == before
  }

  /** The same for a name, which is trimmed. */
  predicate TakesName(field: string, given: Option<string>, before: string) {
    match given
    case Some(name) => field == Trim(name)
    case None => field == before
  }

  predicate New(s: Stamp, now: string) { s == Stamp(1, now, now) }

  predicate Advanced(s: Stamp, before: Stamp, now: string) {
    s.version == before.version + 1 && s.createdAt == before.createdAt && s.updatedAt == now
  }

  // ------------------------------------------------------------------- trimming

  /** The white space and line terminators of ECMAScript, by code point. */
  lemma SpaceIff(c: char)
    ensures var n := c as int;
            IsSpace(c) <==> || 9 <= n <= 13 || 0x2000 <= n <= 0x200A
                            || n in {0x20, 0xA0, 0x1680, 0x2028, 0x2029, 0x202F, 0x205F, 0x3000, 0xFEFF}
  {
  }

  predicate Blank(s: string) { forall i :: 0 <= i < |s| ==> IsSpace(s[i]) }

  /** Trimming takes white space off both ends. */
  lemma {:induction false} TrimTakesBlanks(s: string) returns (left: string, right: string)
    ensures s == left + Trim(s) + right && Blank(left) && Blank(right)
    decreases |s|
  {
    left, right := "", "";
    if s == "" {
    } else if IsSpace(s[0]) {
      left, right := TrimTakesBlanks(s[1..]);
      assert s == [s[0]] + s[1..];
      left := [s[0]] + left;
    } else if IsSpace(s[|s| - 1]) {
      left, right := TrimTakesBlanks(s[..|s| - 1]);
      assert s == s[..|s| - 1] + [s[|s| - 1]];
      right := right + [s[|s| - 1]];
    }
  }

  /** ... and all of it. */
  lemma {:induction false} TrimTakesAll(s: string)
    ensures Trim(s) != "" ==> !IsSpace(Trim(s)[0]) && !IsSpace(Trim(s)[|Trim(s)| - 1])
    decreases |s|
  {
    if s == "" {
    } else if IsSpace(s[0]) {
      TrimTakesAll(s[1..]);
    } else if IsSpace(s[|s| - 1]) {
      TrimTakesAll(s[..|s| - 1]);
    }
  }

  // ------------------------------------------------------------------- the rows

  predicate NewProviderRow(row: Provider, r: Request, now: string)
    requires r.CreateProvider?
  {
    && row.name == Trim(r.name) && row.details == r.details && row.requiredTerms == r.requiredTerms
    && row.enabled && New(row.stamp, now)
  }

  predicate UpdatedProviderRow(row: Provider, before: Provider, r: Request, now: string)
    requires r.UpdateProvider?
  {
    && TakesName(row.name, r.newName, before.name) && Takes(row.details, r.newDetails, before.details)
    && TakesSome(row.requiredTerms, r.requiredTerms, before.requiredTerms) && Takes(row.enabled, r.enabled, before.enabled)
    && Advanced(row.stamp, before.stamp, now)
  }

  predicate NewAccountRow(row: Account, h: Health, r: Request, now: string)
    requires r.CreateAccount?
  {
    && row.pseudonym == Trim(r.name) && row.providerId == r.providerId && row.credentialHandle == Trim(r.handle)
    && row.credentialGeneration == 0 && Takes(row.state, r.state, Unready) && Takes(row.quotaClass, r.quota, "unknown")
    && row.pauseReason == None && row.cooldownUntil == None && row.terms == None && New(row.stamp, now)
    && h == Health(None, None, 0, None)
  }

  predicate BoundAccountRow(row: Account, before: Account, r: Request, now: string)
    requires r.BindCredential?
  {
    && row.credentialHandle == Trim(r.handle) && row.credentialGeneration == r.generation && row.state == r.toState
    && row.pauseReason == (if row.state == Paused then before.pauseReason else None)
    && row.pseudonym == before.pseudonym && row.providerId == before.providerId && row.quotaClass == before.quotaClass
    && row.cooldownUntil == before.cooldownUntil && row.terms == before.terms && Advanced(row.stamp, before.stamp, now)
  }

  /** A pause reason stands only while the account is paused. */
  predicate UpdatedAccountRow(row: Account, before: Account, r: Request, now: string)
    requires r.UpdateAccount?
  {
    && Takes(row.state, r.state, before.state) && Takes(row.quotaClass, r.quota, before.quotaClass)
    && (if row.state == Paused then TakesSome(row.pauseReason, r.pauseReason, before.pauseReason) else row.pauseReason == None)
    && row.pseudonym == before.pseudonym && row.providerId == before.providerId
    && row.credentialHandle == before.credentialHandle && row.credentialGeneration == before.credentialGeneration
    && row.cooldownUntil == before.cooldownUntil && row.terms == before.terms && Advanced(row.stamp, before.stamp, now)
  }

  predicate TermsAccountRow(row: Account, before: Account, r: Request, now: string)
    requires r.AcknowledgeTerms?
  {
    && row.terms == Some(Trim(r.revision))
    && row.(terms := before.terms, stamp := before.stamp) == before && Advanced(row.stamp, before.stamp, now)
  }

  /** A success ends the cooldown; any other outcome sets, clears or keeps it as it says. */
  predicate OutcomeRow(row: Account, h: Health, before: Account, failures: nat, r: Request, now: string)
    requires r.RecordOutcome?
  {
    && Takes(row.quotaClass, r.quota, before.quotaClass)
    && (if r.outcome == Success then row.cooldownUntil == None else Takes(row.cooldownUntil, r.cooldown, before.cooldownUntil))
    && row.(quotaClass := before.quotaClass, cooldownUntil := before.cooldownUntil, stamp := before.stamp) == before
    && Advanced(row.stamp, before.stamp, now)
    && h.lastOutcome == Some(r.outcome) && h.lastOutcomeAt == Some(now) && h.cooldownUntil == row.cooldownUntil
    && h.failures == if r.outcome == Success then 0 else failures + 1
  }

  predicate NewPoolRow(row: Pool, r: Request, now: string)
    requires r.CreatePool?
  {
    && row.name == Trim(r.name) && row.providerId == r.providerId && row.strategy == r.strategy && row.affinity == r.affinity
    && Takes(row.retryBudget, r.retryBudget, 1) && New(row.stamp, now)
  }

  predicate UpdatedPoolRow(row: Pool, before: Pool, r: Request, now: string)
    requires r.UpdatePool?
  {
    && TakesName(row.name, r.newName, before.name) && row.providerId == before.providerId
    && Takes(row.strategy, r.newStrategy, before.strategy) && Takes(row.affinity, r.newAffinity, before.affinity)
    && Takes(row.retryBudget, r.retryBudget, before.retryBudget) && Advanced(row.stamp, before.stamp, now)
  }

  predicate NewProfileRow(row: Profile, r: Request, now: string)
    requires r.CreateProfile?
  {
    && row.name == Trim(r.name) && row.harness == r.harness && row.providerId == r.provider && row.poolId == r.pool
    && row.modelRoles == r.roles && row.policy == r.policy && New(row.stamp, now)
  }

  predicate UpdatedProfileRow(row: Profile, before: Profile, r: Request, now: string)
    requires r.UpdateProfile?
  {
    && TakesName(row.name, r.newName, before.name) && Takes(row.harness, r.newHarness, before.harness)
    && TakesSome(row.providerId, r.provider, before.providerId) && TakesSome(row.poolId, r.pool, before.poolId)
    && Takes(row.modelRoles, r.newRoles, before.modelRoles) && Takes(row.policy, r.newPolicy, before.policy)
    && Advanced(row.stamp, before.stamp, now)
  }

  /** The row `id` or `r.id` of `t'` is what the request asks for, given the row of `t`. */
  predicate RowFollows(t: Tables, t': Tables, r: Request, id: Id, now: string) {
    match r
    case CreateProvider(_, _, _) => id in t'.providers && NewProviderRow(t'.providers[id], r, now)
    case UpdateProvider(_, _, _, _, _, _) =>
      r.id in t.providers && r.id in t'.providers && UpdatedProviderRow(t'.providers[r.id], t.providers[r.id], r, now)
    case CreateAccount(_, _, _, _, _) =>
      id in t'.accounts && id in t'.health && NewAccountRow(t'.accounts[id], t'.health[id], r, now)
    case BindCredential(_, _, _, _, _) =>
      r.id in t.accounts && r.id in t'.accounts && BoundAccountRow(t'.accounts[r.id], t.accounts[r.id], r, now)
    case UpdateAccount(_, _, _, _, _) =>
      r.id in t.accounts && r.id in t'.accounts && UpdatedAccountRow(t'.accounts[r.id], t.accounts[r.id], r, now)
    case AcknowledgeTerms(_, _, _) =>
      && r.id in t.accounts && r.id in t'.accounts && TermsAccountRow(t'.accounts[r.id], t.accounts[r.id], r, now)
      && t'.terms == t.terms[(r.id, t.accounts[r.id].providerId, Trim(r.revision)) := now]
    case RecordOutcome(_, _, _, _) =>
      && r.id in t.accounts && r.id in t'.accounts && r.id in t'.health
      && OutcomeRow(t'.accounts[r.id], t'.health[r.id], t.accounts[r.id],
                    if r.id in t.health then t.health[r.id].failures else 0, r, now)
    case CreatePool(_, _, _, _, _, _) => id in t'.pools && NewPoolRow(t'.pools[id], r, now)
    case UpdatePool(_, _, _, _, _, _, _) =>
      && r.id in t.pools && r.id in t'.pools && UpdatedPoolRow(t'.pools[r.id], t.pools[r.id], r, now)
      && (r.accountIds.None? ==> t'.memberships == t.memberships)
    case CreateProfile(_, _, _, _, _, _) => id in t'.profiles && NewProfileRow(t'.profiles[id], r, now)
    case UpdateProfile(_, _, _, _, _, _, _, _) =>
      r.id in t.profiles && r.id in t'.profiles && UpdatedProfileRow(t'.profiles[r.id], t.profiles[r.id], r, now)
  }

  lemma WorkRow(t: Tables, r: Request, id: Id, now: string)
    requires Work(t, r, id, now).Ok? && !r.CreatePool? && !r.UpdatePool?
    ensures RowFollows(t, Work(t, r, id, now).value, r, id, now)
  {
  }

  lemma PoolRow(t: Tables, r: Request, id: Id, now: string)
    requires Work(t, r, id, now).Ok? && (r.CreatePool? || r.UpdatePool?)
    ensures RowFollows(t, Work(t, r, id, now).value, r, id, now)
  {
    PoolWorkRow(t, r, id, now);
  }

  /** Every accepted mutation gives its row the fields the request names and leaves it the others. */
  lemma MutateRow(t: Tables, r: Request, id: Id, now: string)
    requires Mutate(t, r, id, now).Ok?
    ensures RowFollows(t, Mutate(t, r, id, now).value, r, id, now)
  {
    MutateOk(t, r, id, now);
    if r.CreatePool? || r.UpdatePool? {
      PoolRow(t, r, id, now);
    } else {
      WorkRow(t, r, id, now);
    }
  }

  // ------------------------------------------------------------------ pin order

  ghost predicate ByPin(ms: seq<Membership>) {
    forall i, j :: 0 <= i < j < |ms| ==> ms[i].pinOrder <= ms[j].pinOrder
  }

  lemma {:induction false} InsertKeepsRows(m: Membership, ms: seq<Membership>)
    ensures multiset(InsertByPin(m, ms)) == multiset(ms + [m])
  {
    if ms != [] && ms[|ms| - 1].pinOrder > m.pinOrder {
      var n := |ms| - 1;
      InsertKeepsRows(m, ms[..n]);
      assert ms == ms[..n] + [ms[n]];
    }
  }

  lemma {:induction false} InsertKeepsOrder(m: Membership, ms: seq<Membership>)
    requires ByPin(ms)
    ensures ByPin(InsertByPin(m, ms))
  {
    if ms != [] && ms[|ms| - 1].pinOrder > m.pinOrder {
      var n := |ms| - 1;
      var front := InsertByPin(m, ms[..n]);
      InsertKeepsOrder(m, ms[..n]);
      InsertKeepsRows(m, ms[..n]);
      forall i | 0 <= i < |front| ensures front[i].pinOrder <= ms[n].pinOrder {
        assert front[i] in multiset(ms[..n] + [m]);
      }
    }
  }

  lemma {:induction false} SortKeepsRows(ms: seq<Membership>)
    ensures multiset(SortByPin(ms)) == multiset(ms)
  {
    if ms != [] {
      var n := |ms| - 1;
      SortKeepsRows(ms[..n]);
      InsertKeepsRows(ms[n], SortByPin(ms[..n]));
      assert ms == ms[..n] + [ms[n]];
    }
  }

  lemma {:induction false} SortOrders(ms: seq<Membership>)
    ensures ByPin(SortByPin(ms))
  {
    if ms != [] {
      SortOrders(ms[..|ms| - 1]);
      InsertKeepsOrder(ms[|ms| - 1], SortByPin(ms[..|ms| - 1]));
    }
  }

  /** Reading by pin order rearranges the rows and nothing else. */
  lemma SortByPinSorts(ms: seq<Membership>)
    ensures ByPin(SortByPin(ms)) && multiset(SortByPin(ms)) == multiset(ms)
  {
    SortOrders(ms);
    SortKeepsRows(ms);
  }

  // ---------------------------------------------------------------- acceptance

  predicate NameGiven(name: string) { !Blank(name) }

  /** The name that a row would get is not that of another row. */
  predicate FreeProviderName(t: Tables, self: Id, name: string) {
    forall k :: k in t.providers && k != self ==> t.providers[k].name != name
  }

  predicate FreePoolName(t: Tables, self: Id, name: string) {
    forall k :: k in t.pools && k != self ==> t.pools[k].name != name
  }

  predicate FreeProfileName(t: Tables, self: Id, name: string) {
    forall k :: k in t.profiles && k != self ==> t.profiles[k].name != name
  }

  predicate GoodMembers(t: Tables, provider: Id, ids: seq<Id>) {
    && (forall i, j :: 0 <= i < j < |ids| ==> ids[i] != ids[j])
    && (forall i :: 0 <= i < |ids| ==> ids[i] in t.accounts && t.accounts[ids[i]].providerId == provider)
  }

  predicate GoodRoles(roles: map<string, string>) {
    && roles != map[]
    && forall k :: k in roles ==> k in {"primary", "fast", "reasoning", "haiku", "sonnet", "opus", "fable"} && roles[k] != ""
  }

  predicate GoodRefs(t: Tables, provider: Option<Id>, pool: Option<Id>) {
    && !(provider.None? && pool.None?)
    && (provider.Some? ==> provider.value in t.providers) && (pool.Some? ==> pool.value in t.pools)
    && (provider.Some? && pool.Some? ==> t.pools[pool.value].providerId == provider.value)
  }

  /** What the tables and the request must be for a mutation to go through. */
  predicate Acceptable(t: Tables, r: Request, id: Id) {
    match r
    case CreateProvider(name, details, _) =>
      NameGiven(name) && details.secretFree && FreeProviderName(t, id, Trim(name))
    case UpdateProvider(k, v, name, details, _, _) =>
      && k in t.providers && t.providers[k].stamp.version == v
      && (name.Some? ==> NameGiven(name.value))
      && (if details.Some? then details.value else t.providers[k].details).secretFree
      && FreeProviderName(t, k, if name.Some? then Trim(name.value) else t.providers[k].name)
    case CreateAccount(name, provider, handle, _, _) =>
      && provider in t.providers && NameGiven(name) && NameGiven(handle)
      && forall k :: k in t.accounts ==> Identity(t.accounts[k]) != (provider, Trim(name))
    case BindCredential(k, v, handle, generation, _) =>
      k in t.accounts && t.accounts[k].stamp.version == v && NameGiven(handle) && generation >= 0
    case UpdateAccount(k, v, _, _, _) => k in t.accounts && t.accounts[k].stamp.version == v
    case AcknowledgeTerms(k, v, revision) =>
      && k in t.accounts && t.accounts[k].stamp.version == v && NameGiven(revision)
      && t.accounts[k].providerId in t.providers
      && t.providers[t.accounts[k].providerId].requiredTerms in {None, Some(Trim(revision))}
    case RecordOutcome(k, _, _, _) => k in t.accounts
    case CreatePool(name, provider, _, affinity, budget, ids) =>
      && provider in t.providers && NameGiven(name) && (budget.Some? ==> budget.value >= 0) && affinity.secretFree
      && FreePoolName(t, id, Trim(name)) && (ids.Some? ==> GoodMembers(t, provider, ids.value))
    case UpdatePool(k, v, name, _, affinity, budget, ids) =>
      && k in t.pools && t.pools[k].stamp.version == v
      && (if budget.Some? then budget.value else t.pools[k].retryBudget) >= 0
      && (name.Some? ==> NameGiven(name.value))
      && (if affinity.Some? then affinity.value else t.pools[k].affinity).secretFree
      && FreePoolName(t, k, if name.Some? then Trim(name.value) else t.pools[k].name)
      && (ids.Some? ==> GoodMembers(t, t.pools[k].providerId, ids.value))
    case CreateProfile(name, _, provider, pool, roles, policy) =>
      && GoodRefs(t, provider, pool) && NameGiven(name) && GoodRoles(roles) && policy.secretFree
      && FreeProfileName(t, id, Trim(name))
    case UpdateProfile(k, v, name, _, provider, pool, roles, policy) =>
      && k in t.profiles && t.profiles[k].stamp.version == v
      && GoodRefs(t, if provider.Some? then provider else t.profiles[k].providerId, if pool.Some? then pool else t.profiles[k].poolId)
      && (name.Some? ==> NameGiven(name.value)) && (roles.Some? ==> GoodRoles(roles.value))
      && (if policy.Some? then policy.value else t.profiles[k].policy).secretFree
      && FreeProfileName(t, k, if name.Some? then Trim(name.value) else t.profiles[k].name)
  }

  lemma Named(s: string)
    ensures Trim(s) == "" <==> !NameGiven(s)
  {
    var left, right := TrimTakesBlanks(s);
    TrimTakesAll(s);
    if Trim(s) == "" {
      assert forall i :: 0 <= i < |s| ==> s[i] == if i < |left| then left[i] else right[i - |left|];
    } else {
      assert s[|left|] == Trim(s)[0];
    }
  }

  lemma NamesFree(t: Tables, self: Id, name: string)
    ensures ProviderNameTaken(t, name, Some(self)) <==> !FreeProviderName(t, self, name)
    ensures PoolNameTaken(t, name, Some(self)) <==> !FreePoolName(t, self, name)
    ensures ProfileNameTaken(t, name, Some(self)) <==> !FreeProfileName(t, self, name)
  {
  }

  lemma PseudonymFree(t: Tables, provider: Id, pseudonym: string)
    ensures PseudonymTaken(t, provider, pseudonym) <==> exists k :: k in t.accounts && Identity(t.accounts[k]) == (provider, pseudonym)
  {
    if PseudonymTaken(t, provider, pseudonym) {
      var k :| k in t.accounts && t.accounts[k].providerId == provider && t.accounts[k].pseudonym == pseudonym;
      assert Identity(t.accounts[k]) == (provider, pseudonym);
    }
  }

  lemma ProviderAccepted(t: Tables, r: Request, id: Id, now: string)
    requires r.CreateProvider? || r.UpdateProvider?
    ensures VersionError(t, r).None? && Work(t, r, id, now).Ok? <==> Acceptable(t, r, id)
  {
    if r.CreateProvider? {
      Named(r.name);
      NamesFree(t, id, Trim(r.name));
    } else if r.id in t.providers {
      if r.newName.Some? { Named(r.newName.value); }
      NamesFree(t, r.id, if r.newName.Some? then Trim(r.newName.value) else t.providers[r.id].name);
    }
  }

  lemma AccountAccepted(t: Tables, r: Request, id: Id, now: string)
    requires r.CreateAccount? || r.BindCredential? || r.UpdateAccount? || r.AcknowledgeTerms? || r.RecordOutcome?
    ensures VersionError(t, r).None? && Work(t, r, id, now).Ok? <==> Acceptable(t, r, id)
  {
    if r.CreateAccount? {
      Named(r.name);
      Named(r.handle);
      PseudonymFree(t, r.providerId, Trim(r.name));
    }
    if r.BindCredential? { Named(r.handle); }
    if r.AcknowledgeTerms? { TermsAccepted(t, r, id, now); }
  }

  lemma TermsAccepted(t: Tables, r: Request, id: Id, now: string)
    requires r.AcknowledgeTerms?
    ensures VersionError(t, r).None? && Work(t, r, id, now).Ok? <==> Acceptable(t, r, id)
  {
    Named(r.revision);
    if r.id in t.accounts && t.accounts[r.id].providerId in t.providers {
      var required := t.providers[t.accounts[r.id].providerId].requiredTerms;
      assert required in {None, Some(Trim(r.revision))} <==> required.None? || required.value == Trim(r.revision);
    }
  }

  lemma MembersAccepted(t: Tables, t': Tables, pool: Id, provider: Id, ids: seq<Id>)
    requires t'.accounts == t.accounts
    ensures ReplaceMemberships(t', pool, provider, ids).Ok? <==> GoodMembers(t, provider, ids)
  {
    ReplaceMembershipsResult(t', pool, provider, ids);
    assert Eligible(t', provider, ids) == Eligible(t, provider, ids);
  }

  lemma NewPoolAccepted(t: Tables, r: Request, id: Id, now: string)
    requires r.CreatePool?
    ensures Work(t, r, id, now).Ok? <==> Acceptable(t, r, id)
  {
    Named(r.name);
    NamesFree(t, id, Trim(r.name));
    var put := PutPool(t, id, NewPool(r, now));
    if put.Ok? {
      MembersAccepted(t, put.value, id, r.providerId, Or(r.accountIds, []));
    }
  }

  lemma PoolWrite(t: Tables, id: Id, row: Pool)
    ensures PutPool(t, id, row).Ok? <==> row.affinity.secretFree && FreePoolName(t, id, row.name)
    ensures PutPool(t, id, row).Ok? ==> PutPool(t, id, row).value.accounts == t.accounts
  {
    NamesFree(t, id, row.name);
  }

  lemma OldPoolAccepted(t: Tables, r: Request, id: Id, now: string)
    requires r.UpdatePool?
    ensures VersionError(t, r).None? && Work(t, r, id, now).Ok? <==> Acceptable(t, r, id)
  {
    if r.id in t.pools {
      var current := t.pools[r.id];
      var row := UpdatedPool(current, r, now);
      if r.newName.Some? { Named(r.newName.value); }
      PoolWrite(t, r.id, row);
      var put := PutPool(t, r.id, row);
      if put.Ok? && r.accountIds.Some? {
        MembersAccepted(t, put.value, r.id, current.providerId, r.accountIds.value);
      }
    }
  }

  lemma RolesGood(roles: map<string, string>)
    ensures ValidRoles(roles) <==> GoodRoles(roles)
  {
  }

  lemma ProfileAccepted(t: Tables, r: Request, id: Id, now: string)
    requires r.CreateProfile? || r.UpdateProfile?
    ensures VersionError(t, r).None? && Work(t, r, id, now).Ok? <==> Acceptable(t, r, id)
  {
    if r.CreateProfile? {
      Named(r.name);
      NamesFree(t, id, Trim(r.name));
      RolesGood(r.roles);
    } else if r.id in t.profiles {
      if r.newName.Some? { Named(r.newName.value); }
      NamesFree(t, r.id, if r.newName.Some? then Trim(r.newName.value) else t.profiles[r.id].name);
      if r.newRoles.Some? { RolesGood(r.newRoles.value); }
    }
  }

  /** In every state of every run a mutation goes through exactly when the tables and the request are acceptable. */
  lemma AcceptedIff(calls: seq<Call>, r: Request, id: Id, now: string)
    requires FreshIds(Initial, calls) && Unused(Execute(Initial, calls).t, id)
    ensures Mutate(Execute(Initial, calls).t, r, id, now).Ok? <==> Acceptable(Execute(Initial, calls).t, r, id)
  {
    RunKeepsInv(calls);
    AcceptedIn(Execute(Initial, calls).t, r, id, now);
  }

  lemma WorkAccepted(t: Tables, r: Request, id: Id, now: string)
    ensures VersionError(t, r).None? && Work(t, r, id, now).Ok? <==> Acceptable(t, r, id)
  {
    if r.CreateProvider? || r.UpdateProvider? {
      ProviderAccepted(t, r, id, now);
    } else if r.CreatePool? {
      NewPoolAccepted(t, r, id, now);
    } else if r.UpdatePool? {
      OldPoolAccepted(t, r, id, now);
    } else if r.CreateProfile? || r.UpdateProfile? {
      ProfileAccepted(t, r, id, now);
    } else {
      AccountAccepted(t, r, id, now);
    }
  }

  lemma AcceptedIn(t: Tables, r: Request, id: Id, now: string)
    requires PoliciesOk(t) && Unused(t, id)
    ensures Mutate(t, r, id, now).Ok? <==> Acceptable(t, r, id)
  {
    WorkAccepted(t, r, id, now);
    if Work(t, r, id, now).Ok? { PublishSucceeds(t, r, id, now); }
  }

  // ------------------------------------------------------------------ publication

  lemma {:induction false} LargestBounds(ps: seq<Policy>)
    ensures forall p :: p in ps ==> p.revision <= LargestRevision(ps)
  {
    if ps != [] {
      LargestBounds(ps[..|ps| - 1]);
      assert forall p :: p in ps ==> p in ps[..|ps| - 1] || p == ps[|ps| - 1];
    }
  }

  /** From any tables: content that was published before is refused; any other gets a revision above all stored ones. */
  lemma PublishIff(t: Tables, now: string)
    ensures Publish(t, now) == Err(StorageFailure) <==> exists p :: p in t.policies && p.snapshot == Snap(t)
    ensures match Publish(t, now)
            case Ok(after) =>
              && after == t.(policies := after.policies) && |after.policies| == |t.policies| + 1
              && t.policies <= after.policies
              && (var p := after.policies[|t.policies|];
                  p.snapshot == Snap(t) && p == Policy(p.revision, Snap(t), now) && forall q :: q in t.policies ==> q.revision < p.revision)
            case Err(e) => e == StorageFailure
  {
    LargestBounds(t.policies);
    if p :| p in t.policies && p.snapshot == Snap(t) {
      var i :| 0 <= i < |t.policies| && t.policies[i] == p;
      assert t.policies[i].snapshot == Snap(t);
    }
  }

  // --------------------------------------------------------------------- refusals

  /** The row to change, or the provider of a new account or pool, is not there. */
  predicate RowMissing(t: Tables, r: Request) {
    match r
    case UpdateProvider(k, _, _, _, _, _) => k !in t.providers
    case UpdatePool(k, _, _, _, _, _, _) => k !in t.pools
    case UpdateProfile(k, _, _, _, _, _, _, _) => k !in t.profiles
    case CreateAccount(_, provider, _, _, _) => provider !in t.providers
    case CreatePool(_, provider, _, _, _, _) => provider !in t.providers
    case CreateProvider(_, _, _) => false
    case CreateProfile(_, _, _, _, _, _) => false
    case _ => r.id !in t.accounts
  }

  predicate RefMissing(t: Tables, provider: Option<Id>, pool: Option<Id>) {
    (provider.Some? && provider.value !in t.providers) || (pool.Some? && pool.value !in t.pools)
  }

  /** Something else that the request refers to is not there: the provider of the terms, or a reference of a profile. */
  predicate PartMissing(t: Tables, r: Request) {
    match r
    case AcknowledgeTerms(k, _, _) => k in t.accounts && t.accounts[k].providerId !in t.providers
    case CreateProfile(_, _, provider, pool, _, _) => RefMissing(t, provider, pool)
    case UpdateProfile(k, _, _, _, provider, pool, _, _) =>
      k in t.profiles && RefMissing(t, if provider.Some? then provider else t.profiles[k].providerId,
                                    if pool.Some? then pool else t.profiles[k].poolId)
    case _ => false
  }

  predicate NameOk(name: Option<string>) { name.Some? ==> NameGiven(name.value) }

  predicate Unsuited(t: Tables, provider: Option<Id>, pool: Option<Id>) {
    || (provider.None? && pool.None?)
    || (provider.Some? && pool.Some? && pool.value in t.pools && t.pools[pool.value].providerId != provider.value)
  }

  /** The request, or the row that would come of it, is not valid by itself. */
  predicate Improper(t: Tables, r: Request) {
    match r
    case CreateProvider(name, details, _) => !NameGiven(name) || !details.secretFree
    case UpdateProvider(k, _, name, details, _, _) =>
      k in t.providers && (!NameOk(name) || !(if details.Some? then details.value else t.providers[k].details).secretFree)
    case CreateAccount(name, _, handle, _, _) => !NameGiven(name) || !NameGiven(handle)
    case BindCredential(_, _, handle, generation, _) => !NameGiven(handle) || generation < 0
    case AcknowledgeTerms(k, _, revision) =>
      && k in t.accounts && t.accounts[k].providerId in t.providers
      && (!NameGiven(revision) || t.providers[t.accounts[k].providerId].requiredTerms !in {None, Some(Trim(revision))})
    case CreatePool(name, _, _, affinity, budget, _) =>
      !NameGiven(name) || (budget.Some? && budget.value < 0) || !affinity.secretFree
    case UpdatePool(k, _, name, _, affinity, budget, _) =>
      && k in t.pools
      && (!NameOk(name) || (if budget.Some? then budget.value else t.pools[k].retryBudget) < 0
          || !(if affinity.Some? then affinity.value else t.pools[k].affinity).secretFree)
    case CreateProfile(name, _, provider, pool, roles, policy) =>
      Unsuited(t, provider, pool) || !NameGiven(name) || !GoodRoles(roles) || !policy.secretFree
    case UpdateProfile(k, _, name, _, provider, pool, roles, policy) =>
      && k in t.profiles
      && (|| Unsuited(t, if provider.Some? then provider else t.profiles[k].providerId, if pool.Some? then pool else t.profiles[k].poolId)
          || !NameOk(name) || (roles.Some? && !GoodRoles(roles.value))
          || !(if policy.Some? then policy.value else t.profiles[k].policy).secretFree)
    case _ => false
  }

  /** The row is there, but not in the version that the caller expects. */
  predicate OtherVersion(t: Tables, r: Request) {
    match r
    case UpdateProvider(k, v, _, _, _, _) => k in t.providers && t.providers[k].stamp.version != v
    case UpdatePool(k, v, _, _, _, _, _) => k in t.pools && t.pools[k].stamp.version != v
    case UpdateProfile(k, v, _, _, _, _, _, _) => k in t.profiles && t.profiles[k].stamp.version != v
    case BindCredential(k, v, _, _, _) => k in t.accounts && t.accounts[k].stamp.version != v
    case UpdateAccount(k, v, _, _, _) => k in t.accounts && t.accounts[k].stamp.version != v
    case AcknowledgeTerms(k, v, _) => k in t.accounts && t.accounts[k].stamp.version != v
    case _ => false
  }

  /** A name would be borne twice, or a pool would have a member twice. */
  predicate Clashes(t: Tables, r: Request, id: Id) {
    match r
    case CreateProvider(name, _, _) => !FreeProviderName(t, id, Trim(name))
    case UpdateProvider(k, _, name, _, _, _) =>
      k in t.providers && !FreeProviderName(t, k, if name.Some? then Trim(name.value) else t.providers[k].name)
    case CreateAccount(name, provider, _, _, _) => exists k :: k in t.accounts && Identity(t.accounts[k]) == (provider, Trim(name))
    case CreatePool(name, _, _, _, _, ids) => !FreePoolName(t, id, Trim(name)) || (ids.Some? && !NoRepeats(ids.value))
    case UpdatePool(k, _, name, _, _, _, ids) =>
      || (k in t.pools && !FreePoolName(t, k, if name.Some? then Trim(name.value) else t.pools[k].name))
      || (ids.Some? && !NoRepeats(ids.value))
    case CreateProfile(name, _, _, _, _, _) => !FreeProfileName(t, id, Trim(name))
    case UpdateProfile(k, _, name, _, _, _, _, _) =>
      k in t.profiles && !FreeProfileName(t, k, if name.Some? then Trim(name.value) else t.profiles[k].name)
    case _ => false
  }

  /** The `n`-th account is the first that cannot be a member, and `e` says why. */
  predicate BadMember(t: Tables, provider: Id, ids: Option<seq<Id>>, n: int, e: Error) {
    && ids.Some? && 0 <= n < |ids.value|
    && (forall j :: 0 <= j < n ==> ids.value[j] in t.accounts && t.accounts[ids.value[j]].providerId == provider)
    && (if ids.value[n] !in t.accounts then e == NotFound
        else t.accounts[ids.value[n]].providerId != provider && e == Invalid)
  }

  ghost predicate MembersRefused(t: Tables, r: Request, e: Error) {
    match r
    case CreatePool(_, provider, _, _, _, ids) => exists n :: BadMember(t, provider, ids, n, e)
    case UpdatePool(k, _, _, _, _, _, ids) => k in t.pools && exists n :: BadMember(t, t.pools[k].providerId, ids, n, e)
    case _ => false
  }

  /** The refusal by the first thing that is wrong: row, version, references, the request itself, names, members. */
  ghost predicate RefusedWith(t: Tables, r: Request, id: Id, e: Error) {
    if RowMissing(t, r) then e == NotFound
    else if OtherVersion(t, r) then e == VersionConflict
    else if PartMissing(t, r) then e == NotFound
    else if Improper(t, r) then e == Invalid
    else if Clashes(t, r, id) then e == Conflict
    else MembersRefused(t, r, e)
  }

  lemma VersionRefuses(t: Tables, r: Request, id: Id)
    ensures match VersionError(t, r)
            case Some(e) => RefusedWith(t, r, id, e)
            case None => !OtherVersion(t, r)
  {
  }

  lemma {:induction false} InsertRefuses(t: Tables, pool: Id, provider: Id, ids: seq<Id>, n: nat) returns (k: int)
    requires n <= |ids| && InsertMembers(t, pool, provider, ids, n).Err?
    ensures k < n && BadMember(t, provider, Some(ids), k, InsertMembers(t, pool, provider, ids, n).error)
  {
    if InsertMembers(t, pool, provider, ids, n - 1).Err? {
      k := InsertRefuses(t, pool, provider, ids, n - 1);
    } else {
      k := n - 1;
      assert ids[..n - 1] == ids[..k];
      InsertMembersResult(t, pool, provider, ids, n - 1);
      forall j | 0 <= j < k ensures ids[j] in t.accounts && t.accounts[ids[j]].providerId == provider { assert ids[..k][j] == ids[j]; }
    }
  }

  lemma MembersRefuse(t: Tables, t': Tables, pool: Id, provider: Id, ids: seq<Id>)
    requires t'.accounts == t.accounts && ReplaceMemberships(t', pool, provider, ids).Err?
    ensures var e := ReplaceMemberships(t', pool, provider, ids).error;
            if !NoRepeats(ids) then e == Conflict else exists n :: BadMember(t, provider, Some(ids), n, e)
  {
    if NoRepeats(ids) {
      var n := InsertRefuses(t'.(memberships := Without(t'.memberships, pool)), pool, provider, ids, |ids|);
      assert BadMember(t, provider, Some(ids), n, ReplaceMemberships(t', pool, provider, ids).error);
    }
  }

  lemma NewPoolRefuses(t: Tables, r: Request, id: Id, now: string)
    requires r.CreatePool? && Work(t, r, id, now).Err?
    ensures RefusedWith(t, r, id, Work(t, r, id, now).error)
  {
    Named(r.name);
    NamesFree(t, id, Trim(r.name));
    var put := PutPool(t, id, NewPool(r, now));
    if put.Ok? && ReplaceMemberships(put.value, id, r.providerId, Or(r.accountIds, [])).Err? {
      MembersRefuse(t, put.value, id, r.providerId, Or(r.accountIds, []));
    }
  }

  lemma OldPoolRefuses(t: Tables, r: Request, id: Id, now: string)
    requires r.UpdatePool? && VersionError(t, r).None? && Work(t, r, id, now).Err?
    ensures RefusedWith(t, r, id, Work(t, r, id, now).error)
  {
    var current := t.pools[r.id];
    var row := UpdatedPool(current, r, now);
    if r.newName.Some? { Named(r.newName.value); }
    NamesFree(t, r.id, row.name);
    var put := PutPool(t, r.id, row);
    if put.Ok? && r.accountIds.Some? && ReplaceMemberships(put.value, r.id, current.providerId, r.accountIds.value).Err? {
      MembersRefuse(t, put.value, r.id, current.providerId, r.accountIds.value);
    }
  }

  lemma ProviderRefuses(t: Tables, r: Request, id: Id, now: string)
    requires (r.CreateProvider? || r.UpdateProvider?) && VersionError(t, r).None? && Work(t, r, id, now).Err?
    ensures RefusedWith(t, r, id, Work(t, r, id, now).error)
  {
    if r.CreateProvider? {
      Named(r.name);
      NamesFree(t, id, Trim(r.name));
    } else {
      if r.newName.Some? { Named(r.newName.value); }
      NamesFree(t, r.id, if r.newName.Some? then Trim(r.newName.value) else t.providers[r.id].name);
    }
  }

  lemma ProfileRefuses(t: Tables, r: Request, id: Id, now: string)
    requires (r.CreateProfile? || r.UpdateProfile?) && VersionError(t, r).None? && Work(t, r, id, now).Err?
    ensures RefusedWith(t, r, id, Work(t, r, id, now).error)
  {
    if r.CreateProfile? {
      Named(r.name);
      NamesFree(t, id, Trim(r.name));
      RolesGood(r.roles);
    } else {
      if r.newName.Some? { Named(r.newName.value); }
      NamesFree(t, r.id, if r.newName.Some? then Trim(r.newName.value) else t.profiles[r.id].name);
      if r.newRoles.Some? { RolesGood(r.newRoles.value); }
    }
  }

  lemma AccountRefuses(t: Tables, r: Request, id: Id, now: string)
    requires r.CreateAccount? || r.BindCredential? || r.UpdateAccount? || r.AcknowledgeTerms? || r.RecordOutcome?
    requires VersionError(t, r).None? && Work(t, r, id, now).Err?
    ensures RefusedWith(t, r, id, Work(t, r, id, now).error)
  {
    if r.CreateAccount? {
      Named(r.name);
      Named(r.handle);
      PseudonymFree(t, r.providerId, Trim(r.name));
    }
    if r.BindCredential? { Named(r.handle); }
    if r.AcknowledgeTerms? { Named(r.revision); }
  }

  /**
   * In every state of every run a mutation is accepted if it is acceptable,
   * and refused with the error of the first thing that is wrong otherwise.
   */
  lemma RefusedExactly(calls: seq<Call>, r: Request, id: Id, now: string)
    requires FreshIds(Initial, calls) && Unused(Execute(Initial, calls).t, id)
    ensures var t := Execute(Initial, calls).t;
            match Mutate(t, r, id, now)
            case Ok(_) => Acceptable(t, r, id)
            case Err(e) => !Acceptable(t, r, id) && RefusedWith(t, r, id, e)
  {
    var t := Execute(Initial, calls).t;
    RunKeepsInv(calls);
    AcceptedIn(t, r, id, now);
    VersionRefuses(t, r, id);
    if VersionError(t, r).None? && Mutate(t, r, id, now).Err? {
      if Work(t, r, id, now).Ok? { PublishSucceeds(t, r, id, now); }
      if r.CreateProvider? || r.UpdateProvider? {
        ProviderRefuses(t, r, id, now);
      } else if r.CreatePool? {
        NewPoolRefuses(t, r, id, now);
      } else if r.UpdatePool? {
        OldPoolRefuses(t, r, id, now);
      } else if r.CreateProfile? || r.UpdateProfile? {
        ProfileRefuses(t, r, id, now);
      } else {
        AccountRefuses(t, r, id, now);
      }
    }
  }
}

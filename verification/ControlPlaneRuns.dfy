/**
 * Whole runs of control-plane mutations, accepted and rejected: the invariant,
 * the published policy and the health counters.
 */
module ControlPlaneRuns {
  import opened Wrappers
  import opened ControlPlane
  import opened ControlPlaneInvariant

  datatype AuditEvent = AuditEvent(request: Request, accepted: bool, at: string)

  datatype Call = Call(request: Request, id: Id, now: string)

  datatype State = State(
    t: Tables,
    audit: seq<AuditEvent>,
    touched: set<Id>,                // history: accounts with a route outcome since the last policy revision
    outcomes: map<Id, seq<Outcome>>) // history: the accepted route outcomes of each account

  const Initial := State(EmptyTables, [], {}, map[])

  function Outcomes(s: State, a: Id): seq<Outcome> {
    if a in s.outcomes then s.outcomes[a] else []
  }

  function Step(s: State, c: Call): State {
    match Mutate(s.t, c.request, c.id, c.now)
    case Err(_) => s.(audit := s.audit + [AuditEvent(c.request, false, c.now)])
    case Ok(t) =>
      State(t, s.audit + [AuditEvent(c.request, true, c.now)],
            if c.request.RecordOutcome? then s.touched + {c.request.id} else {},
            if c.request.RecordOutcome? then s.outcomes[c.request.id := Outcomes(s, c.request.id) + [c.request.outcome]]
            else s.outcomes)
  }

  function Execute(s: State, calls: seq<Call>): State {
    if calls == [] then s else Step(Execute(s, calls[..|calls| - 1]), calls[|calls| - 1])
  }

  /** Random identifiers do not repeat. */
  predicate FreshIds(s: State, calls: seq<Call>) {
    if calls == [] then true
    else FreshIds(s, calls[..|calls| - 1]) && Unused(Execute(s, calls[..|calls| - 1]).t, calls[|calls| - 1].id)
  }

  // --------------------------------------------------------------- versions

  /** Rows are never removed and versions never fall. */
  predicate Grow(a: map<Id, int>, b: map<Id, int>) {
    a.Keys <= b.Keys && forall k :: k in a ==> a[k] <= b[k]
  }

  datatype Versions = Versions(providers: map<Id, int>, accounts: map<Id, int>, pools: map<Id, int>, profiles: map<Id, int>)

  function VersionsOf(s: Snapshot): Versions {
    Versions(map k | k in s.providers :: s.providers[k].stamp.version,
             map k | k in s.accounts :: s.accounts[k].stamp.version,
             map k | k in s.pools :: s.pools[k].row.stamp.version,
             map k | k in s.profiles :: s.profiles[k].stamp.version)
  }

  predicate AtLeast(a: Versions, b: Versions) {
    && Grow(a.providers, b.providers) && Grow(a.accounts, b.accounts)
    && Grow(a.pools, b.pools) && Grow(a.profiles, b.profiles)
  }

  predicate Newer(a: Versions, b: Versions) {
    AtLeast(a, b) && a != b
  }

  lemma NewerTransitive(a: Versions, b: Versions, c: Versions)
    requires AtLeast(a, b) && Newer(b, c)
    ensures Newer(a, c)
  {
  }

  function TableVersions(t: Tables): Versions {
    Versions(map k | k in t.providers :: t.providers[k].stamp.version,
             map k | k in t.accounts :: t.accounts[k].stamp.version,
             map k | k in t.pools :: t.pools[k].stamp.version,
             map k | k in t.profiles :: t.profiles[k].stamp.version)
  }

  lemma SnapVersions(t: Tables)
    ensures VersionsOf(Snap(t)) == TableVersions(t)
  {
    assert VersionsOf(Snap(t)).pools == TableVersions(t).pools;
  }

  /** A change of one row to a higher version, or the addition of one, is progress. */
  lemma RowNewer(a: Versions, b: Versions, k: Id)
    requires AtLeast(a, b)
    requires (k in b.providers && (k in a.providers ==> a.providers[k] < b.providers[k]))
          || (k in b.accounts && (k in a.accounts ==> a.accounts[k] < b.accounts[k]))
          || (k in b.pools && (k in a.pools ==> a.pools[k] < b.pools[k]))
          || (k in b.profiles && (k in a.profiles ==> a.profiles[k] < b.profiles[k]))
    ensures Newer(a, b)
  {
  }

  lemma PoolWorkRow(t: Tables, r: Request, id: Id, now: string)
    requires (r.CreatePool? || r.UpdatePool?) && Work(t, r, id, now).Ok?
    ensures r.CreatePool? ==>
              Work(t, r, id, now).value == t.(pools := t.pools[id := NewPool(r, now)],
                                              memberships := Work(t, r, id, now).value.memberships)
    ensures r.UpdatePool? ==> r.id in t.pools
    ensures r.UpdatePool? ==>
              Work(t, r, id, now).value == t.(pools := t.pools[r.id := UpdatedPool(t.pools[r.id], r, now)],
                                              memberships := Work(t, r, id, now).value.memberships)
  {
    if r.CreatePool? {
      ReplaceMembershipsResult(PutPool(t, id, NewPool(r, now)).value, id, r.providerId, Or(r.accountIds, []));
    } else if r.accountIds.Some? {
      ReplaceMembershipsResult(PutPool(t, r.id, UpdatedPool(t.pools[r.id], r, now)).value, r.id,
                               t.pools[r.id].providerId, r.accountIds.value);
    }
  }

  lemma PoolNewer(t: Tables, r: Request, id: Id, now: string)
    requires Unused(t, id) && (r.CreatePool? || r.UpdatePool?) && Work(t, r, id, now).Ok?
    ensures Newer(TableVersions(t), TableVersions(Work(t, r, id, now).value))
  {
    PoolWorkRow(t, r, id, now);
    RowNewer(TableVersions(t), TableVersions(Work(t, r, id, now).value), if r.CreatePool? then id else r.id);
  }

  lemma ProviderNewer(t: Tables, r: Request, id: Id, now: string)
    requires Unused(t, id) && (r.CreateProvider? || r.UpdateProvider?) && Work(t, r, id, now).Ok?
    ensures Newer(TableVersions(t), TableVersions(Work(t, r, id, now).value))
  {
    RowNewer(TableVersions(t), TableVersions(Work(t, r, id, now).value), if r.CreateProvider? then id else r.id);
  }

  lemma NewProfileNewer(t: Tables, r: Request, id: Id, now: string)
    requires Unused(t, id) && r.CreateProfile? && Work(t, r, id, now).Ok?
    ensures Newer(TableVersions(t), TableVersions(Work(t, r, id, now).value))
  {
    RowNewer(TableVersions(t), TableVersions(Work(t, r, id, now).value), id);
  }

  lemma OldProfileNewer(t: Tables, r: Request, id: Id, now: string)
    requires r.UpdateProfile? && Work(t, r, id, now).Ok?
    ensures Newer(TableVersions(t), TableVersions(Work(t, r, id, now).value))
  {
    RowNewer(TableVersions(t), TableVersions(Work(t, r, id, now).value), r.id);
  }

  predicate OnAccounts(r: Request) {
    r.CreateAccount? || r.BindCredential? || r.UpdateAccount? || r.AcknowledgeTerms? || r.RecordOutcome?
  }

  lemma AccountNewer(t: Tables, r: Request, id: Id, now: string)
    requires OnAccounts(r) && !r.CreateAccount? && Work(t, r, id, now).Ok?
    ensures Newer(TableVersions(t), TableVersions(Work(t, r, id, now).value))
  {
    RowNewer(TableVersions(t), TableVersions(Work(t, r, id, now).value), r.id);
  }

  lemma NewAccountNewer(t: Tables, r: Request, id: Id, now: string)
    requires Unused(t, id) && r.CreateAccount? && Work(t, r, id, now).Ok?
    ensures Newer(TableVersions(t), TableVersions(Work(t, r, id, now).value))
  {
    RowNewer(TableVersions(t), TableVersions(Work(t, r, id, now).value), id);
  }

  /** Every accepted mutation makes one row newer or adds one. */
  lemma WorkNewer(t: Tables, r: Request, id: Id, now: string)
    requires Unused(t, id) && Work(t, r, id, now).Ok?
    ensures Newer(TableVersions(t), TableVersions(Work(t, r, id, now).value))
  {
    if r.CreateProvider? || r.UpdateProvider? {
      ProviderNewer(t, r, id, now);
    } else if r.CreatePool? || r.UpdatePool? {
      PoolNewer(t, r, id, now);
    } else if r.CreateProfile? {
      NewProfileNewer(t, r, id, now);
    } else if r.UpdateProfile? {
      OldProfileNewer(t, r, id, now);
    } else if r.CreateAccount? {
      NewAccountNewer(t, r, id, now);
    } else {
      AccountNewer(t, r, id, now);
    }
  }

  // -------------------------------------------------------------- the policy

  function PolicyVersions(ps: seq<Policy>): seq<Versions> {
    seq(|ps|, i requires 0 <= i < |ps| => VersionsOf(ps[i].snapshot))
  }

  /** Each is newer than those before it, and none is newer than `now`. */
  predicate Chain(vs: seq<Versions>, now: Versions) {
    && (forall i, j :: 0 <= i < j < |vs| ==> Newer(vs[i], vs[j]))
    && (forall i :: 0 <= i < |vs| ==> AtLeast(vs[i], now))
  }

  lemma ChainExtends(vs: seq<Versions>, before: Versions, after: Versions)
    requires Chain(vs, before) && Newer(before, after)
    ensures after !in vs && Chain(vs, after) && Chain(vs + [after], after)
  {
    forall i | 0 <= i < |vs| ensures Newer(vs[i], after) {
      NewerTransitive(vs[i], before, after);
    }
  }

  /** Revisions count from 1, every revision is newer than the ones before, and none is newer than the tables. */
  predicate PoliciesOk(t: Tables) {
    && (forall i :: 0 <= i < |t.policies| ==> t.policies[i].revision == i + 1)
    && Chain(PolicyVersions(t.policies), TableVersions(t))
  }

  lemma {:induction false} LargestIsLast(ps: seq<Policy>)
    requires forall i :: 0 <= i < |ps| ==> ps[i].revision == i + 1
    ensures LargestRevision(ps) == |ps|
  {
    if ps != [] {
      LargestIsLast(ps[..|ps| - 1]);
    }
  }

  lemma WorkKeepsPolicies(t: Tables, r: Request, id: Id, now: string)
    requires Work(t, r, id, now).Ok?
    ensures Work(t, r, id, now).value.policies == t.policies
  {
    if r.CreatePool? || r.UpdatePool? {
      PoolWorkRow(t, r, id, now);
    }
  }

  lemma NotPublishedYet(ps: seq<Policy>, before: Versions, t: Tables)
    requires Chain(PolicyVersions(ps), before) && Newer(before, TableVersions(t))
    ensures forall i :: 0 <= i < |ps| ==> ps[i].snapshot != Snap(t)
    ensures Chain(PolicyVersions(ps), TableVersions(t)) && Chain(PolicyVersions(ps) + [TableVersions(t)], TableVersions(t))
  {
    var vs := PolicyVersions(ps);
    ChainExtends(vs, before, TableVersions(t));
    SnapVersions(t);
    forall i | 0 <= i < |ps| ensures ps[i].snapshot != Snap(t) {
      assert vs[i] in vs;
    }
  }

  lemma NewTablesPublish(t: Tables, t1: Tables, now: string)
    requires PoliciesOk(t) && t1.policies == t.policies && Newer(TableVersions(t), TableVersions(t1))
    ensures Publish(t1, now) == Ok(t1.(policies := t.policies + [Policy(|t.policies| + 1, Snap(t1), now)]))
    ensures PoliciesOk(Publish(t1, now).value) && PoliciesOk(t1)
  {
    NotPublishedYet(t.policies, TableVersions(t), t1);
    LargestIsLast(t.policies);
    SnapVersions(t1);
    var ps := t.policies + [Policy(|t.policies| + 1, Snap(t1), now)];
    assert PolicyVersions(ps) == PolicyVersions(t.policies) + [TableVersions(t1)];
    assert TableVersions(t1.(policies := ps)) == TableVersions(t1);
  }

  /**
   * The unique content hash never gets in the way: after an accepted change
   * the tables differ from every revision published before, so publishing
   * succeeds, with the next number and the tables as they are.
   */
  lemma PublishSucceeds(t: Tables, r: Request, id: Id, now: string)
    requires PoliciesOk(t) && Unused(t, id) && Work(t, r, id, now).Ok?
    ensures var t1 := Work(t, r, id, now).value;
            && Publish(t1, now) == Ok(t1.(policies := t.policies + [Policy(|t.policies| + 1, Snap(t1), now)]))
            && PoliciesOk(Publish(t1, now).value)
            && PoliciesOk(t1)
  {
    WorkKeepsPolicies(t, r, id, now);
    WorkNewer(t, r, id, now);
    NewTablesPublish(t, Work(t, r, id, now).value, now);
  }

  /** Two accounts that differ only in what a route outcome may change. */
  predicate SameButRoute(x: Account, y: Account) {
    x.(quotaClass := y.quotaClass, cooldownUntil := y.cooldownUntil,
       stamp := x.stamp.(version := y.stamp.version, updatedAt := y.stamp.updatedAt)) == y
  }

  /** The snapshot is the tables, up to the route fields of the touched accounts. */
  predicate Tracks(published: Snapshot, current: Snapshot, touched: set<Id>) {
    && published.providers == current.providers && published.pools == current.pools
    && published.profiles == current.profiles
    && published.accounts.Keys == current.accounts.Keys
    && forall a :: a in current.accounts ==>
         if a in touched then SameButRoute(published.accounts[a], current.accounts[a])
         else published.accounts[a] == current.accounts[a]
  }

  predicate Tracking(s: State) {
    if s.t.policies == [] then Snap(s.t) == Snap(EmptyTables)
    else Tracks(s.t.policies[|s.t.policies| - 1].snapshot, Snap(s.t), s.touched)
  }

  // ------------------------------------------------------------- the counters

  /** The length of the run of outcomes other than success at the end. */
  function TrailingFailures(os: seq<Outcome>): nat {
    if os == [] || os[|os| - 1] == Success then 0 else 1 + TrailingFailures(os[..|os| - 1])
  }

  predicate CounterOk(h: Health, os: seq<Outcome>) {
    && h.failures == TrailingFailures(os)
    && h.lastOutcome == if os == [] then None else Some(os[|os| - 1])
  }

  predicate CountersOk(s: State) {
    && s.outcomes.Keys <= s.t.accounts.Keys
    && s.t.health.Keys == s.t.accounts.Keys
    && forall a :: a in s.t.health ==> CounterOk(s.t.health[a], Outcomes(s, a))
  }

  /** What a mutation does to the health rows. */
  predicate HealthEffect(t: Tables, t1: Tables, r: Request, id: Id) {
    if r.CreateAccount? then
      t1.health == t.health[id := Health(None, None, 0, None)] && t1.accounts.Keys == t.accounts.Keys + {id}
    else if r.RecordOutcome? then
      && t1.accounts.Keys == t.accounts.Keys && r.id in t.accounts && r.id in t1.health
      && t1.health == t.health[r.id := t1.health[r.id]]
      && t1.health[r.id].lastOutcome == Some(r.outcome)
      && t1.health[r.id].failures ==
         (if r.outcome == Success then 0 else if r.id in t.health then t.health[r.id].failures + 1 else 1)
    else t1.health == t.health && t1.accounts.Keys == t.accounts.Keys
  }

  lemma WorkHealth(t: Tables, r: Request, id: Id, now: string)
    requires Work(t, r, id, now).Ok?
    ensures HealthEffect(t, Work(t, r, id, now).value, r, id)
  {
    if r.CreatePool? || r.UpdatePool? {
      PoolWorkRow(t, r, id, now);
    }
  }

  lemma MutateOk(t: Tables, r: Request, id: Id, now: string)
    requires Mutate(t, r, id, now).Ok?
    ensures Work(t, r, id, now).Ok?
    ensures Mutate(t, r, id, now).value.(policies := t.policies) == Work(t, r, id, now).value
  {
    WorkKeepsPolicies(t, r, id, now);
  }

  lemma StepKeepsCounters(s: State, c: Call)
    requires CountersOk(s) && Unused(s.t, c.id)
    ensures CountersOk(Step(s, c))
  {
    var r := c.request;
    if Mutate(s.t, r, c.id, c.now).Ok? {
      MutateOk(s.t, r, c.id, c.now);
      WorkHealth(s.t, r, c.id, c.now);
      if r.RecordOutcome? {
        OutcomeCounted(s, Step(s, c), r, c.id);
      } else {
        NothingCounted(s, Step(s, c), r, c.id);
      }
    }
  }

  lemma NothingCounted(s: State, s': State, r: Request, id: Id)
    requires CountersOk(s) && id !in s.t.accounts && HealthEffect(s.t, s'.t, r, id)
    requires !r.RecordOutcome? && s'.outcomes == s.outcomes
    ensures CountersOk(s')
  {
    forall a | a in s'.t.health ensures CounterOk(s'.t.health[a], Outcomes(s', a)) {
      assert Outcomes(s', a) == Outcomes(s, a);
    }
  }

  lemma OutcomeCounted(s: State, s': State, r: Request, id: Id)
    requires CountersOk(s) && HealthEffect(s.t, s'.t, r, id)
    requires r.RecordOutcome? && s'.outcomes == s.outcomes[r.id := Outcomes(s, r.id) + [r.outcome]]
    ensures CountersOk(s')
  {
    var os := Outcomes(s, r.id) + [r.outcome];
    assert os[..|os| - 1] == Outcomes(s, r.id);
    assert CounterOk(s.t.health[r.id], Outcomes(s, r.id));
    forall a | a in s'.t.health ensures CounterOk(s'.t.health[a], Outcomes(s', a)) {
      if a != r.id {
        assert Outcomes(s', a) == Outcomes(s, a);
      }
    }
  }

  lemma PublishedTracks(t: Tables, t1: Tables, now: string, s': State)
    requires Publish(t1, now).Ok? && s'.t == Publish(t1, now).value && s'.touched == {}
    ensures Tracking(s')
  {
    assert Snap(s'.t) == Snap(t1);
  }

  lemma StepKeepsTracking(s: State, c: Call)
    requires Tracking(s) && PoliciesOk(s.t) && Unused(s.t, c.id)
    ensures Tracking(Step(s, c)) && PoliciesOk(Step(s, c).t)
  {
    var r := c.request;
    if Mutate(s.t, r, c.id, c.now).Ok? {
      PublishSucceeds(s.t, r, c.id, c.now);
      if r.RecordOutcome? {
        OutcomeTracks(s, c);
      } else {
        PublishedTracks(s.t, Work(s.t, r, c.id, c.now).value, c.now, Step(s, c));
      }
    }
  }

  lemma OutcomeTracks(s: State, c: Call)
    requires Tracking(s) && c.request.RecordOutcome? && Mutate(s.t, c.request, c.id, c.now).Ok?
    ensures Tracking(Step(s, c))
  {
    var t := Mutate(s.t, c.request, c.id, c.now).value;
    assert Snap(t).pools == Snap(s.t).pools;
    assert Snap(t).accounts == s.t.accounts[c.request.id := t.accounts[c.request.id]];
    assert s.t.policies == [] ==> s.t.accounts == Snap(s.t).accounts;
  }

  // ------------------------------------------------------------ main results

  ghost predicate Inv(s: State) {
    Rel(s.t) && PoliciesOk(s.t) && Tracking(s) && CountersOk(s)
  }

  /**
   * Over every run from the empty tables, accepted and rejected calls alike:
   * the relational invariant holds, revisions are consecutive and strictly
   * newer, the last one is the tables up to later route outcomes, and every
   * failure counter is the length of the trailing run of failures.
   */
  lemma {:induction false} RunKeepsInv(calls: seq<Call>)
    requires FreshIds(Initial, calls)
    ensures Inv(Execute(Initial, calls))
  {
    if calls == [] {
      assert Snap(EmptyTables) == Snap(Initial.t);
    } else {
      var n := |calls| - 1;
      RunKeepsInv(calls[..n]);
      var s := Execute(Initial, calls[..n]);
      if Mutate(s.t, calls[n].request, calls[n].id, calls[n].now).Ok? {
        MutateKeepsRel(s.t, calls[n].request, calls[n].id, calls[n].now);
      }
      StepKeepsTracking(s, calls[n]);
      StepKeepsCounters(s, calls[n]);
    }
  }

  /** A mutation never fails for the reason that the policy could not be stored. */
  lemma NeverStorageFailure(calls: seq<Call>)
    requires FreshIds(Initial, calls) && calls != []
    ensures var last := calls[|calls| - 1];
            Mutate(Execute(Initial, calls[..|calls| - 1]).t, last.request, last.id, last.now) != Err(StorageFailure)
  {
    var n := |calls| - 1;
    RunKeepsInv(calls[..n]);
    MutateErrors(Execute(Initial, calls[..n]).t, calls[n]);
  }

  lemma MutateErrors(t: Tables, c: Call)
    requires PoliciesOk(t) && Unused(t, c.id)
    ensures Mutate(t, c.request, c.id, c.now) != Err(StorageFailure)
  {
    if Work(t, c.request, c.id, c.now).Ok? {
      PublishSucceeds(t, c.request, c.id, c.now);
    } else {
      WorkErrors(t, c.request, c.id, c.now);
    }
  }

  lemma WorkErrors(t: Tables, r: Request, id: Id, now: string)
    ensures Work(t, r, id, now) != Err(StorageFailure)
  {
    if (r.CreatePool? || r.UpdatePool?) && Work(t, r, id, now).Err? {
      var put := if r.CreatePool? then PutPool(t, id, NewPool(r, now))
                 else if r.id in t.pools then PutPool(t, r.id, UpdatedPool(t.pools[r.id], r, now)) else Err(NotFound);
      if put.Ok? {
        var pool := if r.CreatePool? then id else r.id;
        var ids := Or(r.accountIds, []);
        InsertErrors(put.value.(memberships := Without(put.value.memberships, pool)), pool,
                     if r.CreatePool? then r.providerId else t.pools[r.id].providerId, ids, |ids|);
      }
    }
  }

  lemma {:induction false} InsertErrors(t: Tables, pool: Id, provider: Id, ids: seq<Id>, n: nat)
    requires n <= |ids|
    ensures InsertMembers(t, pool, provider, ids, n) != Err(StorageFailure)
  {
    if n > 0 {
      InsertErrors(t, pool, provider, ids, n - 1);
    }
  }
}

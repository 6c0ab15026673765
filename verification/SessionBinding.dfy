/**
 * The frozen binding of a launch session and the lookups that read it
 * (src/profiles/resolve-route.ts, src/profiles/activate.ts, and the freezing
 * in src/runtime/gateway-server.ts).
 */
module SessionBinding {
  import opened Wrappers
  import C = ControlPlane
  import I = ControlPlaneInvariant
  import R = ControlPlaneRuns

  datatype Harness = Claude | Codex

  datatype Profile = Profile(
    id: string, name: string, harness: Harness, poolId: Option<string>, modelRoles: map<string, string>,
    capabilityPolicy: string, launchPolicy: string, version: int)

  datatype Pool = Pool(
    id: string, name: string, providerId: string, strategy: string, affinity: string, retryBudget: int,
    members: seq<string>, version: int)

  datatype Provider = Provider(
    id: string, name: string, integrationMode: string, endpointPolicy: Option<string>, enabled: bool,
    details: string, version: int)

  datatype Policy = Policy(revision: nat, profiles: seq<Profile>, pools: seq<Pool>, providers: seq<Provider>)

  /** What a session keeps of its profile, pool and provider. */
  datatype Binding = Binding(profile: Profile, pool: Pool, provider: Provider)

  datatype Session = Session(profileId: string, profileName: string, binding: Binding)

  datatype Error = ProfileNotFound | ProfileNotClaude | ProfileHasNoPool | InvalidLaunchPolicy | Unresolved | CapabilityRejected

  /**
   * The parts of resolution that are not lookups: whether a launch policy
   * parses, which role and model the request comes to for a profile and the
   * name of a provider, and whether the profile admits the model.
   */
  datatype Host = Host(
    launchable: string -> bool,
    pick: (Profile, string) -> Option<(string, string)>,
    capable: (Profile, string) -> bool)

  datatype Route = Route(profile: Profile, pool: Pool, provider: Provider, role: string, model: string)

  // ------------------------------------------------------------------ lookups

  function FindByName(ps: seq<Profile>, name: string): Option<Profile> {
    if ps == [] then None else if ps[0].name == name then Some(ps[0]) else FindByName(ps[1..], name)
  }

  function FindById(ps: seq<Profile>, id: string): Option<Profile> {
    if ps == [] then None else if ps[0].id == id then Some(ps[0]) else FindById(ps[1..], id)
  }

  function FindPool(ps: seq<Pool>, id: string): Option<Pool> {
    if ps == [] then None else if ps[0].id == id then Some(ps[0]) else FindPool(ps[1..], id)
  }

  function FindProvider(ps: seq<Provider>, id: string): Option<Provider> {
    if ps == [] then None else if ps[0].id == id then Some(ps[0]) else FindProvider(ps[1..], id)
  }

  function Inspect(ps: seq<Profile>, name: string, host: Host): Result<Profile, Error> {
    var found := FindByName(ps, name);
    if found.None? then Err(ProfileNotFound)
    else if found.value.harness != Claude then Err(ProfileNotClaude)
    else if found.value.poolId.None? then Err(ProfileHasNoPool)
    else if !host.launchable(found.value.launchPolicy) then Err(InvalidLaunchPolicy)
    else Ok(found.value)
  }

  function NameFor(ps: seq<Profile>, session: Session): string {
    var found := FindById(ps, session.profileId);
    if found.Some? then found.value.name else session.profileName
  }

  /** Looks the profile up by name once more, then checks its id. */
  function Activate(ps: seq<Profile>, session: Session, model: string, host: Host): Result<Profile, Error> {
    var inspected := Inspect(ps, NameFor(ps, session), host);
    if inspected.Err? then Err(inspected.error)
    else if inspected.value.id != session.profileId then Err(ProfileNotFound)
    else if !host.capable(inspected.value, model) then Err(CapabilityRejected)
    else inspected
  }

  // ------------------------------------------------------------- the binding

  /** `sessionPolicySnapshot`: what is kept at issue time; blanks where nothing is found. */
  function Freeze(policy: Option<Policy>, profile: Profile): Binding {
    var pool := if policy.None? || profile.poolId.None? then None else FindPool(policy.value.pools, profile.poolId.value);
    var provider := if pool.None? then None else FindProvider(policy.value.providers, pool.value.providerId);
    Binding(
      profile,
      if pool.Some? then pool.value else Pool("", "", "", "fill-first", "", 0, [], 0),
      if provider.Some? then provider.value else Provider("", "", "direct", None, false, "", 0))
  }

  function Issue(policy: Option<Policy>, profile: Profile): Session {
    Session(profile.id, profile.name, Freeze(policy, profile))
  }

  function FrozenProfile(b: Binding): Profile {
    b.profile.(poolId := Some(b.pool.id), version := 0)
  }

  function FrozenPool(b: Binding): Pool { b.pool.(version := 0) }

  function FrozenProvider(b: Binding): Provider { b.provider.(details := "", version := 0) }

  function OtherProfiles(ps: seq<Profile>, id: string): seq<Profile> {
    if ps == [] then []
    else if ps[0].id != id then [ps[0]] + OtherProfiles(ps[1..], id)
    else OtherProfiles(ps[1..], id)
  }

  function OtherPools(ps: seq<Pool>, id: string): seq<Pool> {
    if ps == [] then []
    else if ps[0].id != id then [ps[0]] + OtherPools(ps[1..], id)
    else OtherPools(ps[1..], id)
  }

  function OtherProviders(ps: seq<Provider>, id: string): seq<Provider> {
    if ps == [] then []
    else if ps[0].id != id then [ps[0]] + OtherProviders(ps[1..], id)
    else OtherProviders(ps[1..], id)
  }

  /** The live policy with the frozen records in place of those that have their ids. */
  function ApplyBinding(policy: Policy, b: Binding): Policy {
    policy.(
      profiles := OtherProfiles(policy.profiles, b.profile.id) + [FrozenProfile(b)],
      pools := OtherPools(policy.pools, b.pool.id) + [FrozenPool(b)],
      providers := OtherProviders(policy.providers, b.provider.id) + [FrozenProvider(b)])
  }

  // --------------------------------------------------------------- resolution

  function Resolve(policy: Option<Policy>, session: Session, host: Host): Result<Route, Error> {
    if policy.None? then Err(ProfileNotFound)
    else
      var p := ApplyBinding(policy.value, session.binding);
      var inspected := Inspect(p.profiles, NameFor(p.profiles, session), host);
      if inspected.Err? then Err(inspected.error)
      else
        var pool := FindPool(p.pools, inspected.value.poolId.value);
        if pool.None? then Err(ProfileHasNoPool)
        else
          var provider := FindProvider(p.providers, pool.value.providerId);
          if provider.None? then Err(ProfileHasNoPool)
          else
            var picked := host.pick(inspected.value, provider.value.name);
            if picked.None? then Err(Unresolved)
            else
              var activated := Activate(p.profiles, session, picked.value.1, host);
              if activated.Err? then Err(activated.error)
              else Ok(Route(activated.value, pool.value, provider.value, picked.value.0, picked.value.1))
  }

  // ------------------------------------------------------------ lookup lemmas

  lemma {:induction false} ByIdFrozen(ps: seq<Profile>, frozen: Profile)
    ensures FindById(OtherProfiles(ps, frozen.id) + [frozen], frozen.id) == Some(frozen)
  {
    var rest := OtherProfiles(ps, frozen.id);
    if ps != [] {
      ByIdFrozen(ps[1..], frozen);
      if ps[0].id != frozen.id {
        assert (rest + [frozen])[1..] == OtherProfiles(ps[1..], frozen.id) + [frozen];
      }
    }
  }

  lemma {:induction false} PoolFrozen(ps: seq<Pool>, frozen: Pool)
    ensures FindPool(OtherPools(ps, frozen.id) + [frozen], frozen.id) == Some(frozen)
  {
    var rest := OtherPools(ps, frozen.id);
    if ps != [] {
      PoolFrozen(ps[1..], frozen);
      if ps[0].id != frozen.id {
        assert (rest + [frozen])[1..] == OtherPools(ps[1..], frozen.id) + [frozen];
      }
    }
  }

  lemma {:induction false} ProviderFrozen(ps: seq<Provider>, frozen: Provider)
    ensures FindProvider(OtherProviders(ps, frozen.id) + [frozen], frozen.id) == Some(frozen)
  {
    var rest := OtherProviders(ps, frozen.id);
    if ps != [] {
      ProviderFrozen(ps[1..], frozen);
      if ps[0].id != frozen.id {
        assert (rest + [frozen])[1..] == OtherProviders(ps[1..], frozen.id) + [frozen];
      }
    }
  }

  /** Another live profile has this name. */
  predicate NameTaken(ps: seq<Profile>, id: string, name: string) {
    exists i :: 0 <= i < |ps| && ps[i].id != id && ps[i].name == name
  }

  /** The frozen record comes last, so a live profile of the same name is found before it. */
  lemma {:induction false} ByNameFrozen(ps: seq<Profile>, frozen: Profile)
    ensures var found := FindByName(OtherProfiles(ps, frozen.id) + [frozen], frozen.name);
            found.Some? && if NameTaken(ps, frozen.id, frozen.name) then found.value.id != frozen.id else found.value == frozen
  {
    if ps != [] {
      ByNameFrozen(ps[1..], frozen);
      var rest := OtherProfiles(ps[1..], frozen.id);
      if ps[0].id != frozen.id {
        assert OtherProfiles(ps, frozen.id) + [frozen] == [ps[0]] + (rest + [frozen]);
      }
      assert NameTaken(ps, frozen.id, frozen.name) <==>
             (ps[0].id != frozen.id && ps[0].name == frozen.name) || NameTaken(ps[1..], frozen.id, frozen.name) by {
        if NameTaken(ps[1..], frozen.id, frozen.name) {
          var i :| 0 <= i < |ps[1..]| && ps[1..][i].id != frozen.id && ps[1..][i].name == frozen.name;
          assert ps[i + 1].id != frozen.id;
        }
        if NameTaken(ps, frozen.id, frozen.name) {
          var i :| 0 <= i < |ps| && ps[i].id != frozen.id && ps[i].name == frozen.name;
          assert i > 0 ==> ps[1..][i - 1] == ps[i];
        }
      }
    }
  }

  // -------------------------------------------------------------- main results

  /** The session is bound to its own profile, and the kept pool to the kept provider. */
  predicate WellFormed(s: Session) {
    s.binding.profile.id == s.profileId && s.binding.pool.providerId == s.binding.provider.id
  }

  /** What the session was frozen to can be served at all. */
  predicate Servable(s: Session, host: Host) {
    var profile, provider := FrozenProfile(s.binding), FrozenProvider(s.binding);
    && profile.harness == Claude && host.launchable(profile.launchPolicy)
    && host.pick(profile, provider.name).Some?
    && host.capable(profile, host.pick(profile, provider.name).value.1)
  }

  function FrozenRoute(s: Session, host: Host): Route
    requires Servable(s, host)
  {
    var profile, provider := FrozenProfile(s.binding), FrozenProvider(s.binding);
    var picked := host.pick(profile, provider.name).value;
    Route(profile, FrozenPool(s.binding), provider, picked.0, picked.1)
  }

  /**
   * Whatever the live policy has become, a session is served exactly its frozen
   * profile, pool and provider; and it is served if and only if what it was
   * frozen to can be served and no other live profile has taken its name.
   */
  lemma ServesFrozenIff(policy: Option<Policy>, s: Session, host: Host)
    requires WellFormed(s)
    ensures Resolve(policy, s, host).Ok? <==>
            policy.Some? && Servable(s, host) && !NameTaken(policy.value.profiles, s.profileId, s.binding.profile.name)
    ensures Resolve(policy, s, host).Ok? ==> Resolve(policy, s, host).value == FrozenRoute(s, host)
  {
    if policy.Some? {
      var b := s.binding;
      ByIdFrozen(policy.value.profiles, FrozenProfile(b));
      ByNameFrozen(policy.value.profiles, FrozenProfile(b));
      PoolFrozen(policy.value.pools, FrozenPool(b));
      ProviderFrozen(policy.value.providers, FrozenProvider(b));
    }
  }

  /** Two live policies that leave the name alone give the same answer, errors included. */
  lemma NonInterference(p: Policy, q: Policy, s: Session, host: Host)
    requires WellFormed(s)
    requires !NameTaken(p.profiles, s.profileId, s.binding.profile.name)
    requires !NameTaken(q.profiles, s.profileId, s.binding.profile.name)
    ensures Resolve(Some(p), s, host) == Resolve(Some(q), s, host)
  {
    var b := s.binding;
    ByIdFrozen(p.profiles, FrozenProfile(b));
    ByIdFrozen(q.profiles, FrozenProfile(b));
    ByNameFrozen(p.profiles, FrozenProfile(b));
    ByNameFrozen(q.profiles, FrozenProfile(b));
    PoolFrozen(p.pools, FrozenPool(b));
    PoolFrozen(q.pools, FrozenPool(b));
    ProviderFrozen(p.providers, FrozenProvider(b));
    ProviderFrozen(q.providers, FrozenProvider(b));
  }

  lemma {:induction false} OthersAre(profiles: seq<Profile>, pools: seq<Pool>, providers: seq<Provider>, id: string)
    ensures forall x :: x in OtherProfiles(profiles, id) <==> x in profiles && x.id != id
    ensures forall x :: x in OtherPools(pools, id) <==> x in pools && x.id != id
    ensures forall x :: x in OtherProviders(providers, id) <==> x in providers && x.id != id
    decreases |profiles| + |pools| + |providers|
  {
    if profiles != [] {
      OthersAre(profiles[1..], pools, providers, id);
      assert forall x :: x in profiles <==> x == profiles[0] || x in profiles[1..];
    }
    if pools != [] {
      OthersAre(profiles, pools[1..], providers, id);
      assert forall x :: x in pools <==> x == pools[0] || x in pools[1..];
    }
    if providers != [] {
      OthersAre(profiles, pools, providers[1..], id);
      assert forall x :: x in providers <==> x == providers[0] || x in providers[1..];
    }
  }

  /** What a session sees is the live policy with its own three records, and no others, in place of those with their ids. */
  lemma OverlayIs(policy: Policy, b: Binding)
    ensures var p := ApplyBinding(policy, b);
            && p.revision == policy.revision
            && (forall x :: x in p.profiles <==> (x in policy.profiles && x.id != b.profile.id)
                                                  || x == b.profile.(poolId := Some(b.pool.id), version := 0))
            && (forall x :: x in p.pools <==> (x in policy.pools && x.id != b.pool.id) || x == b.pool.(version := 0))
            && (forall x :: x in p.providers <==> (x in policy.providers && x.id != b.provider.id)
                                                  || x == b.provider.(details := "", version := 0))
  {
    OthersAre(policy.profiles, [], [], b.profile.id);
    OthersAre([], policy.pools, [], b.pool.id);
    OthersAre([], [], policy.providers, b.provider.id);
  }

  function Rename(ps: seq<Profile>, id: string, name: string): seq<Profile> {
    seq(|ps|, i requires 0 <= i < |ps| => if ps[i].id == id then ps[i].(name := name) else ps[i])
  }

  /**
   * Renaming a profile is harmless to its sessions; giving the old name to a
   * new profile stops every one of them, though the frozen target is unchanged.
   */
  lemma ReusedNameStops(p: Policy, s: Session, host: Host, name: string, reused: Profile)
    requires WellFormed(s) && Resolve(Some(p), s, host).Ok?
    requires reused.id != s.profileId && reused.name == s.binding.profile.name
    ensures var renamed := Rename(p.profiles, s.profileId, name);
            && Resolve(Some(p.(profiles := renamed)), s, host) == Resolve(Some(p), s, host)
            && Resolve(Some(p.(profiles := renamed + [reused])), s, host).Err?
  {
    var renamed := Rename(p.profiles, s.profileId, name);
    ServesFrozenIff(Some(p), s, host);
    assert forall i :: 0 <= i < |renamed| && renamed[i].id != s.profileId ==> renamed[i] == p.profiles[i];
    ServesFrozenIff(Some(p.(profiles := renamed)), s, host);
    assert (renamed + [reused])[|renamed|] == reused;
    ServesFrozenIff(Some(p.(profiles := renamed + [reused])), s, host);
  }

  /** A session issued from a policy is well formed unless its pool is there without the provider of the pool. */
  lemma IssuedWellFormedIff(policy: Option<Policy>, profile: Profile)
    ensures WellFormed(Issue(policy, profile)) <==>
            (policy.Some? && profile.poolId.Some? && FindPool(policy.value.pools, profile.poolId.value).Some?
             ==> FindProvider(policy.value.providers, FindPool(policy.value.pools, profile.poolId.value).value.providerId).Some?
                 || FindPool(policy.value.pools, profile.poolId.value).value.providerId == "")
  {
    if policy.Some? && profile.poolId.Some? && FindPool(policy.value.pools, profile.poolId.value).Some? {
      ProviderId(policy.value.providers, FindPool(policy.value.pools, profile.poolId.value).value.providerId);
    }
  }

  lemma {:induction false} ProviderId(ps: seq<Provider>, id: string)
    ensures FindProvider(ps, id).Some? ==> FindProvider(ps, id).value.id == id
  {
    if ps != [] { ProviderId(ps[1..], id); }
  }

  /** From issue to the end of the session, through every edit of the control plane. */
  lemma SessionKeepsItsTarget(issued: Policy, profile: Profile, pool: Pool, provider: Provider, later: Option<Policy>, host: Host)
    requires profile.poolId.Some? && FindPool(issued.pools, profile.poolId.value) == Some(pool)
    requires FindProvider(issued.providers, pool.providerId) == Some(provider)
    ensures var r := Resolve(later, Issue(Some(issued), profile), host);
            r.Ok? ==>
              && r.value.profile.id == profile.id && r.value.profile.modelRoles == profile.modelRoles
              && r.value.profile.capabilityPolicy == profile.capabilityPolicy
              && r.value.pool == pool.(version := 0) && r.value.provider == provider.(details := "", version := 0)
              && Some((r.value.role, r.value.model)) == host.pick(r.value.profile, provider.name)
  {
    ProviderId(issued.providers, pool.providerId);
    ServesFrozenIff(later, Issue(Some(issued), profile), host);
  }

  /**
   * In terms of what was issued alone: while no other profile has the name, a
   * session is served if and only if the issued profile can be launched and
   * the request comes to a model for it that it admits; what serves it is the
   * issued profile with its pool, the issued pool and the issued provider.
   */
  lemma ServedAsIssuedIff(issued: Policy, profile: Profile, pool: Pool, provider: Provider, later: Policy, host: Host)
    requires profile.poolId.Some? && FindPool(issued.pools, profile.poolId.value) == Some(pool)
    requires FindProvider(issued.providers, pool.providerId) == Some(provider)
    requires !NameTaken(later.profiles, profile.id, profile.name)
    ensures var frozen := profile.(poolId := Some(pool.id), version := 0);
            var picked := host.pick(frozen, provider.name);
            var r := Resolve(Some(later), Issue(Some(issued), profile), host);
            && (r.Ok? <==> profile.harness == Claude && host.launchable(profile.launchPolicy)
                           && picked.Some? && host.capable(frozen, picked.value.1))
            && (r.Ok? ==> r.value == Route(frozen, pool.(version := 0), provider.(details := "", version := 0),
                                           picked.value.0, picked.value.1))
  {
    ProviderId(issued.providers, pool.providerId);
    ServesFrozenIff(Some(later), Issue(Some(issued), profile), host);
  }

  /** Why such a session is refused, in the order of the checks. */
  lemma RefusedAsIssued(issued: Policy, profile: Profile, pool: Pool, provider: Provider, later: Policy, host: Host)
    requires profile.poolId.Some? && FindPool(issued.pools, profile.poolId.value) == Some(pool)
    requires FindProvider(issued.providers, pool.providerId) == Some(provider)
    requires !NameTaken(later.profiles, profile.id, profile.name)
    ensures var frozen := profile.(poolId := Some(pool.id), version := 0);
            match Resolve(Some(later), Issue(Some(issued), profile), host)
            case Err(e) =>
              if profile.harness != Claude then e == ProfileNotClaude
              else if !host.launchable(profile.launchPolicy) then e == InvalidLaunchPolicy
              else if host.pick(frozen, provider.name).None? then e == Unresolved
              else e == CapabilityRejected
            case Ok(_) => true
    ensures Resolve(None, Issue(Some(issued), profile), host) == Err(ProfileNotFound)
  {
    var b := Freeze(Some(issued), profile);
    ProviderId(issued.providers, pool.providerId);
    ByIdFrozen(later.profiles, FrozenProfile(b));
    ByNameFrozen(later.profiles, FrozenProfile(b));
    PoolFrozen(later.pools, FrozenPool(b));
    ProviderFrozen(later.providers, FrozenProvider(b));
  }

  /**
   * Where no pool or provider is found at issue, blanks are kept: a pool
   * without name, members or budget that is filled first, and a direct
   * provider that is not enabled.
   */
  lemma IssuedBlank(policy: Option<Policy>, profile: Profile)
    ensures var s := Issue(policy, profile);
            && s.profileId == profile.id && s.profileName == profile.name && s.binding.profile == profile
            && (policy.None? || profile.poolId.None? || (forall q :: q in policy.value.pools ==> q.id != profile.poolId.value)
                ==> s.binding.pool == Pool("", "", "", "fill-first", "", 0, [], 0)
                    && s.binding.provider == Provider("", "", "direct", None, false, "", 0))
            && (policy.Some? && (forall q :: q in policy.value.providers ==> q.id != s.binding.pool.providerId)
                ==> s.binding.provider == Provider("", "", "direct", None, false, "", 0))
  {
    if policy.Some? && profile.poolId.Some? {
      PoolListed(policy.value.pools, profile.poolId.value);
      ProviderListed(policy.value.providers, Freeze(policy, profile).pool.providerId);
    }
  }

  // ------------------------------------------- policies the control plane publishes

  function PoolOf(id: string, view: C.PoolView): Pool {
    Pool(id, view.row.name, view.row.providerId, view.row.strategy, view.row.affinity.text, view.row.retryBudget,
         C.Accounts(view.members), view.row.stamp.version)
  }

  /** The lists of the policy are the rows of the snapshot, in whatever order. */
  ghost predicate Lists(p: Policy, s: C.Snapshot) {
    && (forall q :: q in p.pools <==> q.id in s.pools && q == PoolOf(q.id, s.pools[q.id]))
    && (forall k :: k in s.providers <==> exists q :: q in p.providers && q.id == k)
    && (forall q :: q in p.profiles ==> q.id in s.profiles && q.name == s.profiles[q.id].name)
  }

  lemma {:induction false} PoolListed(ps: seq<Pool>, id: string)
    ensures FindPool(ps, id).Some? ==> FindPool(ps, id).value in ps && FindPool(ps, id).value.id == id
  {
    if ps != [] { PoolListed(ps[1..], id); }
  }

  lemma {:induction false} ProviderListed(ps: seq<Provider>, id: string)
    ensures FindProvider(ps, id).Some? <==> exists q :: q in ps && q.id == id
  {
    if ps != [] {
      ProviderListed(ps[1..], id);
      assert ps[0] in ps;
      assert forall q :: q in ps <==> q == ps[0] || q in ps[1..];
    }
  }

  /** With intact references in the tables every session issued from their snapshot is well formed. */
  lemma IssuedFromTables(t: C.Tables, p: Policy, profile: Profile)
    requires I.Rel(t) && Lists(p, C.Snap(t))
    ensures WellFormed(Issue(Some(p), profile))
  {
    IssuedWellFormedIff(Some(p), profile);
    if profile.poolId.Some? && FindPool(p.pools, profile.poolId.value).Some? {
      PoolListed(p.pools, profile.poolId.value);
      var pool := FindPool(p.pools, profile.poolId.value).value;
      assert pool == PoolOf(pool.id, C.Snap(t).pools[pool.id]);
      assert pool.providerId == t.pools[pool.id].providerId && pool.providerId in t.providers;
      ProviderListed(p.providers, pool.providerId);
    }
  }

  lemma NoOtherName(t: C.Tables, p: Policy, profile: Profile)
    requires I.Rel(t) && Lists(p, C.Snap(t)) && profile in p.profiles
    ensures !NameTaken(p.profiles, profile.id, profile.name)
  {
    forall i | 0 <= i < |p.profiles| && p.profiles[i].name == profile.name ensures p.profiles[i].id == profile.id {
      assert p.profiles[i] in p.profiles;
    }
  }

  /** The policy that the tables of a run stand for: the last one published, if the run has published one. */
  ghost predicate Current(s: R.State, p: Policy) {
    s.t.policies != [] && Lists(p, s.t.policies[|s.t.policies| - 1].snapshot)
  }

  /** The last published lists of pools, providers and profiles are those of the tables. */
  lemma PublishedIsCurrent(calls: seq<R.Call>, p: Policy)
    requires R.FreshIds(R.Initial, calls) && Current(R.Execute(R.Initial, calls), p)
    ensures var s := R.Execute(R.Initial, calls); I.Rel(s.t) && Lists(p, C.Snap(s.t))
  {
    R.RunKeepsInv(calls);
    var s := R.Execute(R.Initial, calls);
    var published := s.t.policies[|s.t.policies| - 1].snapshot;
    assert R.Tracks(published, C.Snap(s.t), s.touched);
    SameLists(p, published, s.t);
  }

  /** Route outcomes touch accounts only, which a policy's lists of pools, providers and profiles do not show. */
  lemma SameLists(p: Policy, published: C.Snapshot, t: C.Tables)
    requires Lists(p, published) && published.pools == C.Snap(t).pools
    requires published.providers == C.Snap(t).providers && published.profiles == C.Snap(t).profiles
    ensures Lists(p, C.Snap(t))
  {
  }

  /**
   * Over every run of the control plane: a session issued from the last
   * published policy is well formed, is served right away exactly if its
   * target can be served, and whatever is published later it is served that
   * target or nothing.
   */
  lemma IssuedSessionsServe(calls: seq<R.Call>, p: Policy, profile: Profile, later: Option<Policy>, host: Host)
    requires R.FreshIds(R.Initial, calls) && Current(R.Execute(R.Initial, calls), p) && profile in p.profiles
    ensures WellFormed(Issue(Some(p), profile))
    ensures Resolve(Some(p), Issue(Some(p), profile), host).Ok? <==> Servable(Issue(Some(p), profile), host)
    ensures Resolve(later, Issue(Some(p), profile), host).Ok? ==>
              && Servable(Issue(Some(p), profile), host)
              && Resolve(later, Issue(Some(p), profile), host).value == FrozenRoute(Issue(Some(p), profile), host)
  {
    var session, t := Issue(Some(p), profile), R.Execute(R.Initial, calls).t;
    PublishedIsCurrent(calls, p);
    IssuedFromTables(t, p, profile);
    NoOtherName(t, p, profile);
    ServesFrozenIff(Some(p), session, host);
    ServesFrozenIff(later, session, host);
  }
}

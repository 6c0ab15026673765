/**
 * The relational invariant of the control-plane tables and its preservation by
 * every mutation.
 */
module ControlPlaneInvariant {
  import opened Wrappers
  import opened ControlPlane

  // -------------------------------------------------------------- invariant

  predicate AccountRefs(accounts: map<Id, Account>, providers: map<Id, Provider>) {
    forall a :: a in accounts ==> accounts[a].providerId in providers
  }

  predicate PoolRefs(pools: map<Id, Pool>, providers: map<Id, Provider>) {
    forall p :: p in pools ==> pools[p].providerId in providers
  }

  /** A membership joins an existing account to an existing pool of the same provider. */
  predicate MemberOk(m: Membership, accounts: map<Id, Account>, pools: map<Id, Pool>) {
    && m.poolId in pools && m.accountId in accounts
    && accounts[m.accountId].providerId == pools[m.poolId].providerId
  }

  predicate MembersOk(ms: seq<Membership>, accounts: map<Id, Account>, pools: map<Id, Pool>) {
    forall m :: m in ms ==> MemberOk(m, accounts, pools)
  }

  /** The rows of a pool are pinned 0, 1, 2, ... and name no account twice. */
  predicate Pinned(rows: seq<Membership>) {
    && (forall i :: 0 <= i < |rows| ==> rows[i].pinOrder == i)
    && (forall i, j :: 0 <= i < j < |rows| ==> rows[i].accountId != rows[j].accountId)
  }

  ghost predicate AllPinned(ms: seq<Membership>) {
    forall p: Id :: Pinned(Rows(ms, p))
  }

  predicate ProfileOk(f: Profile, pools: map<Id, Pool>, providers: map<Id, Provider>) {
    && (f.providerId.Some? || f.poolId.Some?)
    && (f.providerId.Some? ==> f.providerId.value in providers)
    && (f.poolId.Some? ==> f.poolId.value in pools)
    && (f.providerId.Some? && f.poolId.Some? ==> pools[f.poolId.value].providerId == f.providerId.value)
  }

  predicate ProfilesOk(profiles: map<Id, Profile>, pools: map<Id, Pool>, providers: map<Id, Provider>) {
    forall k :: k in profiles ==> ProfileOk(profiles[k], pools, providers)
  }

  predicate UniqueProviders(rows: map<Id, Provider>) {
    forall j, k :: j in rows && k in rows && rows[j].name == rows[k].name ==> j == k
  }

  predicate UniquePools(rows: map<Id, Pool>) {
    forall j, k :: j in rows && k in rows && rows[j].name == rows[k].name ==> j == k
  }

  predicate UniqueProfiles(rows: map<Id, Profile>) {
    forall j, k :: j in rows && k in rows && rows[j].name == rows[k].name ==> j == k
  }

  function Identity(a: Account): (Id, string) {
    (a.providerId, a.pseudonym)
  }

  predicate UniqueAccounts(rows: map<Id, Account>) {
    forall j, k :: j in rows && k in rows && Identity(rows[j]) == Identity(rows[k]) ==> j == k
  }

  /** Every account has its health row, and the two agree on the cooldown. */
  predicate HealthOk(health: map<Id, Health>, accounts: map<Id, Account>) {
    && health.Keys == accounts.Keys
    && forall a :: a in accounts ==> health[a].cooldownUntil == accounts[a].cooldownUntil
  }

  ghost predicate Rel(t: Tables) {
    && AccountRefs(t.accounts, t.providers) && PoolRefs(t.pools, t.providers)
    && MembersOk(t.memberships, t.accounts, t.pools) && AllPinned(t.memberships)
    && ProfilesOk(t.profiles, t.pools, t.providers)
    && UniqueProviders(t.providers) && UniquePools(t.pools) && UniqueProfiles(t.profiles) && UniqueAccounts(t.accounts)
    && HealthOk(t.health, t.accounts)
  }

  // ------------------------------------------------------------ memberships

  /** The rows that `ids` gives a pool. */
  function Inserted(pool: Id, ids: seq<Id>): seq<Membership> {
    seq(|ids|, i requires 0 <= i < |ids| => Membership(pool, ids[i], i))
  }

  lemma {:induction false} WithoutRows(ms: seq<Membership>, pool: Id, other: Id)
    ensures Rows(Without(ms, pool), other) == if other == pool then [] else Rows(ms, other)
    ensures forall m :: m in Without(ms, pool) ==> m in ms && m.poolId != pool
  {
    if ms != [] {
      var n := |ms| - 1;
      WithoutRows(ms[..n], pool, other);
      if ms[n].poolId != pool {
        assert Without(ms, pool)[..|Without(ms, pool)| - 1] == Without(ms[..n], pool);
      } else {
        assert Without(ms, pool) == Without(ms[..n], pool);
      }
    }
  }

  lemma {:induction false} RowsAppend(ms: seq<Membership>, ns: seq<Membership>, pool: Id)
    ensures Rows(ms + ns, pool) == Rows(ms, pool) + Rows(ns, pool)
  {
    if ns == [] {
      assert ms + ns == ms;
    } else {
      assert (ms + ns)[..|ms + ns| - 1] == ms + ns[..|ns| - 1];
      RowsAppend(ms, ns[..|ns| - 1], pool);
    }
  }

  lemma {:induction false} InsertedRows(pool: Id, ids: seq<Id>, other: Id)
    ensures Rows(Inserted(pool, ids), other) == if other == pool then Inserted(pool, ids) else []
  {
    if ids != [] {
      var n := |ids| - 1;
      InsertedRows(pool, ids[..n], other);
      assert Inserted(pool, ids)[..n] == Inserted(pool, ids[..n]);
    }
  }

  /** Whether the accounts may all be members of a pool of `provider`. */
  predicate Eligible(t: Tables, provider: Id, ids: seq<Id>) {
    forall i :: 0 <= i < |ids| ==> ids[i] in t.accounts && t.accounts[ids[i]].providerId == provider
  }

  lemma {:induction false} InsertMembersResult(t: Tables, pool: Id, provider: Id, ids: seq<Id>, n: nat)
    requires n <= |ids|
    ensures var r := InsertMembers(t, pool, provider, ids, n);
            && (r.Ok? <==> Eligible(t, provider, ids[..n]))
            && (r.Ok? ==> r.value == t.(memberships := t.memberships + Inserted(pool, ids[..n])))
  {
    if n == 0 {
      assert t.memberships + Inserted(pool, ids[..0]) == t.memberships;
    } else {
      InsertMembersResult(t, pool, provider, ids, n - 1);
      assert ids[..n] == ids[..n - 1] + [ids[n - 1]];
      assert Inserted(pool, ids[..n]) == Inserted(pool, ids[..n - 1]) + [Membership(pool, ids[n - 1], n - 1)];
    }
  }

  /**
   * Replacing the members of a pool succeeds exactly for distinct accounts of
   * its provider; it then holds exactly those rows, and no other pool's
   * rows have changed.
   */
  lemma ReplaceMembershipsResult(t: Tables, pool: Id, provider: Id, ids: seq<Id>)
    ensures var r := ReplaceMemberships(t, pool, provider, ids);
            && (r.Ok? <==> NoRepeats(ids) && Eligible(t, provider, ids))
            && (r.Ok? ==>
                  && r.value == t.(memberships := r.value.memberships)
                  && Rows(r.value.memberships, pool) == Inserted(pool, ids)
                  && (forall p :: p != pool ==> Rows(r.value.memberships, p) == Rows(t.memberships, p))
                  && (forall m :: m in r.value.memberships ==>
                        (m in t.memberships && m.poolId != pool) || (m.poolId == pool && m.accountId in ids)))
  {
    assert ids[..|ids|] == ids;
    var base := t.(memberships := Without(t.memberships, pool));
    InsertMembersResult(base, pool, provider, ids, |ids|);
    var r := ReplaceMemberships(t, pool, provider, ids);
    if r.Ok? {
      forall p ensures Rows(r.value.memberships, p) == if p == pool then Inserted(pool, ids) else Rows(t.memberships, p) {
        WithoutRows(t.memberships, pool, p);
        RowsAppend(base.memberships, Inserted(pool, ids), p);
        InsertedRows(pool, ids, p);
      }
      WithoutRows(t.memberships, pool, pool);
    }
  }

  lemma {:induction false} SortPinned(ms: seq<Membership>)
    requires forall i, j :: 0 <= i < j < |ms| ==> ms[i].pinOrder <= ms[j].pinOrder
    ensures SortByPin(ms) == ms
  {
    if ms != [] {
      SortPinned(ms[..|ms| - 1]);
      if |ms| > 1 {
        assert ms[|ms| - 2].pinOrder <= ms[|ms| - 1].pinOrder;
      }
    }
  }

  // ------------------------------------------------------- preserving writes

  lemma PutProviderKeeps(t: Tables, id: Id, row: Provider)
    requires Rel(t) && PutProvider(t, id, row).Ok?
    ensures Rel(PutProvider(t, id, row).value)
  {
  }

  /** A new pool, or an old one that keeps its provider, leaves every reference intact. */
  lemma PoolPut(pools: map<Id, Pool>, id: Id, row: Pool, t: Tables)
    requires PoolRefs(pools, t.providers) && MembersOk(t.memberships, t.accounts, pools) && ProfilesOk(t.profiles, pools, t.providers)
    requires row.providerId in t.providers && (id in pools ==> pools[id].providerId == row.providerId)
    ensures PoolRefs(pools[id := row], t.providers) && MembersOk(t.memberships, t.accounts, pools[id := row])
    ensures ProfilesOk(t.profiles, pools[id := row], t.providers)
  {
    forall m | m in t.memberships ensures MemberOk(m, t.accounts, pools[id := row]) {
      assert MemberOk(m, t.accounts, pools);
    }
    forall k | k in t.profiles ensures ProfileOk(t.profiles[k], pools[id := row], t.providers) {
      assert ProfileOk(t.profiles[k], pools, t.providers);
    }
  }

  lemma PutPoolKeeps(t: Tables, id: Id, row: Pool)
    requires Rel(t) && PutPool(t, id, row).Ok?
    requires row.providerId in t.providers
    requires id in t.pools ==> t.pools[id].providerId == row.providerId
    ensures Rel(PutPool(t, id, row).value)
  {
    PoolPut(t.pools, id, row, t);
  }

  lemma PutProfileKeeps(t: Tables, id: Id, row: Profile)
    requires Rel(t) && PutProfile(t, id, row).Ok? && ProfileOk(row, t.pools, t.providers)
    ensures Rel(PutProfile(t, id, row).value)
  {
  }

  /** What depends on the accounts depends on their providers and pseudonyms only. */
  lemma SameIdentities(xs: map<Id, Account>, ys: map<Id, Account>, t: Tables)
    requires xs.Keys == ys.Keys && forall a :: a in xs ==> Identity(xs[a]) == Identity(ys[a])
    requires AccountRefs(xs, t.providers) && MembersOk(t.memberships, xs, t.pools) && UniqueAccounts(xs)
    ensures AccountRefs(ys, t.providers) && MembersOk(t.memberships, ys, t.pools) && UniqueAccounts(ys)
  {
    forall a | a in ys ensures ys[a].providerId in t.providers { assert a in xs; }
    forall m | m in t.memberships ensures MemberOk(m, ys, t.pools) { assert MemberOk(m, xs, t.pools); }
    forall j, k | j in ys && k in ys && Identity(ys[j]) == Identity(ys[k]) ensures j == k {
      assert Identity(xs[j]) == Identity(xs[k]);
    }
  }

  /** A rewritten account keeps its provider and its pseudonym. */
  lemma PutAccountKeeps(t: Tables, id: Id, row: Account, terms: map<(Id, Id, string), string>, health: map<Id, Health>)
    requires Rel(t) && id in t.accounts && Identity(row) == Identity(t.accounts[id])
    requires health.Keys == t.health.Keys && id in health && health[id].cooldownUntil == row.cooldownUntil
    requires forall a :: a in health && a != id ==> health[a] == t.health[a]
    ensures Rel(PutAccount(t.(terms := terms, health := health), id, row))
  {
    SameIdentities(t.accounts, t.accounts[id := row], t);
  }

  lemma CreateAccountKeeps(t: Tables, r: Request, id: Id, now: string)
    requires Rel(t) && r.CreateAccount? && id !in t.accounts && DoCreateAccount(t, r, id, now).Ok?
    ensures Rel(DoCreateAccount(t, r, id, now).value)
  {
  }

  lemma ReplaceMembershipsKeeps(t: Tables, pool: Id, ids: seq<Id>)
    requires Rel(t) && pool in t.pools && ReplaceMemberships(t, pool, t.pools[pool].providerId, ids).Ok?
    ensures Rel(ReplaceMemberships(t, pool, t.pools[pool].providerId, ids).value)
  {
    ReplaceMembershipsResult(t, pool, t.pools[pool].providerId, ids);
  }

  lemma PoolWorkKeeps(t: Tables, r: Request, id: Id, now: string)
    requires Rel(t) && (r.CreatePool? || r.UpdatePool?) && id !in t.pools
    requires Work(t, r, id, now).Ok?
    ensures Rel(Work(t, r, id, now).value)
  {
    if r.CreatePool? {
      var row := NewPool(r, now);
      PutPoolKeeps(t, id, row);
      ReplaceMembershipsKeeps(PutPool(t, id, row).value, id, Or(r.accountIds, []));
    } else {
      var row := UpdatedPool(t.pools[r.id], r, now);
      PutPoolKeeps(t, r.id, row);
      if r.accountIds.Some? {
        ReplaceMembershipsKeeps(PutPool(t, r.id, row).value, r.id, r.accountIds.value);
      }
    }
  }

  lemma AccountWorkKeeps(t: Tables, r: Request, id: Id, now: string)
    requires Rel(t) && (r.BindCredential? || r.UpdateAccount? || r.AcknowledgeTerms? || r.RecordOutcome?)
    requires Work(t, r, id, now).Ok?
    ensures Rel(Work(t, r, id, now).value)
  {
    var t' := Work(t, r, id, now).value;
    PutAccountKeeps(t, r.id, t'.accounts[r.id], t'.terms, t'.health);
    assert t' == PutAccount(t.(terms := t'.terms, health := t'.health), r.id, t'.accounts[r.id]);
  }

  lemma ProviderWorkKeeps(t: Tables, r: Request, id: Id, now: string)
    requires Rel(t) && (r.CreateProvider? || r.UpdateProvider?) && id !in t.providers
    requires Work(t, r, id, now).Ok?
    ensures Rel(Work(t, r, id, now).value)
  {
    var key := if r.CreateProvider? then id else r.id;
    PutProviderKeeps(t, key, Work(t, r, id, now).value.providers[key]);
  }

  lemma ProfileWorkKeeps(t: Tables, r: Request, id: Id, now: string)
    requires Rel(t) && (r.CreateProfile? || r.UpdateProfile?) && id !in t.profiles
    requires Work(t, r, id, now).Ok?
    ensures Rel(Work(t, r, id, now).value)
  {
    var key := if r.CreateProfile? then id else r.id;
    PutProfileKeeps(t, key, Work(t, r, id, now).value.profiles[key]);
  }

  /** The identifier of a new row is not in use. */
  predicate Unused(t: Tables, id: Id) {
    id !in t.providers && id !in t.accounts && id !in t.pools && id !in t.profiles && id !in t.health
  }

  lemma WorkKeepsRel(t: Tables, r: Request, id: Id, now: string)
    requires Rel(t) && Unused(t, id) && Work(t, r, id, now).Ok?
    ensures Rel(Work(t, r, id, now).value)
  {
    match r
    case CreateProvider(_, _, _) => ProviderWorkKeeps(t, r, id, now);
    case UpdateProvider(_, _, _, _, _, _) => ProviderWorkKeeps(t, r, id, now);
    case CreateAccount(_, _, _, _, _) => CreateAccountKeeps(t, r, id, now);
    case CreatePool(_, _, _, _, _, _) => PoolWorkKeeps(t, r, id, now);
    case UpdatePool(_, _, _, _, _, _, _) => PoolWorkKeeps(t, r, id, now);
    case CreateProfile(_, _, _, _, _, _) => ProfileWorkKeeps(t, r, id, now);
    case UpdateProfile(_, _, _, _, _, _, _, _) => ProfileWorkKeeps(t, r, id, now);
    case _ => AccountWorkKeeps(t, r, id, now);
  }

  /** Every mutation, whatever it is asked, keeps the relational invariant. */
  lemma MutateKeepsRel(t: Tables, r: Request, id: Id, now: string)
    requires Rel(t) && Unused(t, id) && Mutate(t, r, id, now).Ok?
    ensures Rel(Mutate(t, r, id, now).value)
  {
    WorkKeepsRel(t, r, id, now);
  }

  lemma ReplacedReads(t: Tables, pool: Id, provider: Id, ids: seq<Id>)
    requires ReplaceMemberships(t, pool, provider, ids).Ok?
    ensures Accounts(SortByPin(Rows(ReplaceMemberships(t, pool, provider, ids).value.memberships, pool))) == ids
  {
    ReplaceMembershipsResult(t, pool, provider, ids);
    SortPinned(Inserted(pool, ids));
    assert Accounts(Inserted(pool, ids)) == ids;
  }

  /** A pool that is given accounts reads back exactly those, in the order in which they were given. */
  lemma PoolReadsBack(t: Tables, r: Request, id: Id, now: string)
    requires Mutate(t, r, id, now).Ok?
    requires r.CreatePool? || (r.UpdatePool? && r.accountIds.Some?)
    ensures Accounts(Members(Mutate(t, r, id, now).value, if r.CreatePool? then id else r.id)) == Or(r.accountIds, [])
  {
    if r.CreatePool? {
      var row := NewPool(r, now);
      ReplacedReads(PutPool(t, id, row).value, id, r.providerId, Or(r.accountIds, []));
    } else {
      var row := UpdatedPool(t.pools[r.id], r, now);
      ReplacedReads(PutPool(t, r.id, row).value, r.id, row.providerId, r.accountIds.value);
    }
  }

  /** In every state that satisfies the invariant a pool reads as its stored rows. */
  lemma MembersAreRows(t: Tables, pool: Id)
    requires AllPinned(t.memberships)
    ensures Members(t, pool) == Rows(t.memberships, pool)
  {
    assert Pinned(Rows(t.memberships, pool));
    SortPinned(Rows(t.memberships, pool));
  }
}

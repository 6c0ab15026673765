/**
 * What a control-plane mutation leaves alone, and why two updates made against
 * the same version of a row are never both accepted.
 */
module ControlPlaneFrames {
  import opened Wrappers
  import opened ControlPlane
  import opened ControlPlaneInvariant
  import opened ControlPlaneRuns

  datatype Kind = Providers | Accounts | Pools | Profiles

  function KindOf(r: Request): Kind {
    if r.CreateProvider? || r.UpdateProvider? then Providers
    else if r.CreatePool? || r.UpdatePool? then Pools
    else if r.CreateProfile? || r.UpdateProfile? then Profiles
    else Accounts
  }

  predicate Creates(r: Request) { r.CreateProvider? || r.CreateAccount? || r.CreatePool? || r.CreateProfile? }

  /** The row a mutation is about. */
  function RowOf(r: Request, id: Id): Id { if Creates(r) then id else r.id }

  /** The version the caller expects; a route outcome expects none. */
  function Expected(r: Request): Option<int> { if Creates(r) || r.RecordOutcome? then None else Some(r.version) }

  function StampOf(t: Tables, kind: Kind, k: Id): Option<Stamp> {
    match kind
    case Providers => if k in t.providers then Some(t.providers[k].stamp) else None
    case Accounts => if k in t.accounts then Some(t.accounts[k].stamp) else None
    case Pools => if k in t.pools then Some(t.pools[k].stamp) else None
    case Profiles => if k in t.profiles then Some(t.profiles[k].stamp) else None
  }

  /** `t'` is `t` but for one row of one table and what hangs on that row. */
  ghost predicate OnlyRow(t: Tables, t': Tables, kind: Kind, k: Id) {
    match kind
    case Providers => k in t'.providers && t' == t.(providers := t.providers[k := t'.providers[k]])
    case Profiles => k in t'.profiles && t' == t.(profiles := t.profiles[k := t'.profiles[k]])
    case Pools =>
      && k in t'.pools && t' == t.(pools := t.pools[k := t'.pools[k]], memberships := t'.memberships)
      && forall p :: p != k ==> Rows(t'.memberships, p) == Rows(t.memberships, p)
    case Accounts =>
      && k in t'.accounts && t' == t.(accounts := t.accounts[k := t'.accounts[k]], health := t'.health, terms := t'.terms)
      && (forall a :: a != k ==> (a in t.health <==> a in t'.health) && (a in t.health ==> t'.health[a] == t.health[a]))
      && (forall x :: x in t.terms ==> x in t'.terms && (x.0 != k ==> t'.terms[x] == t.terms[x]))
      && (forall x :: x in t'.terms && x !in t.terms ==> x.0 == k)
  }

  lemma SmallFrame(t: Tables, r: Request, id: Id, now: string)
    requires Work(t, r, id, now).Ok? && (KindOf(r) == Providers || KindOf(r) == Profiles)
    ensures OnlyRow(t, Work(t, r, id, now).value, KindOf(r), RowOf(r, id))
    ensures StampOf(Work(t, r, id, now).value, KindOf(r), RowOf(r, id)) == NewStamp(t, r, id, now)
  {
  }

  lemma NewAccountFrame(t: Tables, r: Request, id: Id, now: string)
    requires Work(t, r, id, now).Ok? && (r.CreateAccount? || r.RecordOutcome?)
    ensures OnlyRow(t, Work(t, r, id, now).value, Accounts, RowOf(r, id))
    ensures StampOf(Work(t, r, id, now).value, Accounts, RowOf(r, id)) == NewStamp(t, r, id, now)
  {
  }

  lemma OldAccountFrame(t: Tables, r: Request, id: Id, now: string)
    requires Work(t, r, id, now).Ok? && (r.BindCredential? || r.UpdateAccount? || r.AcknowledgeTerms?)
    ensures OnlyRow(t, Work(t, r, id, now).value, Accounts, r.id)
    ensures StampOf(Work(t, r, id, now).value, Accounts, r.id) == NewStamp(t, r, id, now)
  {
  }

  lemma AccountFrame(t: Tables, r: Request, id: Id, now: string)
    requires Work(t, r, id, now).Ok? && KindOf(r) == Accounts
    ensures OnlyRow(t, Work(t, r, id, now).value, Accounts, RowOf(r, id))
    ensures StampOf(Work(t, r, id, now).value, Accounts, RowOf(r, id)) == NewStamp(t, r, id, now)
  {
    if r.CreateAccount? || r.RecordOutcome? {
      NewAccountFrame(t, r, id, now);
    } else {
      OldAccountFrame(t, r, id, now);
    }
  }

  lemma PoolFrame(t: Tables, r: Request, id: Id, now: string)
    requires Work(t, r, id, now).Ok? && KindOf(r) == Pools
    ensures OnlyRow(t, Work(t, r, id, now).value, Pools, RowOf(r, id))
    ensures StampOf(Work(t, r, id, now).value, Pools, RowOf(r, id)) == NewStamp(t, r, id, now)
  {
    PoolWorkRow(t, r, id, now);
    if r.CreatePool? {
      ReplaceMembershipsResult(PutPool(t, id, NewPool(r, now)).value, id, r.providerId, Or(r.accountIds, []));
    } else if r.accountIds.Some? {
      ReplaceMembershipsResult(PutPool(t, r.id, UpdatedPool(t.pools[r.id], r, now)).value, r.id,
                               t.pools[r.id].providerId, r.accountIds.value);
    }
  }

  /** One version further, created when it was; or version one, created now. */
  function NewStamp(t: Tables, r: Request, id: Id, now: string): Option<Stamp> {
    if Creates(r) then Some(Stamp(1, now, now))
    else
      var before := StampOf(t, KindOf(r), r.id);
      if before.None? then None else Some(Stamp(before.value.version + 1, before.value.createdAt, now))
  }

  /**
   * An accepted mutation changes its own row and what hangs on it, and besides
   * that only adds a policy revision; the row's version rises by exactly one.
   */
  lemma MutateFrame(t: Tables, r: Request, id: Id, now: string)
    requires Mutate(t, r, id, now).Ok?
    ensures var t' := Mutate(t, r, id, now).value;
            && OnlyRow(t, t'.(policies := t.policies), KindOf(r), RowOf(r, id))
            && StampOf(t', KindOf(r), RowOf(r, id)) == NewStamp(t, r, id, now)
            && t.policies <= t'.policies && |t'.policies| == |t.policies| + (if r.RecordOutcome? then 0 else 1)
  {
    MutateOk(t, r, id, now);
    WorkKeepsPolicies(t, r, id, now);
    match KindOf(r)
    case Providers => SmallFrame(t, r, id, now);
    case Profiles => SmallFrame(t, r, id, now);
    case Pools => PoolFrame(t, r, id, now);
    case Accounts => AccountFrame(t, r, id, now);
  }

  lemma FrameStamp(t: Tables, t': Tables, kind: Kind, k: Id, other: Kind, j: Id)
    requires OnlyRow(t, t'.(policies := t.policies), kind, k) && !(kind == other && k == j)
    ensures StampOf(t', other, j) == StampOf(t, other, j)
  {
  }

  /** No run takes a row away, lowers its version or changes when it was created. */
  lemma {:induction false} VersionsRise(s: State, calls: seq<Call>, kind: Kind, k: Id)
    requires FreshIds(s, calls) && StampOf(s.t, kind, k).Some?
    ensures var before, after := StampOf(s.t, kind, k), StampOf(Execute(s, calls).t, kind, k);
            after.Some? && before.value.version <= after.value.version && after.value.createdAt == before.value.createdAt
  {
    if calls != [] {
      var n := |calls| - 1;
      VersionsRise(s, calls[..n], kind, k);
      var t, c := Execute(s, calls[..n]).t, calls[n];
      if Mutate(t, c.request, c.id, c.now).Ok? {
        MutateFrame(t, c.request, c.id, c.now);
        if KindOf(c.request) != kind || RowOf(c.request, c.id) != k {
          FrameStamp(t, Mutate(t, c.request, c.id, c.now).value, KindOf(c.request), RowOf(c.request, c.id), kind, k);
        }
      }
    }
  }

  /**
   * No lost update: once an update made against version `v` of a row has been
   * accepted, no later update of that row made against `v` is, whatever
   * happened in between.
   */
  lemma NoLostUpdate(s: State, c: Call, calls: seq<Call>, d: Call)
    requires Mutate(s.t, c.request, c.id, c.now).Ok? && Expected(c.request).Some? && FreshIds(Step(s, c), calls)
    requires Expected(d.request) == Expected(c.request) && KindOf(d.request) == KindOf(c.request) && d.request.id == c.request.id
    ensures var last := Execute(Step(s, c), calls).t; Mutate(last, d.request, d.id, d.now) == Err(VersionConflict)
  {
    MutateFrame(s.t, c.request, c.id, c.now);
    ExpectedHolds(s.t, c.request, c.id, c.now);
    VersionsRise(Step(s, c), calls, KindOf(c.request), c.request.id);
    var last := Execute(Step(s, c), calls).t;
    assert StampOf(last, KindOf(d.request), d.request.id).value.version > d.request.version;
  }

  lemma ExpectedHolds(t: Tables, r: Request, id: Id, now: string)
    requires Mutate(t, r, id, now).Ok? && Expected(r).Some?
    ensures StampOf(t, KindOf(r), r.id).Some? && StampOf(t, KindOf(r), r.id).value.version == r.version
  {
  }
}

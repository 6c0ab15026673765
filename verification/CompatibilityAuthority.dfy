/**
 * Resolving evidence, reviews, quarantine and freshness into one answer
 * (src/compatibility/effective.ts, freshness.ts, review.ts, quarantine.ts).
 */
module CompatibilityAuthority {
  import opened CodeUnits
  import opened Wrappers
  import opened ClaimEvidence

  datatype Verdict = Promote | Reject

  datatype Decision = Decision(
    claimKey: Text, feature: Text, verdict: Verdict, evidenceRevision: Text, reviewer: Text, source: Text,
    reason: Text, decidedAt: Text, revision: int, build: Option<Text>)

  datatype Lift = Lift(liftedAt: Text, liftedBy: Text, reason: Text)

  datatype Quarantine = Quarantine(
    claimKey: Text, feature: Text, reason: Text, source: Text, quarantinedAt: Text, revision: int,
    build: Option<Text>, lifted: Option<Lift>)

  datatype AccessConfig = AccessConfig(adapterId: Text, authMode: Text, endpointContract: Text, sourceProtocol: Text)

  datatype Policy = Policy(
    clientBaseline: Option<Text>, protocolRevision: Option<Text>, fixtureRevision: Option<Text>,
    maxAge: Option<int>, build: Option<Text>, deprecatedModels: seq<Text>, access: map<Text, AccessConfig>)

  /** sha256 of the printed records, and `Date.parse`, with `None` for NaN. */
  datatype Host = Host(digest: seq<Evidence> -> Text, parseDate: Text -> Option<int>) {
    ghost predicate Sound() {
      forall rs, more :: digest(rs) == digest(more) ==> rs == more
    }
  }

  datatype Stale = AgeExceeded | ClientDrift | ProtocolRevisionDrift | AdapterDrift | AuthModeDrift | EndpointDrift
    | ProtocolDrift | ModelDrift | FixtureDrift | BuildDrift

  datatype Trust = Reviewed | NoTrust | Rejected | ReviewStale

  datatype TrustReason = ExplicitRejection | EvidenceUpdated | Contradicted

  datatype Health = Healthy | Degraded | HealthFailed | HealthUnknown

  datatype Freshness = Fresh | Staled(reason: Stale) | FreshnessUnknown

  datatype Label = Trusted | StaleLabel | Experimental | Untrusted | Quarantined | Missing

  datatype Enforcement = Allowed | Blocked | ExperimentalOverride | QuarantineBypass

  datatype Input = Input(
    claim: Option<Claim>, decisions: seq<Decision>, quarantines: seq<Quarantine>, policy: Policy, now: Text)

  datatype Context = Context(required: bool, experimentalOverride: bool, allowQuarantineBypass: bool)

  datatype Answer = Answer(
    effective: Label, trust: Trust, trustReason: Option<TrustReason>, health: Health, freshness: Freshness,
    quarantine: Option<Quarantine>, enforcement: Enforcement, layers: Layers, decision: Option<Decision>)

  // ------------------------------------------------------------------ reviews

  function LatestDecision(ds: seq<Decision>): Option<Decision> {
    if ds == [] then None
    else
      var n := |ds| - 1;
      var latest := LatestDecision(ds[..n]);
      if latest.None? || ds[n].revision > latest.value.revision then Some(ds[n]) else latest
  }

  function MaxDecision(ds: seq<Decision>): int {
    if ds == [] then 0
    else
      var n := |ds| - 1;
      var max := MaxDecision(ds[..n]);
      if ds[n].revision > max then ds[n].revision else max
  }

  predicate Covers(d: Decision, evidenceRevision: Text) { d.evidenceRevision == evidenceRevision }

  // --------------------------------------------------------------- quarantine

  function LatestQuarantine(qs: seq<Quarantine>): Option<Quarantine> {
    if qs == [] then None
    else
      var n := |qs| - 1;
      var latest := LatestQuarantine(qs[..n]);
      if qs[n].lifted.None? && (latest.None? || qs[n].revision > latest.value.revision) then Some(qs[n]) else latest
  }

  predicate IsQuarantined(qs: seq<Quarantine>) { LatestQuarantine(qs).Some? }

  function MaxQuarantine(qs: seq<Quarantine>): int {
    if qs == [] then 0
    else
      var n := |qs| - 1;
      var max := MaxQuarantine(qs[..n]);
      if qs[n].revision > max then qs[n].revision else max
  }

  // ---------------------------------------------------------------- freshness

  function LatestChecked(rs: seq<Evidence>): Option<Text> {
    if rs == [] then None
    else
      var n := |rs| - 1;
      var latest := LatestChecked(rs[..n]);
      if Less(if latest.Some? then latest.value else [], rs[n].checkedAt) then Some(rs[n].checkedAt) else latest
  }

  function LatestFixture(rs: seq<Evidence>): Option<Text> {
    if rs == [] then None
    else
      var n := |rs| - 1;
      var latest := LatestFixture(rs[..n]);
      if Less(if latest.Some? then latest.value else [], rs[n].fixtureRevision) then Some(rs[n].fixtureRevision) else latest
  }

  predicate TooOld(host: Host, checkedAt: Option<Text>, maxAge: Option<int>, now: Text) {
    && maxAge.Some? && checkedAt.Some?
    && var seen, today := host.parseDate(checkedAt.value), host.parseDate(now);
       seen.Some? && today.Some? && today.value - seen.value > maxAge.value
  }

  function AccessDrift(i: Identity, p: Policy): Option<Stale> {
    if i.accessProviderId !in p.access then None
    else
      var access := p.access[i.accessProviderId];
      if i.adapterId != access.adapterId then Some(AdapterDrift)
      else if i.authMode != access.authMode then Some(AuthModeDrift)
      else if i.endpointContract != access.endpointContract then Some(EndpointDrift)
      else if i.sourceProtocol != access.sourceProtocol then Some(ProtocolDrift)
      else None
  }

  /** The first reason why the claim is stale. */
  function Staleness(host: Host, c: Claim, ds: seq<Decision>, p: Policy, now: Text): Option<Stale> {
    var i, d := c.identity, LatestDecision(ds);
    if TooOld(host, LatestChecked(c.records), p.maxAge, now) then Some(AgeExceeded)
    else if p.clientBaseline.Some? && i.clientVersion != p.clientBaseline.value then Some(ClientDrift)
    else if p.protocolRevision.Some? && i.protocolRevision != p.protocolRevision.value then Some(ProtocolRevisionDrift)
    else if AccessDrift(i, p).Some? then AccessDrift(i, p)
    else if i.physicalModelId in p.deprecatedModels then Some(ModelDrift)
    else if p.fixtureRevision.Some? && LatestFixture(c.records) != p.fixtureRevision then Some(FixtureDrift)
    else if p.build.Some? && d.Some? && d.value.build.Some? && d.value.build != p.build then Some(BuildDrift)
    else None
  }

  // --------------------------------------------------------------- resolution

  function HealthOf(status: Status, hasEvidence: bool): Health {
    if !hasEvidence then HealthUnknown
    else
      match status
      case StatusPassed => Healthy
      case StatusFailed => HealthFailed
      case StatusNotRun => Degraded
      case StatusMissing => HealthUnknown
  }

  function Enforce(effective: Label, ctx: Context): Enforcement {
    if !ctx.required then Allowed
    else
      match effective
      case Trusted => Allowed
      case Quarantined => if ctx.allowQuarantineBypass then QuarantineBypass else Blocked
      case Experimental => if ctx.experimentalOverride then ExperimentalOverride else Blocked
      case StaleLabel => if ctx.experimentalOverride then ExperimentalOverride else Blocked
      case Untrusted => Blocked
      case Missing => Blocked
  }

  function LabelFor(host: Host, i: Input): Label {
    if IsQuarantined(i.quarantines) then Quarantined
    else if i.claim.None? then Missing
    else
      var c, status, decision := i.claim.value, ClaimStatusFor(i.claim.value), LatestDecision(i.decisions);
      if status == StatusFailed then Untrusted
      else if decision.Some? then
        if decision.value.verdict == Reject then Untrusted
        else if !Covers(decision.value, host.digest(c.records)) then Untrusted
        else if status != StatusPassed then Untrusted
        else if Staleness(host, c, i.decisions, i.policy, i.now).Some? then StaleLabel
        else Trusted
      else if status == StatusPassed then Experimental
      else Untrusted
  }

  function TrustOf(host: Host, i: Input): (Trust, Option<TrustReason>) {
    var status := if i.claim.None? then StatusMissing else ClaimStatusFor(i.claim.value);
    var evidence := if i.claim.None? then [] else host.digest(i.claim.value.records);
    var decision := LatestDecision(i.decisions);
    if decision.None? then (NoTrust, None)
    else if decision.value.verdict == Reject then (Rejected, Some(ExplicitRejection))
    else if !Covers(decision.value, evidence) then (ReviewStale, Some(EvidenceUpdated))
    else if status != StatusPassed then (ReviewStale, Some(Contradicted))
    else (Reviewed, None)
  }

  function FreshnessOf(host: Host, i: Input): Freshness {
    if i.claim.None? then FreshnessUnknown
    else
      var stale := Staleness(host, i.claim.value, i.decisions, i.policy, i.now);
      if stale.Some? then Staled(stale.value) else Fresh
  }

  function Resolve(host: Host, i: Input, ctx: Context): Answer {
    var status := if i.claim.None? then StatusMissing else ClaimStatusFor(i.claim.value);
    var layers := if i.claim.None? then Layers(StatusMissing, StatusMissing, StatusMissing) else LayersOf(i.claim.value.records);
    var (trust, reason) := TrustOf(host, i);
    var effective := LabelFor(host, i);
    Answer(effective, trust, reason, HealthOf(status, i.claim.Some? && i.claim.value.records != []), FreshnessOf(host, i),
           LatestQuarantine(i.quarantines), Enforce(effective, ctx), layers, LatestDecision(i.decisions))
  }

  // -------------------------------------------------------------- main results

  /**
   * The label as the summary of the four dimensions of the answer, which the
   * code computes apart from it.
   */
  function Summary(a: Answer): Label {
    if a.quarantine.Some? then Quarantined
    else if a.freshness == FreshnessUnknown then Missing
    else if a.health != Healthy then Untrusted
    else
      match a.trust
      case Reviewed => if a.freshness == Fresh then Trusted else StaleLabel
      case NoTrust => Experimental
      case Rejected => Untrusted
      case ReviewStale => Untrusted
  }

  lemma LabelSummarises(host: Host, i: Input, ctx: Context)
    ensures var a := Resolve(host, i, ctx); a.effective == Summary(a)
  {
    if i.claim.Some? {
      StatusFromLayers(i.claim.value);
    }
  }

  lemma TrustedIff(host: Host, i: Input, ctx: Context)
    ensures var a := Resolve(host, i, ctx);
            a.effective == Trusted <==> a.trust == Reviewed && a.health == Healthy && a.freshness == Fresh && a.quarantine.None?
  {
    LabelSummarises(host, i, ctx);
  }

  /** Evidence that passed and no decision that speaks against exactly these records. */
  predicate Usable(host: Host, i: Input) {
    && i.claim.Some? && ClaimStatusFor(i.claim.value) == StatusPassed
    && (LatestDecision(i.decisions).None? ||
        (LatestDecision(i.decisions).value.verdict == Promote
         && Covers(LatestDecision(i.decisions).value, host.digest(i.claim.value.records))))
  }

  /**
   * A required feature is let through exactly when it is trusted, or an active
   * quarantine is bypassed, or unquarantined usable evidence is overridden.
   */
  lemma RequiredIff(host: Host, i: Input, ctx: Context)
    requires ctx.required
    ensures Resolve(host, i, ctx).enforcement != Blocked <==>
            || LabelFor(host, i) == Trusted
            || (ctx.allowQuarantineBypass && IsQuarantined(i.quarantines))
            || (ctx.experimentalOverride && !IsQuarantined(i.quarantines) && Usable(host, i))
  {
  }

  /** The enforcement of an answer, in every context, by its own label. */
  ghost predicate Enforced(effective: Label, ctx: Context, e: Enforcement) {
    && (e == Allowed <==> !ctx.required || effective == Trusted)
    && (e == QuarantineBypass <==> ctx.required && effective == Quarantined && ctx.allowQuarantineBypass)
    && (e == ExperimentalOverride <==> ctx.required && effective in {Experimental, StaleLabel} && ctx.experimentalOverride)
  }

  lemma EnforcedIff(host: Host, i: Input, ctx: Context)
    ensures var a := Resolve(host, i, ctx); Enforced(a.effective, ctx, a.enforcement)
  {
  }

  lemma {:induction false} LatestCheckedBounds(rs: seq<Evidence>, k: nat)
    requires k < |rs|
    ensures var latest := LatestChecked(rs); !Less(if latest.Some? then latest.value else [], rs[k].checkedAt)
  {
    var n := |rs| - 1;
    var before, now := LatestChecked(rs[..n]), LatestChecked(rs);
    var old', new' := if before.Some? then before.value else [], if now.Some? then now.value else [];
    LessTotal(rs[n].checkedAt, rs[n].checkedAt);
    if k < n {
      LatestCheckedBounds(rs[..n], k);
      if Less(old', rs[n].checkedAt) && Less(new', rs[k].checkedAt) {
        LessTransitive(old', rs[n].checkedAt, rs[k].checkedAt);
      }
    }
  }

  /** The latest observation time is that of a record, if any has one. */
  lemma {:induction false} LatestCheckedIsOne(rs: seq<Evidence>)
    ensures match LatestChecked(rs)
            case Some(at) => at != [] && exists k :: 0 <= k < |rs| && rs[k].checkedAt == at
            case None => forall k :: 0 <= k < |rs| ==> rs[k].checkedAt == []
  {
    if rs != [] {
      var n := |rs| - 1;
      LatestCheckedIsOne(rs[..n]);
      if LatestChecked(rs) == LatestChecked(rs[..n]) && LatestChecked(rs).Some? {
        var k :| 0 <= k < n && rs[..n][k].checkedAt == LatestChecked(rs).value;
        assert rs[k].checkedAt == LatestChecked(rs).value;
      }
    }
  }

  lemma {:induction false} LatestFixtureBounds(rs: seq<Evidence>, k: nat)
    requires k < |rs|
    ensures var latest := LatestFixture(rs); !Less(if latest.Some? then latest.value else [], rs[k].fixtureRevision)
  {
    var n := |rs| - 1;
    var before, now := LatestFixture(rs[..n]), LatestFixture(rs);
    var old', new' := if before.Some? then before.value else [], if now.Some? then now.value else [];
    LessTotal(rs[n].fixtureRevision, rs[n].fixtureRevision);
    if k < n {
      LatestFixtureBounds(rs[..n], k);
      if Less(old', rs[n].fixtureRevision) && Less(new', rs[k].fixtureRevision) {
        LessTransitive(old', rs[n].fixtureRevision, rs[k].fixtureRevision);
      }
    }
  }

  /** The latest fixture revision is that of a record, if any has one. */
  lemma {:induction false} LatestFixtureIsOne(rs: seq<Evidence>)
    ensures match LatestFixture(rs)
            case Some(revision) => revision != [] && exists k :: 0 <= k < |rs| && rs[k].fixtureRevision == revision
            case None => forall k :: 0 <= k < |rs| ==> rs[k].fixtureRevision == []
  {
    if rs != [] {
      var n := |rs| - 1;
      LatestFixtureIsOne(rs[..n]);
      if LatestFixture(rs) == LatestFixture(rs[..n]) && LatestFixture(rs).Some? {
        var k :| 0 <= k < n && rs[..n][k].fixtureRevision == LatestFixture(rs).value;
        assert rs[k].fixtureRevision == LatestFixture(rs).value;
      }
    }
  }

  /** Both times can be read, and the later is further away than allowed. */
  predicate OlderThan(host: Host, checkedAt: Option<Text>, maxAge: Option<int>, now: Text) {
    match (maxAge, checkedAt)
    case (Some(allowed), Some(seenAt)) =>
      (match (host.parseDate(seenAt), host.parseDate(now))
       case (Some(seen), Some(today)) => today > seen + allowed
       case _ => false)
    case _ => false
  }

  /** What each reason means by itself. */
  predicate Drifted(host: Host, c: Claim, ds: seq<Decision>, p: Policy, now: Text, reason: Stale) {
    var i, latest := c.identity, LatestDecision(ds);
    var access := if i.accessProviderId in p.access then Some(p.access[i.accessProviderId]) else None;
    match reason
    case AgeExceeded => OlderThan(host, LatestChecked(c.records), p.maxAge, now)
    case ClientDrift => p.clientBaseline.Some? && i.clientVersion != p.clientBaseline.value
    case ProtocolRevisionDrift => p.protocolRevision.Some? && i.protocolRevision != p.protocolRevision.value
    case AdapterDrift => access.Some? && access.value.adapterId != i.adapterId
    case AuthModeDrift => access.Some? && access.value.authMode != i.authMode
    case EndpointDrift => access.Some? && access.value.endpointContract != i.endpointContract
    case ProtocolDrift => access.Some? && access.value.sourceProtocol != i.sourceProtocol
    case ModelDrift => i.physicalModelId in p.deprecatedModels
    case FixtureDrift => p.fixtureRevision.Some? && p.fixtureRevision != LatestFixture(c.records)
    case BuildDrift => p.build.Some? && latest.Some? && latest.value.build.Some? && latest.value.build != p.build
  }

  const REASONS: seq<Stale> := [
    AgeExceeded, ClientDrift, ProtocolRevisionDrift, AdapterDrift, AuthModeDrift, EndpointDrift, ProtocolDrift,
    ModelDrift, FixtureDrift, BuildDrift]

  /** The place of a reason in the order in which reasons are reported. */
  function Rank(reason: Stale): (r: nat)
    ensures r < |REASONS| && REASONS[r] == reason
  {
    match reason
    case AgeExceeded => 0 case ClientDrift => 1 case ProtocolRevisionDrift => 2 case AdapterDrift => 3 case AuthModeDrift => 4
    case EndpointDrift => 5 case ProtocolDrift => 6 case ModelDrift => 7 case FixtureDrift => 8 case BuildDrift => 9
  }

  lemma ReportedNoLater(host: Host, c: Claim, ds: seq<Decision>, p: Policy, now: Text, other: Stale)
    requires Drifted(host, c, ds, p, now, other)
    ensures Staleness(host, c, ds, p, now).Some? && Rank(Staleness(host, c, ds, p, now).value) <= Rank(other)
  {
  }

  lemma ReportedDrifted(host: Host, c: Claim, ds: seq<Decision>, p: Policy, now: Text)
    requires Staleness(host, c, ds, p, now).Some?
    ensures Drifted(host, c, ds, p, now, Staleness(host, c, ds, p, now).value)
  {
  }

  /** Fresh means that no dependency has drifted; stale names the first that has. */
  lemma StaleIff(host: Host, c: Claim, ds: seq<Decision>, p: Policy, now: Text, reason: Stale)
    ensures Staleness(host, c, ds, p, now) == Some(reason) <==>
            && Drifted(host, c, ds, p, now, reason)
            && forall other :: Drifted(host, c, ds, p, now, other) ==> Rank(reason) <= Rank(other)
    ensures Staleness(host, c, ds, p, now) == None <==> forall other :: !Drifted(host, c, ds, p, now, other)
  {
    var first := Staleness(host, c, ds, p, now);
    forall other | Drifted(host, c, ds, p, now, other) ensures first.Some? && Rank(first.value) <= Rank(other) {
      ReportedNoLater(host, c, ds, p, now, other);
    }
    if first.Some? {
      ReportedDrifted(host, c, ds, p, now);
      assert Rank(first.value) == Rank(reason) ==> first.value == reason;
    }
  }

  /** Without new evidence, a claim too old at one time is too old ever after. */
  lemma StaysTooOld(host: Host, c: Claim, ds: seq<Decision>, later: seq<Decision>, p: Policy, now: Text, after: Text)
    requires Staleness(host, c, ds, p, now) == Some(AgeExceeded)
    requires host.parseDate(after).Some? && host.parseDate(now).value <= host.parseDate(after).value
    ensures Staleness(host, c, later, p, after) == Some(AgeExceeded)
  {
  }

  // --------------------------------------------------- the parts of an answer

  /** The decision at `k` has the highest revision, and is the first that has it. */
  ghost predicate DecidesAt(ds: seq<Decision>, k: int) {
    && 0 <= k < |ds| && (forall j :: 0 <= j < |ds| ==> ds[j].revision <= ds[k].revision)
    && forall j :: 0 <= j < k ==> ds[j].revision < ds[k].revision
  }

  ghost predicate DecisionRight(ds: seq<Decision>, d: Option<Decision>) {
    match d
    case None => ds == []
    case Some(review) => exists k :: DecidesAt(ds, k) && ds[k] == review
  }

  lemma OneMoreReview(ds: seq<Decision>, d: Option<Decision>, x: Decision)
    requires DecisionRight(ds, d)
    ensures DecisionRight(ds + [x], if d.None? || x.revision > d.value.revision then Some(x) else d)
  {
    var all, n := ds + [x], |ds|;
    if d.None? {
      assert DecidesAt(all, 0);
    } else {
      var k :| DecidesAt(ds, k) && ds[k] == d.value;
      assert if x.revision > d.value.revision then DecidesAt(all, n) else DecidesAt(all, k);
    }
  }

  /** The deciding review is the first of those with the highest revision. */
  lemma {:induction false} LatestDecisionIs(ds: seq<Decision>)
    ensures DecisionRight(ds, LatestDecision(ds))
  {
    if ds != [] {
      var n := |ds| - 1;
      LatestDecisionIs(ds[..n]);
      OneMoreReview(ds[..n], LatestDecision(ds[..n]), ds[n]);
      assert ds[..n] + [ds[n]] == ds;
    }
  }

  /** The quarantine at `k` is not lifted and has the highest revision of these, and is the first that has it. */
  ghost predicate QuarantinesAt(qs: seq<Quarantine>, k: int) {
    && 0 <= k < |qs| && qs[k].lifted.None?
    && (forall j :: 0 <= j < |qs| && qs[j].lifted.None? ==> qs[j].revision <= qs[k].revision)
    && forall j :: 0 <= j < k && qs[j].lifted.None? ==> qs[j].revision < qs[k].revision
  }

  ghost predicate QuarantineRight(qs: seq<Quarantine>, q: Option<Quarantine>) {
    match q
    case None => forall j :: 0 <= j < |qs| ==> qs[j].lifted.Some?
    case Some(record) => exists k :: QuarantinesAt(qs, k) && qs[k] == record
  }

  lemma OneMoreRecord(qs: seq<Quarantine>, q: Option<Quarantine>, x: Quarantine)
    requires QuarantineRight(qs, q)
    ensures QuarantineRight(qs + [x], if x.lifted.None? && (q.None? || x.revision > q.value.revision) then Some(x) else q)
  {
    var all, n := qs + [x], |qs|;
    if q.None? {
      assert x.lifted.None? ==> QuarantinesAt(all, n);
    } else {
      var k :| QuarantinesAt(qs, k) && qs[k] == q.value;
      assert if x.lifted.None? && x.revision > q.value.revision then QuarantinesAt(all, n) else QuarantinesAt(all, k);
    }
  }

  /** The quarantine in force is the first of the highest revision among those not lifted. */
  lemma {:induction false} LatestQuarantineIs(qs: seq<Quarantine>)
    ensures QuarantineRight(qs, LatestQuarantine(qs))
  {
    if qs != [] {
      var n := |qs| - 1;
      LatestQuarantineIs(qs[..n]);
      OneMoreRecord(qs[..n], LatestQuarantine(qs[..n]), qs[n]);
      assert qs[..n] + [qs[n]] == qs;
    }
  }

  /** A new revision is above every one that is there. */
  lemma {:induction false} MaxBounds(ds: seq<Decision>, qs: seq<Quarantine>)
    ensures MaxDecision(ds) >= 0 && forall j :: 0 <= j < |ds| ==> ds[j].revision <= MaxDecision(ds)
    ensures MaxQuarantine(qs) >= 0 && forall j :: 0 <= j < |qs| ==> qs[j].revision <= MaxQuarantine(qs)
    decreases |ds| + |qs|
  {
    if ds != [] { MaxBounds(ds[..|ds| - 1], qs); }
    if qs != [] { MaxBounds(ds, qs[..|qs| - 1]); }
  }

  ghost predicate HealthRight(rs: seq<Evidence>, h: Health) {
    && (h == HealthUnknown <==> rs == [])
    && (h == HealthFailed <==> exists e :: e in rs && e.outcome == Failed)
    && (h == Healthy <==> (forall e :: e in rs ==> e.outcome != Failed) && (exists e :: e in rs && e.outcome == Passed)
                          && forall layer :: Present(rs, layer))
  }

  /** The trust in records with this digest and health, given the deciding review. */
  predicate TrustRight(d: Option<Decision>, digest: Text, h: Health, trust: Trust, reason: Option<TrustReason>) {
    match d
    case None => trust == NoTrust && reason == None
    case Some(review) =>
      if review.verdict == Reject then trust == Rejected && reason == Some(ExplicitRejection)
      else if review.evidenceRevision != digest then trust == ReviewStale && reason == Some(EvidenceUpdated)
      else if h != Healthy then trust == ReviewStale && reason == Some(Contradicted)
      else trust == Reviewed && reason == None
  }

  lemma HealthIs(c: Claim)
    ensures HealthRight(c.records, HealthOf(ClaimStatusFor(c), c.records != []))
  {
    var rs := c.records;
    forall outcome ensures Any(rs, outcome) <==> exists e :: e in rs && e.outcome == outcome {
      if Any(rs, outcome) {
        var i :| 0 <= i < |rs| && rs[i].outcome == outcome;
        assert rs[i] in rs;
      }
    }
    var required := RequiredLayers(c.identity.adapterId);
    assert required[0] == A && required[1] == B && required[2] == C;
    forall layer: Layer ensures layer in required { assert layer.A? || layer.B? || layer.C?; }
  }

  lemma TrustIs(host: Host, i: Input)
    ensures var rs := if i.claim.None? then [] else i.claim.value.records;
            var status := if i.claim.None? then StatusMissing else ClaimStatusFor(i.claim.value);
            TrustRight(LatestDecision(i.decisions), if i.claim.None? then [] else host.digest(rs),
                       HealthOf(status, rs != []), TrustOf(host, i).0, TrustOf(host, i).1)
  {
  }

  /** Each part of an answer from the input alone: records, review, quarantine and layers. */
  lemma DimensionsAre(host: Host, i: Input, ctx: Context)
    ensures var a, rs := Resolve(host, i, ctx), if i.claim.None? then [] else i.claim.value.records;
            && HealthRight(rs, a.health)
            && TrustRight(a.decision, if i.claim.None? then [] else host.digest(rs), a.health, a.trust, a.trustReason)
            && DecisionRight(i.decisions, a.decision) && QuarantineRight(i.quarantines, a.quarantine)
            && LayerRight(rs, A, a.layers.a) && LayerRight(rs, B, a.layers.b) && LayerRight(rs, C, a.layers.c)
  {
    LayersAre(if i.claim.None? then [] else i.claim.value.records);
    LatestDecisionIs(i.decisions);
    LatestQuarantineIs(i.quarantines);
    TrustIs(host, i);
    if i.claim.Some? { HealthIs(i.claim.value); }
  }

  // ------------------------------------------------------ answers for a model

  /**
   * `effectiveForModel`: the answer for a registry row.  Without a claim it
   * comes from the seed state of the row, and the quarantine is not looked at.
   */
  function EffectiveForModel(host: Host, i: Input, ctx: Context, brokenSeed: bool): (Label, Enforcement) {
    if i.claim.None? then
      (if brokenSeed then Untrusted else Experimental,
       if !ctx.required then Allowed
       else if !brokenSeed && ctx.experimentalOverride then ExperimentalOverride
       else Blocked)
    else (LabelFor(host, i), Enforce(LabelFor(host, i), ctx))
  }

  function EffectiveForClaimKey(host: Host, i: Input, ctx: Context): (Label, Enforcement) {
    (LabelFor(host, i), Enforce(LabelFor(host, i), ctx))
  }

  /**
   * The answer for a model is that for its claim, if there is one; the seed
   * answers otherwise, as untrusted when broken and experimental when not.
   */
  lemma ModelEnforcedIff(host: Host, i: Input, ctx: Context, brokenSeed: bool)
    ensures var (effective, e) := EffectiveForModel(host, i, ctx, brokenSeed);
            && Enforced(effective, ctx, e)
            && (i.claim.Some? ==> (effective, e) == (Resolve(host, i, ctx).effective, Resolve(host, i, ctx).enforcement))
            && (i.claim.None? ==> effective == if brokenSeed then Untrusted else Experimental)
  {
  }

  /** An active quarantine stops a required feature of a model in every context without a bypass, except when there is no claim and the seed is overridden. */
  lemma ModelQuarantineHolds(host: Host, i: Input, ctx: Context, brokenSeed: bool)
    requires IsQuarantined(i.quarantines) && ctx.required && !ctx.allowQuarantineBypass
    ensures EffectiveForClaimKey(host, i, ctx).1 == Blocked
    ensures EffectiveForModel(host, i, ctx, brokenSeed).1 == Blocked <==> i.claim.Some? || brokenSeed || !ctx.experimentalOverride
  {
  }
}

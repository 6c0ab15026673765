/**
 * The history of one claim and feature: observations, decisions, quarantines
 * and lifts in any order (src/compatibility/stores.ts, src/canary/artifact.ts).
 */
module CompatibilityRuns {
  import opened CodeUnits
  import opened Wrappers
  import opened ClaimEvidence
  import opened CompatibilityAuthority

  // ------------------------------------------------------------ stored documents

  predicate DecisionSchema(d: Decision) {
    && d.claimKey != [] && d.evidenceRevision != [] && d.reviewer != [] && d.source != [] && d.reason != []
    && d.decidedAt != [] && d.revision > 0
  }

  predicate QuarantineSchema(q: Quarantine) {
    q.claimKey != [] && q.reason != [] && q.source != [] && q.quarantinedAt != [] && q.revision > 0
  }

  predicate DecisionsReadable(ds: seq<Decision>) { forall i :: 0 <= i < |ds| ==> DecisionSchema(ds[i]) }

  predicate QuarantinesReadable(qs: seq<Quarantine>) { forall i :: 0 <= i < |qs| ==> QuarantineSchema(qs[i]) }

  datatype StoreError = Unreadable | NothingToLift

  /** Revisions are given by the store, not by the caller. */
  function AddDecision(ds: seq<Decision>, input: Decision): Result<seq<Decision>, StoreError> {
    if !DecisionsReadable(ds) then Err(Unreadable)
    else Ok(ds + [input.(revision := MaxDecision(ds) + 1)])
  }

  function AddQuarantine(qs: seq<Quarantine>, input: Quarantine): Result<seq<Quarantine>, StoreError> {
    if !QuarantinesReadable(qs) then Err(Unreadable)
    else Ok(qs + [input.(revision := MaxQuarantine(qs) + 1, lifted := None)])
  }

  /** Every record with the given revision is marked as lifted. */
  function MarkLifted(qs: seq<Quarantine>, active: Quarantine, l: Lift): seq<Quarantine> {
    seq(|qs|, i requires 0 <= i < |qs| => if qs[i].revision == active.revision then active.(lifted := Some(l)) else qs[i])
  }

  function LiftActive(qs: seq<Quarantine>, l: Lift): Result<seq<Quarantine>, StoreError> {
    if !QuarantinesReadable(qs) then Err(Unreadable)
    else if LatestQuarantine(qs).None? then Err(NothingToLift)
    else Ok(MarkLifted(qs, LatestQuarantine(qs).value, l))
  }

  // --------------------------------------------------------------------- runs

  /** `raised` and `lifted` count the quarantines and lifts that were carried out. */
  datatype State = State(
    claim: Option<Claim>, decisions: seq<Decision>, quarantines: seq<Quarantine>, raised: nat, lifted: nat)

  const INITIAL: State := State(None, [], [], 0, 0)

  datatype Event =
    | Observe(empty: Claim, es: seq<Evidence>, ref: Option<Text>)
    | Decide(d: Decision)
    | Raise(q: Quarantine)
    | Undo(l: Lift)

  predicate ClaimReadable(s: State) { s.claim.Some? ==> ClaimSchema(s.claim.value) }

  predicate Readable(s: State) {
    ClaimReadable(s) && DecisionsReadable(s.decisions) && QuarantinesReadable(s.quarantines)
  }

  /** The observations of one run, filed under the claim. */
  function AfterObserve(s: State, empty: Claim, es: seq<Evidence>, ref: Option<Text>): State {
    if !ClaimReadable(s) then s
    else s.(claim := Some(AppendAll(if s.claim.Some? then s.claim.value else empty.(records := []), es, ref)))
  }

  function AfterDecide(s: State, d: Decision): State {
    var r := AddDecision(s.decisions, d);
    if r.Err? then s else s.(decisions := r.value)
  }

  function AfterRaise(s: State, q: Quarantine): State {
    var r := AddQuarantine(s.quarantines, q);
    if r.Err? then s else s.(quarantines := r.value, raised := s.raised + 1)
  }

  function AfterUndo(s: State, l: Lift): State {
    var r := LiftActive(s.quarantines, l);
    if r.Err? then s else s.(quarantines := r.value, lifted := s.lifted + 1)
  }

  function Step(s: State, ev: Event): State {
    match ev
    case Observe(empty, es, ref) => AfterObserve(s, empty, es, ref)
    case Decide(d) => AfterDecide(s, d)
    case Raise(q) => AfterRaise(s, q)
    case Undo(l) => AfterUndo(s, l)
  }

  function Run(s: State, evs: seq<Event>): State {
    if evs == [] then s else Step(Run(s, evs[..|evs| - 1]), evs[|evs| - 1])
  }

  function InputOf(s: State, p: Policy, now: Text): Input {
    Input(s.claim, s.decisions, s.quarantines, p, now)
  }

  // ---------------------------------------------------------------- invariant

  ghost predicate DecisionsNumbered(ds: seq<Decision>) {
    forall i :: 0 <= i < |ds| ==> ds[i].revision == i + 1
  }

  ghost predicate QuarantinesNumbered(qs: seq<Quarantine>) {
    forall i :: 0 <= i < |qs| ==> qs[i].revision == i + 1
  }

  /** The quarantines that are not lifted, oldest first. */
  function Active(qs: seq<Quarantine>): seq<Quarantine> {
    if qs == [] then []
    else
      var n := |qs| - 1;
      Active(qs[..n]) + if qs[n].lifted.None? then [qs[n]] else []
  }

  ghost predicate Inv(s: State) {
    && DecisionsNumbered(s.decisions)
    && QuarantinesNumbered(s.quarantines)
    && |s.quarantines| == s.raised
    && s.raised == s.lifted + |Active(s.quarantines)|
    && (s.claim.Some? ==> DistinctRecords(s.claim.value.records))
  }

  lemma {:induction false} NumberedDecisions(ds: seq<Decision>)
    requires DecisionsNumbered(ds)
    ensures MaxDecision(ds) == |ds|
    ensures LatestDecision(ds) == if ds == [] then None else Some(ds[|ds| - 1])
  {
    if ds != [] { NumberedDecisions(ds[..|ds| - 1]); }
  }

  lemma {:induction false} NumberedQuarantines(qs: seq<Quarantine>)
    requires QuarantinesNumbered(qs)
    ensures MaxQuarantine(qs) == |qs|
    ensures LatestQuarantine(qs) == if Active(qs) == [] then None else Some(Active(qs)[|Active(qs)| - 1])
    ensures LatestQuarantine(qs).Some? ==> LatestQuarantine(qs).value in qs && LatestQuarantine(qs).value.lifted.None?
  {
    if qs != [] { NumberedQuarantines(qs[..|qs| - 1]); }
  }

  /** Lifting takes the newest active quarantine off, as from a stack. */
  lemma {:induction false} LiftPops(qs: seq<Quarantine>, l: Lift)
    requires QuarantinesNumbered(qs) && LatestQuarantine(qs).Some?
    ensures QuarantinesNumbered(MarkLifted(qs, LatestQuarantine(qs).value, l)) && Active(qs) != []
    ensures Active(MarkLifted(qs, LatestQuarantine(qs).value, l)) == Active(qs)[..|Active(qs)| - 1]
  {
    var n := |qs| - 1;
    var active := LatestQuarantine(qs).value;
    NumberedQuarantines(qs);
    if qs[n].lifted.None? {
      NumberedQuarantines(qs[..n]);
      assert active == qs[n];
      LiftLast(qs, l);
    } else {
      assert LatestQuarantine(qs[..n]) == LatestQuarantine(qs);
      LiftPops(qs[..n], l);
      assert active in qs[..n];
      LiftEarlier(qs, active, l);
    }
  }

  lemma LiftLast(qs: seq<Quarantine>, l: Lift)
    requires QuarantinesNumbered(qs) && qs != []
    ensures var after := MarkLifted(qs, qs[|qs| - 1], l); QuarantinesNumbered(after) && Active(after) == Active(qs[..|qs| - 1])
  {
    var n := |qs| - 1;
    var after := MarkLifted(qs, qs[n], l);
    assert after[..n] == qs[..n];
  }

  lemma LiftEarlier(qs: seq<Quarantine>, active: Quarantine, l: Lift)
    requires QuarantinesNumbered(qs) && qs != [] && active in qs[..|qs| - 1]
    ensures var after, n := MarkLifted(qs, active, l), |qs| - 1;
            && after[..n] == MarkLifted(qs[..n], active, l) && after[n] == qs[n]
            && (QuarantinesNumbered(after[..n]) ==> QuarantinesNumbered(after))
  {
  }

  lemma RaisePushes(qs: seq<Quarantine>, q: Quarantine)
    requires q.lifted.None?
    ensures Active(qs + [q]) == Active(qs) + [q]
  {
    assert (qs + [q])[..|qs|] == qs;
  }

  lemma ObserveKeepsInv(s: State, empty: Claim, es: seq<Evidence>, ref: Option<Text>)
    requires Inv(s)
    ensures Inv(AfterObserve(s, empty, es, ref))
  {
    AppendAllGrows(if s.claim.Some? then s.claim.value else empty.(records := []), es, ref);
  }

  lemma DecideKeepsInv(s: State, d: Decision)
    requires Inv(s)
    ensures Inv(AfterDecide(s, d))
  {
    NumberedDecisions(s.decisions);
  }

  lemma RaiseKeepsInv(s: State, q: Quarantine)
    requires Inv(s)
    ensures Inv(AfterRaise(s, q))
  {
    NumberedQuarantines(s.quarantines);
    RaisePushes(s.quarantines, q.(revision := MaxQuarantine(s.quarantines) + 1, lifted := None));
  }

  lemma UndoKeepsInv(s: State, l: Lift)
    requires Inv(s)
    ensures Inv(AfterUndo(s, l))
  {
    if LiftActive(s.quarantines, l).Ok? {
      LiftPops(s.quarantines, l);
    }
  }

  lemma StepKeepsInv(s: State, ev: Event)
    requires Inv(s)
    ensures Inv(Step(s, ev))
  {
    match ev
    case Observe(empty, es, ref) => ObserveKeepsInv(s, empty, es, ref);
    case Decide(d) => DecideKeepsInv(s, d);
    case Raise(q) => RaiseKeepsInv(s, q);
    case Undo(l) => UndoKeepsInv(s, l);
  }

  lemma {:induction false} RunKeepsInv(s: State, evs: seq<Event>)
    requires Inv(s)
    ensures Inv(Run(s, evs))
  {
    if evs != [] {
      RunKeepsInv(s, evs[..|evs| - 1]);
      StepKeepsInv(Run(s, evs[..|evs| - 1]), evs[|evs| - 1]);
    }
  }

  // -------------------------------------------------------------- main results

  /** A claim is quarantined exactly while quarantines outnumber lifts. */
  lemma QuarantinedIff(evs: seq<Event>)
    ensures var s := Run(INITIAL, evs); IsQuarantined(s.quarantines) <==> s.raised > s.lifted
  {
    RunKeepsInv(INITIAL, evs);
    NumberedQuarantines(Run(INITIAL, evs).quarantines);
  }

  /** Decisions are numbered from one without a gap, so the deciding one is the last that was made. */
  lemma LastDecisionDecides(evs: seq<Event>)
    ensures var ds := Run(INITIAL, evs).decisions;
            DecisionsNumbered(ds) && LatestDecision(ds) == if ds == [] then None else Some(ds[|ds| - 1])
  {
    RunKeepsInv(INITIAL, evs);
    NumberedDecisions(Run(INITIAL, evs).decisions);
  }

  /** An answer is given only when all three documents can be read. */
  predicate TrustedAt(host: Host, s: State, p: Policy, now: Text) {
    Readable(s) && LabelFor(host, InputOf(s, p, now)) == Trusted
  }

  lemma StepGrows(s: State, ev: Event)
    requires s.claim.Some?
    ensures Step(s, ev).claim.Some? && Grows(s.claim.value, Step(s, ev).claim.value)
  {
    if ev.Observe? {
      AppendAllGrows(s.claim.value, ev.es, ev.ref);
    }
  }

  lemma LongerWhenChanged(c: Claim, d: Claim)
    requires Grows(c, d) && c != d
    ensures |c.records| < |d.records|
  {
    assert |c.records| == |d.records| ==> c.records == d.records;
  }

  lemma {:induction false} RunGrows(s: State, evs: seq<Event>)
    requires s.claim.Some?
    ensures Run(s, evs).claim.Some? && Grows(s.claim.value, Run(s, evs).claim.value)
  {
    if evs != [] {
      RunGrows(s, evs[..|evs| - 1]);
      StepGrows(Run(s, evs[..|evs| - 1]), evs[|evs| - 1]);
    }
  }

  /** The `k`-th event is the last decision of the run. */
  ghost predicate LastDecides(evs: seq<Event>, k: int) {
    0 <= k < |evs| && evs[k].Decide? && forall j :: k < j < |evs| ==> !evs[j].Decide?
  }

  /** The last decision of the run, the `k`-th event, promotes exactly the given records. */
  ghost predicate Promotes(host: Host, evs: seq<Event>, k: int, rs: seq<Evidence>) {
    LastDecides(evs, k) && evs[k].d.verdict == Promote && evs[k].d.evidenceRevision == host.digest(rs)
  }

  /** In a document that can still be read, exactly the decisions of the run have been appended. */
  lemma StepDecisions(s: State, ev: Event)
    requires DecisionsReadable(Step(s, ev).decisions)
    ensures DecisionsReadable(s.decisions)
    ensures Step(s, ev).decisions
            == if ev.Decide? then s.decisions + [ev.d.(revision := MaxDecision(s.decisions) + 1)] else s.decisions
  {
  }

  predicate StoredLast(ds: seq<Decision>, d: Decision) {
    ds != [] && ds[|ds| - 1].(revision := d.revision) == d
  }

  /** The decision stored last is the last one of the run, or was there before it. */
  lemma {:induction false} WhoDecided(s: State, evs: seq<Event>) returns (k: int)
    requires DecisionsReadable(Run(s, evs).decisions)
    ensures k < 0 ==> Run(s, evs).decisions == s.decisions && forall j :: 0 <= j < |evs| ==> !evs[j].Decide?
    ensures k >= 0 ==> LastDecides(evs, k) && StoredLast(Run(s, evs).decisions, evs[k].d)
    decreases |evs|
  {
    if evs == [] { return -1; }
    var n := |evs| - 1;
    var before := Run(s, evs[..n]);
    assert Run(s, evs) == Step(before, evs[n]);
    StepDecisions(before, evs[n]);
    if evs[n].Decide? {
      k := n;
    } else {
      k := WhoDecided(s, evs[..n]);
    }
  }

  /** The last decision promoted exactly the records that are there. */
  ghost predicate Promoted(host: Host, s: State) {
    && s.claim.Some? && s.decisions != []
    && var d := s.decisions[|s.decisions| - 1];
       d.verdict == Promote && d.evidenceRevision == host.digest(s.claim.value.records)
  }

  lemma TrustedPromoted(host: Host, s: State, p: Policy, now: Text)
    requires Inv(s) && TrustedAt(host, s, p, now)
    ensures Promoted(host, s)
  {
    NumberedDecisions(s.decisions);
  }

  lemma NewPromotion(host: Host, s: State, evs: seq<Event>, before: seq<Evidence>)
    requires host.Sound() && Inv(s) && s.decisions != [] && s.claim.Some? && |before| < |s.claim.value.records|
    requires s.decisions[|s.decisions| - 1].evidenceRevision == host.digest(before)
    requires Promoted(host, Run(s, evs)) && DecisionsReadable(Run(s, evs).decisions)
    ensures exists k :: Promotes(host, evs, k, Run(s, evs).claim.value.records)
  {
    RunGrows(s, evs);
    var k := WhoDecided(s, evs);
    assert k >= 0;
    assert Promotes(host, evs, k, Run(s, evs).claim.value.records);
  }

  lemma OnlyClaimChanged(s: State, ev: Event)
    requires Step(s, ev).claim != s.claim
    ensures Step(s, ev).decisions == s.decisions
  {
  }

  lemma TrustedAgain(host: Host, s: State, evs: seq<Event>, before: seq<Evidence>, p: Policy, later: Text)
    requires host.Sound() && Inv(s) && s.decisions != [] && s.claim.Some? && |before| < |s.claim.value.records|
    requires s.decisions[|s.decisions| - 1].evidenceRevision == host.digest(before)
    requires TrustedAt(host, Run(s, evs), p, later)
    ensures exists k :: Promotes(host, evs, k, Run(s, evs).claim.value.records)
  {
    RunKeepsInv(s, evs);
    TrustedPromoted(host, Run(s, evs), p, later);
    NewPromotion(host, s, evs, before);
  }

  /**
   * A new observation ends trust: however the run goes on, the claim is trusted
   * again only when its last decision promotes exactly the records it then has.
   */
  lemma TrustNeedsNewPromotion(host: Host, s: State, ev: Event, evs: seq<Event>, p: Policy, now: Text, p': Policy, later: Text)
    requires host.Sound() && Inv(s) && TrustedAt(host, s, p, now)
    requires Step(s, ev).claim != s.claim
    ensures var last := Run(Step(s, ev), evs);
            TrustedAt(host, last, p', later) ==> exists k :: Promotes(host, evs, k, last.claim.value.records)
  {
    var middle := Step(s, ev);
    TrustedPromoted(host, s, p, now);
    OnlyClaimChanged(s, ev);
    StepKeepsInv(s, ev);
    StepGrows(s, ev);
    LongerWhenChanged(s.claim.value, middle.claim.value);
    if TrustedAt(host, Run(middle, evs), p', later) {
      TrustedAgain(host, middle, evs, s.claim.value.records, p', later);
    }
  }

  /** A failed observation ends trust for ever, and a required feature stays blocked unless quarantines are bypassed. */
  lemma FailedForEver(host: Host, s: State, evs: seq<Event>, p: Policy, now: Text, ctx: Context)
    requires s.claim.Some? && Any(s.claim.value.records, Failed)
    ensures var a := Resolve(host, InputOf(Run(s, evs), p, now), ctx);
            a.effective == (if IsQuarantined(Run(s, evs).quarantines) then Quarantined else Untrusted)
            && (ctx.required && !ctx.allowQuarantineBypass ==> a.enforcement == Blocked)
  {
    RunGrows(s, evs);
    var rs, later := s.claim.value.records, Run(s, evs).claim.value.records;
    var i :| 0 <= i < |rs| && rs[i].outcome == Failed;
    assert later[i] == rs[i];
  }

  /** Nothing failed, something passed, and no layer is without a record. */
  predicate GoodOutcomes(rs: seq<Evidence>) {
    !Any(rs, Failed) && Any(rs, Passed) && Present(rs, A) && Present(rs, B) && Present(rs, C)
  }

  lemma GoodStatus(c: Claim)
    ensures ClaimStatusFor(c) == StatusPassed <==> GoodOutcomes(c.records)
  {
    StatusFromLayers(c);
    var rs := c.records;
    assert forall layer :: SomeIn(rs, layer, Failed) ==> Any(rs, Failed);
    assert Any(rs, Passed) <==> exists layer :: SomeIn(rs, layer, Passed) by {
      if Any(rs, Passed) {
        var i :| 0 <= i < |rs| && rs[i].outcome == Passed;
        assert SomeIn(rs, rs[i].layer, Passed);
      }
    }
  }

  lemma TrustedState(host: Host, s: State, p: Policy, now: Text)
    requires Inv(s)
    ensures TrustedAt(host, s, p, now) <==>
              && Readable(s) && s.raised == s.lifted
              && s.claim.Some? && GoodOutcomes(s.claim.value.records)
              && Staleness(host, s.claim.value, s.decisions, p, now).None?
              && Promoted(host, s)
  {
    NumberedDecisions(s.decisions);
    NumberedQuarantines(s.quarantines);
    if s.claim.Some? { GoodStatus(s.claim.value); }
  }

  lemma PromotedIff(host: Host, evs: seq<Event>)
    requires DecisionsReadable(Run(INITIAL, evs).decisions) && Run(INITIAL, evs).claim.Some?
    ensures Promoted(host, Run(INITIAL, evs)) <==> exists k :: Promotes(host, evs, k, Run(INITIAL, evs).claim.value.records)
  {
    var s := Run(INITIAL, evs);
    var k := WhoDecided(INITIAL, evs);
    if Promoted(host, s) {
      assert Promotes(host, evs, k, s.claim.value.records);
    }
    if m :| Promotes(host, evs, m, s.claim.value.records) {
      assert k == m;
    }
  }

  /**
   * What trust is after any run from nothing: readable documents, as many
   * lifts as quarantines, good outcomes, nothing stale, and a last decision
   * that promotes exactly the records there are.
   */
  lemma TrustedHistoryIff(host: Host, evs: seq<Event>, p: Policy, now: Text)
    ensures var s := Run(INITIAL, evs);
            TrustedAt(host, s, p, now) <==>
              && Readable(s) && s.raised == s.lifted
              && s.claim.Some? && GoodOutcomes(s.claim.value.records)
              && Staleness(host, s.claim.value, s.decisions, p, now).None?
              && exists k :: Promotes(host, evs, k, s.claim.value.records)
  {
    var s := Run(INITIAL, evs);
    RunKeepsInv(INITIAL, evs);
    TrustedState(host, s, p, now);
    if Readable(s) && s.claim.Some? {
      PromotedIff(host, evs);
    }
  }

  // ------------------------------------------------- documents that cannot be read

  lemma ReadableAfter(ds: seq<Decision>, d: Decision)
    requires DecisionsReadable(ds) && DecisionsNumbered(ds)
    ensures DecisionsReadable(AddDecision(ds, d).value) <==> DecisionSchema(d.(revision := 1))
  {
    NumberedDecisions(ds);
    var after := AddDecision(ds, d).value;
    assert after[|ds|] == d.(revision := MaxDecision(ds) + 1);
    assert forall i :: 0 <= i < |ds| ==> after[i] == ds[i];
  }

  /** A document that fails its schema is never read or changed again. */
  lemma {:induction false} UnreadableForEver(s: State, evs: seq<Event>)
    ensures !DecisionsReadable(s.decisions) ==> Run(s, evs).decisions == s.decisions
    ensures !QuarantinesReadable(s.quarantines) ==> Run(s, evs).quarantines == s.quarantines
    ensures !ClaimReadable(s) ==> Run(s, evs).claim == s.claim
  {
    if evs != [] {
      UnreadableForEver(s, evs[..|evs| - 1]);
    }
  }

  // ------------------------------------------------- what the documents hold

  /** A decision or quarantine that lacks a text it must have. */
  predicate Short(d: Decision) {
    [] in [d.claimKey, d.evidenceRevision, d.reviewer, d.source, d.reason, d.decidedAt]
  }

  predicate ShortQuarantine(q: Quarantine) {
    [] in [q.claimKey, q.reason, q.source, q.quarantinedAt]
  }

  /** The decisions of a run that are stored: all up to the first short one, which is the last. */
  function Decided(evs: seq<Event>): seq<Decision> {
    if evs == [] then []
    else
      var ev, before := evs[|evs| - 1], Decided(evs[..|evs| - 1]);
      if ev.Decide? && (before == [] || !Short(before[|before| - 1])) then before + [ev.d] else before
  }

  function Raised(evs: seq<Event>): seq<Quarantine> {
    if evs == [] then []
    else
      var ev, before := evs[|evs| - 1], Raised(evs[..|evs| - 1]);
      if ev.Raise? && (before == [] || !ShortQuarantine(before[|before| - 1])) then before + [ev.q] else before
  }

  ghost predicate DecisionsStored(ds: seq<Decision>, made: seq<Decision>) {
    && |ds| == |made|
    && (forall i :: 0 <= i < |ds| ==> ds[i] == made[i].(revision := i + 1))
    && forall i :: 0 <= i < |ds| - 1 ==> !Short(made[i])
  }

  ghost predicate QuarantinesStored(qs: seq<Quarantine>, made: seq<Quarantine>) {
    && |qs| == |made|
    && (forall i :: 0 <= i < |qs| ==> qs[i] == made[i].(revision := i + 1, lifted := qs[i].lifted))
    && forall i :: 0 <= i < |qs| - 1 ==> !ShortQuarantine(made[i])
  }

  lemma DecisionsShort(ds: seq<Decision>, made: seq<Decision>)
    requires DecisionsStored(ds, made)
    ensures DecisionsReadable(ds) <==> made == [] || !Short(made[|made| - 1])
    ensures DecisionsNumbered(ds)
  {
    forall i | 0 <= i < |ds| ensures DecisionSchema(ds[i]) <==> !Short(made[i]) {
      assert ds[i] == made[i].(revision := i + 1);
    }
  }

  lemma QuarantinesShort(qs: seq<Quarantine>, made: seq<Quarantine>)
    requires QuarantinesStored(qs, made)
    ensures QuarantinesReadable(qs) <==> made == [] || !ShortQuarantine(made[|made| - 1])
    ensures QuarantinesNumbered(qs)
  {
    forall i | 0 <= i < |qs| ensures QuarantineSchema(qs[i]) <==> !ShortQuarantine(made[i]) {
      assert qs[i] == made[i].(revision := i + 1, lifted := qs[i].lifted);
    }
  }

  lemma OneMoreDecision(ds: seq<Decision>, made: seq<Decision>, d: Decision)
    requires DecisionsStored(ds, made)
    ensures match AddDecision(ds, d)
            case Ok(after) => (made == [] || !Short(made[|made| - 1])) && DecisionsStored(after, made + [d])
            case Err(_) => made != [] && Short(made[|made| - 1])
  {
    DecisionsShort(ds, made);
    NumberedDecisions(ds);
  }

  lemma OneMoreQuarantine(qs: seq<Quarantine>, made: seq<Quarantine>, q: Quarantine)
    requires QuarantinesStored(qs, made)
    ensures match AddQuarantine(qs, q)
            case Ok(after) => (made == [] || !ShortQuarantine(made[|made| - 1])) && QuarantinesStored(after, made + [q])
            case Err(_) => made != [] && ShortQuarantine(made[|made| - 1])
  {
    QuarantinesShort(qs, made);
    NumberedQuarantines(qs);
  }

  lemma OneLifted(qs: seq<Quarantine>, made: seq<Quarantine>, l: Lift)
    requires QuarantinesStored(qs, made) && LiftActive(qs, l).Ok?
    ensures QuarantinesStored(LiftActive(qs, l).value, made)
  {
    QuarantinesShort(qs, made);
    LiftMarks(qs, l);
  }

  /** Over every run the stored decisions are those that were made, numbered from one, up to a first short one. */
  lemma {:induction false} DecisionsAre(evs: seq<Event>)
    ensures DecisionsStored(Run(INITIAL, evs).decisions, Decided(evs))
  {
    if evs != [] {
      var before, ev := evs[..|evs| - 1], evs[|evs| - 1];
      DecisionsAre(before);
      if ev.Decide? { OneMoreDecision(Run(INITIAL, before).decisions, Decided(before), ev.d); }
    }
  }

  /** The same for quarantines, whatever has been lifted of them. */
  lemma {:induction false} QuarantinesAre(evs: seq<Event>)
    ensures QuarantinesStored(Run(INITIAL, evs).quarantines, Raised(evs))
  {
    if evs != [] {
      var before, ev := evs[..|evs| - 1], evs[|evs| - 1];
      QuarantinesAre(before);
      var qs := Run(INITIAL, before).quarantines;
      if ev.Raise? { OneMoreQuarantine(qs, Raised(before), ev.q); }
      if ev.Undo? && LiftActive(qs, ev.l).Ok? { OneLifted(qs, Raised(before), ev.l); }
    }
  }

  /** The `n`-th quarantine is the newest that is not lifted. */
  ghost predicate NewestActive(qs: seq<Quarantine>, n: int) {
    0 <= n < |qs| && qs[n].lifted.None? && forall j :: n < j < |qs| ==> qs[j].lifted.Some?
  }

  /** A lift is entered in the newest quarantine that is not lifted, and nowhere else; without one it fails. */
  lemma LiftMarks(qs: seq<Quarantine>, l: Lift)
    requires QuarantinesNumbered(qs) && QuarantinesReadable(qs)
    ensures match LiftActive(qs, l)
            case Ok(after) => exists n :: NewestActive(qs, n) && after == qs[n := qs[n].(lifted := Some(l))]
            case Err(e) => e == NothingToLift && forall n :: 0 <= n < |qs| ==> qs[n].lifted.Some?
  {
    NumberedQuarantines(qs);
    NewestIsLatest(qs);
    if LatestQuarantine(qs).Some? {
      var n :| NewestActive(qs, n) && qs[n] == LatestQuarantine(qs).value;
      var after := MarkLifted(qs, qs[n], l);
      forall i | 0 <= i < |qs| ensures after[i] == qs[n := qs[n].(lifted := Some(l))][i] {
        assert qs[i].revision == i + 1;
      }
      assert after == qs[n := qs[n].(lifted := Some(l))];
    }
  }

  lemma {:induction false} NewestIsLatest(qs: seq<Quarantine>)
    requires QuarantinesNumbered(qs)
    ensures match LatestQuarantine(qs)
            case Some(q) => exists n :: NewestActive(qs, n) && qs[n] == q
            case None => forall n :: 0 <= n < |qs| ==> qs[n].lifted.Some?
  {
    if qs != [] {
      var last := |qs| - 1;
      var before := qs[..last];
      NewestIsLatest(before);
      NumberedQuarantines(before);
      NumberedQuarantines(qs);
      if qs[last].lifted.None? {
        assert NewestActive(qs, last);
      } else if LatestQuarantine(before).Some? {
        var n :| NewestActive(before, n) && before[n] == LatestQuarantine(before).value;
        assert NewestActive(qs, n);
      }
    }
  }

  /** What the schemas ask beyond the texts: a positive revision. */
  lemma SchemaIff(d: Decision, q: Quarantine)
    ensures DecisionSchema(d) <==> !Short(d) && d.revision >= 1
    ensures QuarantineSchema(q) <==> !ShortQuarantine(q) && q.revision >= 1
  {
  }

  /** Raised on top, lifted from the top; nothing more once a record is stored that cannot be read. */
  function NextStack(made: seq<Quarantine>, stack: seq<Quarantine>, ev: Event): seq<Quarantine> {
    if made != [] && ShortQuarantine(made[|made| - 1]) then stack
    else
      match ev
      case Raise(q) => stack + [q.(revision := |made| + 1, lifted := None)]
      case Undo(_) => if stack != [] then stack[..|stack| - 1] else stack
      case _ => stack
  }

  /** The quarantines in force after a run. */
  function InForce(evs: seq<Event>): seq<Quarantine> {
    if evs == [] then []
    else NextStack(Raised(evs[..|evs| - 1]), InForce(evs[..|evs| - 1]), evs[|evs| - 1])
  }

  lemma RaiseStacks(qs: seq<Quarantine>, made: seq<Quarantine>, q: Quarantine)
    requires QuarantinesStored(qs, made)
    ensures var r := AddQuarantine(qs, q);
            Active(if r.Ok? then r.value else qs) == NextStack(made, Active(qs), Raise(q))
  {
    QuarantinesShort(qs, made);
    if QuarantinesReadable(qs) { RaiseOn(qs, q); }
  }

  lemma RaiseOn(qs: seq<Quarantine>, q: Quarantine)
    requires QuarantinesNumbered(qs) && QuarantinesReadable(qs)
    ensures AddQuarantine(qs, q).Ok?
    ensures Active(AddQuarantine(qs, q).value) == Active(qs) + [q.(revision := |qs| + 1, lifted := None)]
  {
    NumberedQuarantines(qs);
    RaisePushes(qs, q.(revision := |qs| + 1, lifted := None));
  }

  lemma UndoStacks(qs: seq<Quarantine>, made: seq<Quarantine>, l: Lift)
    requires QuarantinesStored(qs, made)
    ensures var r := LiftActive(qs, l);
            Active(if r.Ok? then r.value else qs) == NextStack(made, Active(qs), Undo(l))
  {
    QuarantinesShort(qs, made);
    NumberedQuarantines(qs);
    if LatestQuarantine(qs).Some? { LiftPops(qs, l); }
  }

  lemma {:induction false} ActiveIs(evs: seq<Event>)
    ensures Active(Run(INITIAL, evs).quarantines) == InForce(evs)
  {
    if evs != [] {
      var before, ev := evs[..|evs| - 1], evs[|evs| - 1];
      ActiveIs(before);
      QuarantinesAre(before);
      if ev.Raise? { RaiseStacks(Run(INITIAL, before).quarantines, Raised(before), ev.q); }
      if ev.Undo? { UndoStacks(Run(INITIAL, before).quarantines, Raised(before), ev.l); }
    }
  }

  /** Over every run the quarantines in force are a stack of the raises and lifts of the run. */
  lemma InForceIs(evs: seq<Event>)
    ensures var qs := Run(INITIAL, evs).quarantines;
            Active(qs) == InForce(evs) && (IsQuarantined(qs) <==> InForce(evs) != [])
  {
    ActiveIs(evs);
    QuarantinesAre(evs);
    QuarantinesShort(Run(INITIAL, evs).quarantines, Raised(evs));
    NumberedQuarantines(Run(INITIAL, evs).quarantines);
  }

  // ------------------------------------------------------------------ the stores

  /** Filing a well-keyed claim in the evidence store is the observation step on the document it names. */
  lemma FilingObserves(docs: Documents, c: Claim, ref: Option<Text>, s: State)
    requires Keyed(docs) && WellKeyed(c) && AppendClaim(docs, c, ref).1.None?
    requires s.claim == if c.claimKey in docs then Some(docs[c.claimKey]) else None
    ensures var docs' := AppendClaim(docs, c, ref).0;
            && c.claimKey in docs' && Some(docs'[c.claimKey]) == AfterObserve(s, c, c.records, ref).claim
            && forall k :: k != c.claimKey ==> (k in docs <==> k in docs') && (k in docs ==> docs[k] == docs'[k])
  {
    AppendAllGrows(BaseFor(docs, c).value, c.records, ref);
  }

  type Key = (Text, Text)  // claim key and feature, as in the file name

  function Filed<T>(docs: map<Key, seq<T>>, key: Key): seq<T> {
    if key in docs then docs[key] else []
  }

  class ReviewDecisionStore {
    var docs: map<Key, seq<Decision>>

    constructor ()
      ensures docs == map[]
    {
      docs := map[];
    }

    method Add(input: Decision) returns (r: Result<Decision, StoreError>)
      modifies this
      ensures var key := (input.claimKey, input.feature);
              var after := AddDecision(Filed(old(docs), key), input);
              if after.Err? then r == Err(after.error) && docs == old(docs)
              else docs == old(docs)[key := after.value] && r == Ok(after.value[|after.value| - 1])
    {
      var existing := Filed(docs, (input.claimKey, input.feature));
      if !DecisionsReadable(existing) { return Err(Unreadable); }
      var decision := input.(revision := MaxDecision(existing) + 1);
      docs := docs[(input.claimKey, input.feature) := existing + [decision]];
      r := Ok(decision);
    }
  }

  class QuarantineStore {
    var docs: map<Key, seq<Quarantine>>

    constructor ()
      ensures docs == map[]
    {
      docs := map[];
    }

    method Raise(input: Quarantine) returns (r: Result<Quarantine, StoreError>)
      modifies this
      ensures var key := (input.claimKey, input.feature);
              var after := AddQuarantine(Filed(old(docs), key), input);
              if after.Err? then r == Err(after.error) && docs == old(docs)
              else docs == old(docs)[key := after.value] && r == Ok(after.value[|after.value| - 1])
    {
      var existing := Filed(docs, (input.claimKey, input.feature));
      if !QuarantinesReadable(existing) { return Err(Unreadable); }
      var record := input.(revision := MaxQuarantine(existing) + 1, lifted := None);
      docs := docs[(input.claimKey, input.feature) := existing + [record]];
      r := Ok(record);
    }

    method Lift(claimKey: Text, feature: Text, l: Lift) returns (r: Result<Quarantine, StoreError>)
      modifies this
      ensures var key := (claimKey, feature);
              var after := LiftActive(Filed(old(docs), key), l);
              if after.Err? then r == Err(after.error) && docs == old(docs)
              else docs == old(docs)[key := after.value]
                   && r == Ok(LatestQuarantine(Filed(old(docs), key)).value.(lifted := Some(l)))
    {
      var existing := Filed(docs, (claimKey, feature));
      if !QuarantinesReadable(existing) { return Err(Unreadable); }
      var active := LatestQuarantine(existing);
      if active.None? { return Err(NothingToLift); }
      docs := docs[(claimKey, feature) := MarkLifted(existing, active.value, l)];
      r := Ok(active.value.(lifted := Some(l)));
    }
  }
}

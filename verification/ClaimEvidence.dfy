/**
 * Compatibility claims and their evidence (src/canary/claim.ts), and the store
 * that appends the observations of a run (src/canary/artifact.ts).
 */
module ClaimEvidence {
  import opened CodeUnits
  import opened Wrappers

  datatype Layer = A | B | C

  datatype Kind = DeterministicFakeMatrix | InstalledClient | LiveAccessPath

  datatype Outcome = Passed | Failed | NotRun

  datatype Identity = Identity(
    client: Text, clientVersion: Text, sourceProtocol: Text, protocolRevision: Text, adapterId: Text,
    accessProviderId: Text, authMode: Text, endpointContract: Text, physicalModelId: Text,
    modelFamily: Option<Text>)

  /** `environment` is the printed form, which is what observations are compared by. */
  datatype Evidence = Evidence(
    claimKey: Text, feature: Text, layer: Layer, kind: Kind, fixtureRevision: Text, runnerVersion: Text,
    checkedAt: Text, outcome: Outcome, failureReason: Option<Text>, environment: Option<Text>,
    ref: Option<Text>, timingMs: Option<int>)

  datatype Claim = Claim(claimKey: Text, identity: Identity, feature: Text, records: seq<Evidence>)

  datatype Status = StatusMissing | StatusNotRun | StatusPassed | StatusFailed

  datatype Error = BadKeyPart | Malformed

  const PIPE: Unit := 124
  const VERSION_2: Text := [118, 50]

  // --------------------------------------------------------------- claim keys

  function KeyParts(i: Identity, feature: Text): (parts: seq<Text>)
    ensures |parts| == 11
  {
    [VERSION_2, i.client, i.clientVersion, i.sourceProtocol, i.protocolRevision, i.adapterId, i.accessProviderId,
     i.authMode, i.endpointContract, i.physicalModelId, feature]
  }

  predicate GoodPart(part: Text) { part != [] && PIPE !in part }

  function JoinParts(parts: seq<Text>): Text {
    if parts == [] then [] else if |parts| == 1 then parts[0] else parts[0] + [PIPE] + JoinParts(parts[1..])
  }

  function ClaimKeyFor(i: Identity, feature: Text): Result<Text, Error> {
    var parts := KeyParts(i, feature);
    if forall part :: part in parts ==> GoodPart(part) then Ok(JoinParts(parts)) else Err(BadKeyPart)
  }

  method BuildClaimKey(i: Identity, feature: Text) returns (r: Result<Text, Error>)
    ensures r == ClaimKeyFor(i, feature)
  {
    var parts := KeyParts(i, feature);
    for n := 0 to |parts|
      invariant forall m :: 0 <= m < n ==> GoodPart(parts[m])
    {
      if !GoodPart(parts[n]) { return Err(BadKeyPart); }
    }
    assert forall part :: part in parts ==> GoodPart(part);
    r := Ok(JoinParts(parts));
  }

  lemma {:induction false} SplitParts(ps: seq<Text>)
    requires ps != [] && forall p :: p in ps ==> 124 !in p
    ensures Split(JoinParts(ps), 124) == ps
  {
    if |ps| == 1 {
      SplitHead(ps[0], 124, []);
    } else {
      assert ps[0] in ps;
      SplitHead(ps[0], 124, JoinParts(ps[1..]));
      SplitParts(ps[1..]);
      assert ps == [ps[0]] + ps[1..];
    }
  }

  /** A part of a key can be told from the others. */
  predicate Plain(part: Text) { |part| > 0 && 124 !in part }

  predicate PlainIdentity(i: Identity, feature: Text) {
    && Plain(i.client) && Plain(i.clientVersion) && Plain(i.sourceProtocol) && Plain(i.protocolRevision)
    && Plain(i.adapterId) && Plain(i.accessProviderId) && Plain(i.authMode) && Plain(i.endpointContract)
    && Plain(i.physicalModelId) && Plain(feature)
  }

  lemma AllPlain(i: Identity, feature: Text)
    ensures (forall part :: part in KeyParts(i, feature) ==> GoodPart(part)) <==> PlainIdentity(i, feature)
  {
    var ps := KeyParts(i, feature);
    assert forall n :: 0 <= n < |ps| ==> ps[n] in ps;
    assert ps[1] in ps && ps[2] in ps && ps[3] in ps && ps[4] in ps && ps[5] in ps;
    assert ps[6] in ps && ps[7] in ps && ps[8] in ps && ps[9] in ps && ps[10] in ps;
  }

  /** There is a key exactly if every field but the family is plain, and it is read back field by field. */
  lemma ClaimKeyReads(i: Identity, feature: Text)
    ensures ClaimKeyFor(i, feature).Ok? <==> PlainIdentity(i, feature)
    ensures ClaimKeyFor(i, feature).Ok? ==>
              Split(ClaimKeyFor(i, feature).value, 124) ==
              [[118, 50], i.client, i.clientVersion, i.sourceProtocol, i.protocolRevision, i.adapterId,
               i.accessProviderId, i.authMode, i.endpointContract, i.physicalModelId, feature]
  {
    AllPlain(i, feature);
    if ClaimKeyFor(i, feature).Ok? { SplitParts(KeyParts(i, feature)); }
  }

  /** No claim key is shared by two execution paths or two features; only the model family is left out. */
  lemma ClaimKeyInjective(i: Identity, feature: Text, j: Identity, other: Text)
    requires ClaimKeyFor(i, feature).Ok? && ClaimKeyFor(i, feature) == ClaimKeyFor(j, other)
    ensures feature == other && i.(modelFamily := None) == j.(modelFamily := None)
  {
    ClaimKeyReads(i, feature);
    ClaimKeyReads(j, other);
    var ps, qs := Split(ClaimKeyFor(i, feature).value, 124), Split(ClaimKeyFor(j, other).value, 124);
    assert ps[1] == qs[1] && ps[2] == qs[2] && ps[3] == qs[3] && ps[4] == qs[4] && ps[5] == qs[5];
    assert ps[6] == qs[6] && ps[7] == qs[7] && ps[8] == qs[8] && ps[9] == qs[9] && ps[10] == qs[10];
  }

  // ------------------------------------------------------------------- status

  predicate Any(rs: seq<Evidence>, outcome: Outcome) {
    exists i :: 0 <= i < |rs| && rs[i].outcome == outcome
  }

  predicate Present(rs: seq<Evidence>, layer: Layer) {
    exists i :: 0 <= i < |rs| && rs[i].layer == layer
  }

  predicate SomeIn(rs: seq<Evidence>, layer: Layer, outcome: Outcome) {
    exists i :: 0 <= i < |rs| && rs[i].layer == layer && rs[i].outcome == outcome
  }

  /** Every shipped adapter, and every unknown one, requires all three layers. */
  function RequiredLayers(adapterId: Text): seq<Layer> { [A, B, C] }

  function ClaimStatusFor(c: Claim): Status {
    if c.records == [] then StatusMissing
    else if Any(c.records, Failed) then StatusFailed
    else if exists layer :: layer in RequiredLayers(c.identity.adapterId) && !Present(c.records, layer) then StatusNotRun
    else if Any(c.records, Passed) then StatusPassed
    else StatusNotRun
  }

  function ListStatus(rs: seq<Evidence>): Status {
    if rs == [] then StatusMissing
    else if Any(rs, Failed) then StatusFailed
    else if Any(rs, Passed) then StatusPassed
    else StatusNotRun
  }

  /** What the status of one layer means. */
  function LayerStatus(rs: seq<Evidence>, layer: Layer): Status {
    if !Present(rs, layer) then StatusMissing
    else if SomeIn(rs, layer, Failed) then StatusFailed
    else if SomeIn(rs, layer, Passed) then StatusPassed
    else StatusNotRun
  }

  datatype Layers = Layers(a: Status, b: Status, c: Status)

  function LayersOf(rs: seq<Evidence>): Layers {
    Layers(LayerStatus(rs, A), LayerStatus(rs, B), LayerStatus(rs, C))
  }

  /** What the status of one layer says about its records. */
  ghost predicate LayerRight(rs: seq<Evidence>, layer: Layer, s: Status) {
    && (s == StatusMissing <==> forall e :: e in rs ==> e.layer != layer)
    && (s == StatusFailed <==> exists e :: e in rs && e.layer == layer && e.outcome == Failed)
    && (s == StatusPassed <==> (forall e :: e in rs && e.layer == layer ==> e.outcome != Failed)
                               && exists e :: e in rs && e.layer == layer && e.outcome == Passed)
  }

  lemma LayerIs(rs: seq<Evidence>, layer: Layer)
    ensures LayerRight(rs, layer, LayerStatus(rs, layer))
  {
    forall outcome ensures SomeIn(rs, layer, outcome) <==> exists e :: e in rs && e.layer == layer && e.outcome == outcome {
      if SomeIn(rs, layer, outcome) {
        var i :| 0 <= i < |rs| && rs[i].layer == layer && rs[i].outcome == outcome;
        assert rs[i] in rs;
      }
    }
    assert Present(rs, layer) <==> exists e :: e in rs && e.layer == layer;
  }

  /** Each layer by itself: missing, failed, passed or skipped. */
  lemma LayersAre(rs: seq<Evidence>)
    ensures var l := LayersOf(rs); LayerRight(rs, A, l.a) && LayerRight(rs, B, l.b) && LayerRight(rs, C, l.c)
  {
    LayerIs(rs, A);
    LayerIs(rs, B);
    LayerIs(rs, C);
  }

  /** `list` is the records of one layer among the first `n`, in order. */
  ghost predicate Grouped(rs: seq<Evidence>, n: nat, layer: Layer, list: seq<Evidence>)
    requires n <= |rs|
  {
    && (forall e :: e in list ==> e.layer == layer && e in rs[..n])
    && (forall i :: 0 <= i < n && rs[i].layer == layer ==> rs[i] in list)
  }

  lemma GroupStatus(rs: seq<Evidence>, layer: Layer, list: seq<Evidence>)
    requires Grouped(rs, |rs|, layer, list)
    ensures ListStatus(list) == LayerStatus(rs, layer)
  {
    assert rs[..|rs|] == rs;
    forall outcome ensures Any(list, outcome) <==> SomeIn(rs, layer, outcome) {
      if Any(list, outcome) {
        var i :| 0 <= i < |list| && list[i].outcome == outcome;
        assert list[i] in rs;
      }
    }
    if list != [] {
      assert list[0] in rs;
    }
  }

  method LayerStatuses(c: Claim) returns (r: Layers)
    ensures r == LayersOf(c.records)
  {
    var byLayer: map<Layer, seq<Evidence>> := map[];
    var rs := c.records;
    for n := 0 to |rs|
      invariant forall layer :: Grouped(rs, n, layer, if layer in byLayer then byLayer[layer] else [])
    {
      var list := if rs[n].layer in byLayer then byLayer[rs[n].layer] else [];
      byLayer := byLayer[rs[n].layer := list + [rs[n]]];
      assert rs[..n + 1] == rs[..n] + [rs[n]];
    }
    var a, b, c' := if A in byLayer then byLayer[A] else [], if B in byLayer then byLayer[B] else [], if C in byLayer then byLayer[C] else [];
    GroupStatus(rs, A, a);
    GroupStatus(rs, B, b);
    GroupStatus(rs, C, c');
    r := Layers(ListStatus(a), ListStatus(b), ListStatus(c'));
  }

  /** The status of a claim is a function of the statuses of its layers. */
  function FromLayers(l: Layers): Status {
    var all := {l.a, l.b, l.c};
    if all == {StatusMissing} then StatusMissing
    else if StatusFailed in all then StatusFailed
    else if StatusMissing in all then StatusNotRun
    else if StatusPassed in all then StatusPassed
    else StatusNotRun
  }

  lemma StatusFromLayers(c: Claim)
    ensures ClaimStatusFor(c) == FromLayers(LayersOf(c.records))
  {
    var rs := c.records;
    assert rs != [] ==> Present(rs, rs[0].layer);
    forall outcome ensures Any(rs, outcome) <==> SomeIn(rs, A, outcome) || SomeIn(rs, B, outcome) || SomeIn(rs, C, outcome) {
      if Any(rs, outcome) {
        var i :| 0 <= i < |rs| && rs[i].outcome == outcome;
        assert SomeIn(rs, rs[i].layer, outcome);
      }
    }
  }

  /**
   * The documentation of `claimStatusFor` asks for a passing record in every
   * required layer.  The code agrees with it exactly when no layer stands at
   * "not-run", that is, has records but none that passed or failed.
   */
  lemma PassedAsDocumentedIff(c: Claim)
    requires ClaimStatusFor(c) == StatusPassed
    ensures (forall layer :: layer in RequiredLayers(c.identity.adapterId) ==> SomeIn(c.records, layer, Passed))
            <==> (forall layer :: layer in RequiredLayers(c.identity.adapterId) ==> LayerStatus(c.records, layer) != StatusNotRun)
  {
    StatusFromLayers(c);
    forall layer ensures layer in RequiredLayers(c.identity.adapterId) {
      var required := RequiredLayers(c.identity.adapterId);
      assert required[0] == A && required[1] == B && required[2] == C;
      assert layer.A? || layer.B? || layer.C?;
    }
    forall layer ensures SomeIn(c.records, layer, Passed) <==> LayerStatus(c.records, layer) != StatusNotRun {
      assert Present(c.records, layer);
      assert SomeIn(c.records, layer, Failed) ==> Any(c.records, Failed);
    }
  }

  /** A claim passes on one passed record when the other layers were merely skipped. */
  lemma PassedWithSkippedLayers(c: Claim, a: Evidence, b: Evidence, live: Evidence)
    requires a.layer == A && a.outcome == Passed
    requires b.layer == B && b.outcome == NotRun && live.layer == C && live.outcome == NotRun
    requires c.records == [a, b, live]
    ensures ClaimStatusFor(c) == StatusPassed && !SomeIn(c.records, C, Passed)
  {
    assert c.records[0] == a && c.records[1] == b && c.records[2] == live;
    assert Present(c.records, A) && Present(c.records, B) && Present(c.records, C);
  }

  // ------------------------------------------------------------ observations

  /** Two records of the same observation: all but the claim they are filed under. */
  predicate SameObservation(e: Evidence, f: Evidence) {
    && e.layer == f.layer && e.kind == f.kind && e.outcome == f.outcome && e.failureReason == f.failureReason
    && e.runnerVersion == f.runnerVersion && e.checkedAt == f.checkedAt && e.fixtureRevision == f.fixtureRevision
    && e.ref == f.ref && e.timingMs == f.timingMs && e.environment == f.environment
  }

  /** Records that differ in nothing but key and feature. */
  lemma SameObservationIff(e: Evidence, f: Evidence)
    ensures SameObservation(e, f) <==> e == f.(claimKey := e.claimKey, feature := e.feature)
  {
  }

  predicate Seen(rs: seq<Evidence>, e: Evidence) {
    exists i :: 0 <= i < |rs| && SameObservation(rs[i], e)
  }

  function AppendObservation(c: Claim, e: Evidence): Claim {
    if Seen(c.records, e) then c else c.(records := c.records + [e])
  }

  function WithRef(e: Evidence, ref: Option<Text>): Evidence {
    if ref.None? then e else e.(ref := ref)
  }

  function AppendAll(c: Claim, es: seq<Evidence>, ref: Option<Text>): Claim
    decreases |es|
  {
    if es == [] then c else AppendAll(AppendObservation(c, WithRef(es[0], ref)), es[1..], ref)
  }

  ghost predicate DistinctRecords(rs: seq<Evidence>) {
    forall i, j :: 0 <= i < j < |rs| ==> !SameObservation(rs[i], rs[j])
  }

  /** `d` is `c` with more records at the end. */
  predicate Grows(c: Claim, d: Claim) {
    d == c.(records := d.records) && c.records <= d.records
  }

  lemma {:induction false} AppendAllGrows(c: Claim, es: seq<Evidence>, ref: Option<Text>)
    ensures Grows(c, AppendAll(c, es, ref))
    ensures DistinctRecords(c.records) ==> DistinctRecords(AppendAll(c, es, ref).records)
    ensures forall e :: e in es ==> Seen(AppendAll(c, es, ref).records, WithRef(e, ref))
    decreases |es|
  {
    if es != [] {
      var d := AppendObservation(c, WithRef(es[0], ref));
      AppendAllGrows(d, es[1..], ref);
      var r := AppendAll(d, es[1..], ref);
      assert Seen(d.records, WithRef(es[0], ref)) by {
        assert !Seen(c.records, WithRef(es[0], ref)) ==> SameObservation(d.records[|c.records|], WithRef(es[0], ref));
      }
      SeenGrows(d.records, r.records, WithRef(es[0], ref));
      assert forall e :: e in es ==> e == es[0] || e in es[1..];
    }
  }

  /** `e` as it is filed: under the reference of its run, if that has one. */
  predicate FiledAs(x: Evidence, e: Evidence, ref: Option<Text>) {
    match ref
    case None => x == e
    case Some(_) => x.ref == ref && x == e.(ref := x.ref)
  }

  /** `more` are some of the observations, in their order. */
  ghost predicate Picks(more: seq<Evidence>, es: seq<Evidence>, ref: Option<Text>, ks: seq<int>) {
    && |ks| == |more|
    && (forall i :: 0 <= i < |ks| ==> 0 <= ks[i] < |es| && FiledAs(more[i], es[ks[i]], ref))
    && forall i, j :: 0 <= i < j < |ks| ==> ks[i] < ks[j]
  }

  /** What is added is taken from the observations of the run, in their order, and nothing else is. */
  lemma {:induction false} AppendAllPicks(c: Claim, es: seq<Evidence>, ref: Option<Text>) returns (ks: seq<int>)
    ensures c.records <= AppendAll(c, es, ref).records
    ensures Picks(AppendAll(c, es, ref).records[|c.records|..], es, ref, ks)
    decreases |es|
  {
    if es == [] {
      ks := [];
    } else {
      var d := AppendObservation(c, WithRef(es[0], ref));
      var later := AppendAllPicks(d, es[1..], ref);
      var r := AppendAll(d, es[1..], ref).records;
      ks := Shifted(later);
      PicksShifted(r[|d.records|..], es, ref, later);
      if d != c {
        ks := [0] + ks;
        assert r[|c.records|..] == [WithRef(es[0], ref)] + r[|d.records|..];
      }
    }
  }

  function Shifted(ks: seq<int>): seq<int> { seq(|ks|, i requires 0 <= i < |ks| => ks[i] + 1) }

  lemma PicksShifted(more: seq<Evidence>, es: seq<Evidence>, ref: Option<Text>, ks: seq<int>)
    requires es != [] && Picks(more, es[1..], ref, ks)
    ensures Picks(more, es, ref, Shifted(ks)) && Picks([WithRef(es[0], ref)] + more, es, ref, [0] + Shifted(ks))
  {
    forall i | 0 <= i < |ks| ensures 0 < Shifted(ks)[i] < |es| && FiledAs(more[i], es[Shifted(ks)[i]], ref) {
      assert es[1..][ks[i]] == es[ks[i] + 1];
    }
    PicksHead(more, es, ref, Shifted(ks));
  }

  lemma PicksHead(more: seq<Evidence>, es: seq<Evidence>, ref: Option<Text>, ks: seq<int>)
    requires es != [] && Picks(more, es, ref, ks) && forall i :: 0 <= i < |ks| ==> 0 < ks[i]
    ensures Picks([WithRef(es[0], ref)] + more, es, ref, [0] + ks)
  {
  }

  lemma SeenGrows(rs: seq<Evidence>, more: seq<Evidence>, e: Evidence)
    requires Seen(rs, e) && rs <= more
    ensures Seen(more, e)
  {
    var i :| 0 <= i < |rs| && SameObservation(rs[i], e);
    assert more[i] == rs[i];
  }

  lemma {:induction false} AppendAllNothingNew(c: Claim, es: seq<Evidence>, ref: Option<Text>)
    requires forall e :: e in es ==> Seen(c.records, WithRef(e, ref))
    ensures AppendAll(c, es, ref) == c
  {
    if es != [] {
      assert es[0] in es;
      AppendAllNothingNew(c, es[1..], ref);
    }
  }

  // ----------------------------------------------------------------- the store

  type Documents = map<Text, Claim>

  predicate EvidenceSchema(e: Evidence) {
    e.claimKey != [] && e.fixtureRevision != [] && e.runnerVersion != [] && e.checkedAt != []
  }

  /** What the schema asks of a stored document when it is read. */
  predicate ClaimSchema(c: Claim) {
    && c.claimKey != [] && c.identity.clientVersion != [] && c.identity.protocolRevision != []
    && c.identity.adapterId != [] && c.identity.accessProviderId != [] && c.identity.physicalModelId != []
    && forall i :: 0 <= i < |c.records| ==> EvidenceSchema(c.records[i])
  }

  function LoadClaim(docs: Documents, key: Text): Result<Option<Claim>, Error> {
    if key !in docs then Ok(None)
    else if ClaimSchema(docs[key]) then Ok(Some(docs[key]))
    else Err(Malformed)
  }

  /** A stored document is refused exactly if it or one of its records lacks a text it must have. */
  lemma MalformedIff(docs: Documents, key: Text)
    requires key in docs
    ensures var c := docs[key];
            var i := c.identity;
            && (LoadClaim(docs, key) == Err(Malformed) <==>
                  || [] in [c.claimKey, i.clientVersion, i.protocolRevision, i.adapterId, i.accessProviderId, i.physicalModelId]
                  || exists e :: e in c.records && [] in [e.claimKey, e.fixtureRevision, e.runnerVersion, e.checkedAt])
            && (LoadClaim(docs, key) != Err(Malformed) ==> LoadClaim(docs, key) == Ok(Some(c)))
  {
  }

  function EmptyClaim(i: Identity, feature: Text): Result<Claim, Error> {
    var key := ClaimKeyFor(i, feature);
    if key.Err? then Err(key.error) else Ok(Claim(key.value, i, feature, []))
  }

  /** The document the observations of `c` are added to. */
  function BaseFor(docs: Documents, c: Claim): Result<Claim, Error> {
    var loaded := LoadClaim(docs, c.claimKey);
    if loaded.Err? then Err(loaded.error)
    else if loaded.value.Some? then Ok(loaded.value.value)
    else EmptyClaim(c.identity, c.feature)
  }

  function AppendClaim(docs: Documents, c: Claim, ref: Option<Text>): (Documents, Option<Error>) {
    var base := BaseFor(docs, c);
    if base.Err? then (docs, Some(base.error))
    else
      var doc := AppendAll(base.value, c.records, ref);
      (docs[doc.claimKey := doc], None)
  }

  /** One claim after the other; an error leaves what was written before it. */
  function AppendRun(docs: Documents, cs: seq<Claim>, ref: Option<Text>): (Documents, Option<Error>)
    decreases |cs|
  {
    if cs == [] then (docs, None)
    else
      var first := AppendClaim(docs, cs[0], ref);
      if first.1.Some? then first else AppendRun(first.0, cs[1..], ref)
  }

  class ClaimEvidenceStore {
    var docs: Documents  // by the key the file name is made from

    constructor ()
      ensures docs == map[]
    {
      docs := map[];
    }

    method WriteClaim(doc: Claim)
      modifies this
      ensures docs == old(docs)[doc.claimKey := doc]
    {
      docs := docs[doc.claimKey := doc];
    }

    method AppendRunInPlace(cs: seq<Claim>, ref: Option<Text>) returns (error: Option<Error>)
      modifies this
      ensures (docs, error) == AppendRun(old(docs), cs, ref)
    {
      assert cs[0..] == cs;
      for n := 0 to |cs|
        invariant AppendRun(docs, cs[n..], ref) == AppendRun(old(docs), cs, ref)
      {
        var c := cs[n];
        assert cs[n..][0] == c && cs[n..][1..] == cs[n + 1..];
        var base := BaseFor(docs, c);
        if base.Err? { return Some(base.error); }
        var doc := base.value;
        assert c.records[0..] == c.records;
        for m := 0 to |c.records|
          invariant AppendAll(doc, c.records[m..], ref) == AppendAll(base.value, c.records, ref)
          invariant AppendRun(docs, cs[n..], ref) == AppendRun(old(docs), cs, ref)
          invariant BaseFor(docs, c) == base
        {
          assert c.records[m..][0] == c.records[m] && c.records[m..][1..] == c.records[m + 1..];
          doc := AppendObservation(doc, WithRef(c.records[m], ref));
        }
        assert c.records[|c.records|..] == [];
        WriteClaim(doc);
      }
      assert cs[|cs|..] == [];
      error := None;
    }
  }

  // -------------------------------------------------------------- main results

  ghost predicate Keyed(docs: Documents) {
    forall k :: k in docs ==> docs[k].claimKey == k
  }

  ghost predicate AllDistinct(docs: Documents) {
    forall k :: k in docs ==> DistinctRecords(docs[k].records)
  }

  /** No document goes away, is refiled or loses, changes or reorders a record. */
  ghost predicate Extends(docs: Documents, later: Documents) {
    forall k :: k in docs ==> k in later && Grows(docs[k], later[k])
  }

  /** The claim carries the key of its own identity and feature, or one that cannot be built. */
  predicate WellKeyed(c: Claim) {
    var key := ClaimKeyFor(c.identity, c.feature);
    key.Ok? ==> key.value == c.claimKey
  }

  ghost predicate AllWellKeyed(cs: seq<Claim>) {
    forall c :: c in cs ==> WellKeyed(c)
  }

  /** Filed under its key and free of duplicates, whatever the claims are. */
  lemma AppendClaimKeeps(docs: Documents, c: Claim, ref: Option<Text>)
    requires Keyed(docs)
    ensures Keyed(AppendClaim(docs, c, ref).0)
    ensures AllDistinct(docs) ==> AllDistinct(AppendClaim(docs, c, ref).0)
  {
    if BaseFor(docs, c).Ok? {
      AppendAllGrows(BaseFor(docs, c).value, c.records, ref);
    }
  }

  lemma {:induction false} AppendRunKeeps(docs: Documents, cs: seq<Claim>, ref: Option<Text>)
    requires Keyed(docs)
    ensures Keyed(AppendRun(docs, cs, ref).0)
    ensures AllDistinct(docs) ==> AllDistinct(AppendRun(docs, cs, ref).0)
    decreases |cs|
  {
    if cs != [] {
      AppendClaimKeeps(docs, cs[0], ref);
      if AppendClaim(docs, cs[0], ref).1.None? {
        AppendRunKeeps(AppendClaim(docs, cs[0], ref).0, cs[1..], ref);
      }
    }
  }

  lemma AppendClaimExtends(docs: Documents, c: Claim, ref: Option<Text>)
    requires Keyed(docs) && WellKeyed(c)
    ensures Extends(docs, AppendClaim(docs, c, ref).0)
    ensures AppendClaim(docs, c, ref).1.None? ==> SeenIn(AppendClaim(docs, c, ref).0, c, ref)
  {
    if BaseFor(docs, c).Ok? {
      AppendAllGrows(BaseFor(docs, c).value, c.records, ref);
    }
  }

  /** Every observation of `c` is in the document filed under its key. */
  ghost predicate SeenIn(docs: Documents, c: Claim, ref: Option<Text>) {
    c.claimKey in docs && forall e :: e in c.records ==> Seen(docs[c.claimKey].records, WithRef(e, ref))
  }

  lemma SeenInExtends(docs: Documents, later: Documents, c: Claim, ref: Option<Text>)
    requires SeenIn(docs, c, ref) && Extends(docs, later)
    ensures SeenIn(later, c, ref)
  {
    forall e | e in c.records ensures Seen(later[c.claimKey].records, WithRef(e, ref)) {
      SeenGrows(docs[c.claimKey].records, later[c.claimKey].records, WithRef(e, ref));
    }
  }

  lemma {:induction false} AppendRunExtends(docs: Documents, cs: seq<Claim>, ref: Option<Text>)
    requires Keyed(docs) && AllWellKeyed(cs)
    ensures Extends(docs, AppendRun(docs, cs, ref).0)
    ensures AppendRun(docs, cs, ref).1.None? ==> forall c :: c in cs ==> SeenIn(AppendRun(docs, cs, ref).0, c, ref)
    decreases |cs|
  {
    if cs != [] {
      assert cs[0] in cs;
      var first := AppendClaim(docs, cs[0], ref);
      AppendClaimKeeps(docs, cs[0], ref);
      AppendClaimExtends(docs, cs[0], ref);
      if first.1.None? {
        AppendRunExtends(first.0, cs[1..], ref);
        var last := AppendRun(first.0, cs[1..], ref).0;
        SeenInExtends(first.0, last, cs[0], ref);
        assert forall c :: c in cs ==> c == cs[0] || c in cs[1..];
      }
    }
  }

  /** `n` different observations that meet the schema. */
  function Sample(key: Text, n: nat): seq<Evidence>
    ensures |Sample(key, n)| == n
  {
    seq(n, i requires 0 <= i < n =>
      Evidence(key, VERSION_2, A, InstalledClient, VERSION_2, VERSION_2, VERSION_2, NotRun, None, None, None, Some(i)))
  }

  /** Filing different observations on nothing stores exactly them. */
  lemma {:induction false} AppendAllFresh(c: Claim, es: seq<Evidence>)
    requires DistinctRecords(c.records + es)
    ensures AppendAll(c, es, None) == c.(records := c.records + es)
    decreases |es|
  {
    if es == [] {
      assert c.records + [] == c.records;
    } else {
      var all := c.records + es;
      forall i | 0 <= i < |c.records| ensures !SameObservation(c.records[i], es[0]) {
        assert all[i] == c.records[i] && all[|c.records|] == es[0];
      }
      var d := c.(records := c.records + [es[0]]);
      assert d.records + es[1..] == all;
      AppendAllFresh(d, es[1..]);
    }
  }

  lemma GoodIdentity(i: Identity, feature: Text)
    requires ClaimKeyFor(i, feature).Ok?
    ensures ClaimKeyFor(i, feature).value != [] && i.clientVersion != [] && i.protocolRevision != []
    ensures i.adapterId != [] && i.accessProviderId != [] && i.physicalModelId != []
  {
    var parts := KeyParts(i, feature);
    assert JoinParts(parts) == parts[0] + [PIPE] + JoinParts(parts[1..]);
    assert parts[2] in parts && parts[4] in parts && parts[5] in parts && parts[6] in parts && parts[9] in parts;
  }

  lemma FiledAlone(c: Claim)
    requires ClaimKeyFor(c.identity, c.feature) == Ok(c.claimKey) && DistinctRecords(c.records)
    ensures AppendRun(map[], [c], None) == (map[c.claimKey := c], None)
  {
    assert [] + c.records == c.records;
    AppendAllFresh(c.(records := []), c.records);
    assert [c][1..] == [];
  }

  lemma SampleFiled(i: Identity, feature: Text, n: nat)
    requires ClaimKeyFor(i, feature).Ok?
    ensures var key := ClaimKeyFor(i, feature).value;
            var c := Claim(key, i, feature, Sample(key, n));
            WellKeyed(c) && ClaimSchema(c) && DistinctRecords(c.records) && AppendRun(map[], [c], None) == (map[key := c], None)
  {
    var key := ClaimKeyFor(i, feature).value;
    var c := Claim(key, i, feature, Sample(key, n));
    GoodIdentity(i, feature);
    FiledAlone(c);
  }

  /** The stores that runs of well-keyed claims produce from nothing. */
  ghost predicate Reached(docs: Documents) {
    exists cs, ref :: AllWellKeyed(cs) && docs == AppendRun(map[], cs, ref).0
  }

  /** A store whose documents are in place, without duplicates and readable. */
  ghost predicate Proper(docs: Documents) {
    Keyed(docs) && AllDistinct(docs) && forall k :: k in docs ==> ClaimSchema(docs[k])
  }

  lemma ReachedKeyed(docs: Documents)
    requires Reached(docs)
    ensures Keyed(docs) && AllDistinct(docs)
  {
    var cs, ref :| AllWellKeyed(cs) && docs == AppendRun(map[], cs, ref).0;
    AppendRunKeeps(map[], cs, ref);
  }

  /**
   * Filing one claim keeps every history of every proper store, and of every
   * store that can be reached, exactly when the claim is well keyed: otherwise
   * a new document is written over the one that has the key computed from the
   * identity.
   */
  lemma HistoryKeptIff(c: Claim, ref: Option<Text>)
    ensures WellKeyed(c) <==> forall docs :: Proper(docs) ==> Extends(docs, AppendClaim(docs, c, ref).0)
    ensures WellKeyed(c) <==> forall docs :: Reached(docs) ==> Extends(docs, AppendClaim(docs, c, ref).0)
  {
    if WellKeyed(c) {
      forall docs | Proper(docs) || Reached(docs) ensures Extends(docs, AppendClaim(docs, c, ref).0) {
        if Reached(docs) { ReachedKeyed(docs); }
        AppendClaimExtends(docs, c, ref);
      }
    } else {
      var key := ClaimKeyFor(c.identity, c.feature).value;
      var long := Claim(key, c.identity, c.feature, Sample(key, |c.records| + 1));
      var docs := map[key := long];
      SampleFiled(c.identity, c.feature, |c.records| + 1);
      assert AllWellKeyed([long]) && docs == AppendRun(map[], [long], None).0;
      var empty := Claim(key, c.identity, c.feature, []);
      AppendAllLength(empty, c.records, ref);
      AppendAllGrows(empty, c.records, ref);
      assert AppendClaim(docs, c, ref).0[key] == AppendAll(empty, c.records, ref);
      assert Proper(docs) && Reached(docs) && !Extends(docs, AppendClaim(docs, c, ref).0);
    }
  }

  lemma {:induction false} AppendAllLength(c: Claim, es: seq<Evidence>, ref: Option<Text>)
    ensures |AppendAll(c, es, ref).records| <= |c.records| + |es|
    decreases |es|
  {
    if es != [] {
      AppendAllLength(AppendObservation(c, WithRef(es[0], ref)), es[1..], ref);
    }
  }

  /** Filing the same run again leaves every document as it was, even when the run stopped at an error. */
  lemma {:induction false} AppendRunTwice(docs: Documents, cs: seq<Claim>, ref: Option<Text>)
    requires Keyed(docs) && AllWellKeyed(cs)
    ensures var once := AppendRun(docs, cs, ref).0; AppendRun(once, cs, ref).0 == once
    decreases |cs|
  {
    if cs != [] {
      assert cs[0] in cs;
      var first, once := AppendClaim(docs, cs[0], ref), AppendRun(docs, cs, ref).0;
      AppendRunKeeps(docs, cs, ref);
      AppendClaimKeeps(docs, cs[0], ref);
      AppendClaimExtends(docs, cs[0], ref);
      if first.1.None? {
        AppendRunExtends(docs, cs, ref);
        AppendRunExtends(first.0, cs[1..], ref);
        SeenInExtends(first.0, once, cs[0], ref);
        AppendClaimAgain(once, cs[0], ref);
        AppendRunTwice(first.0, cs[1..], ref);
      }
    }
  }

  lemma AppendClaimAgain(docs: Documents, c: Claim, ref: Option<Text>)
    requires Keyed(docs) && SeenIn(docs, c, ref)
    ensures AppendClaim(docs, c, ref).0 == docs
  {
    if BaseFor(docs, c).Ok? {
      AppendAllNothingNew(docs[c.claimKey], c.records, ref);
    }
  }
}

/**
 * Comparing the snapshot of a provider's catalogue with the reviewed registry
 * (src/registry/catalog-proposal.ts, src/registry/model-registry.ts).
 */
module CatalogDrift {
  import opened CodeUnits
  import opened Wrappers

  datatype Limits = Limits(contextWindow: Option<int>, maxOutput: Option<int>)

  datatype Declared = Declared(tools: Option<bool>, reasoning: Option<bool>, contextWindow: Option<int>, maxOutput: Option<int>)

  /** A reviewed row; `details` is what the comparison does not read. */
  datatype Model = Model(
    logicalId: Text, provider: Text, upstream: Text, family: Option<Text>, limits: Limits,
    tools: bool, reasoning: bool, evidenceRef: Text, details: Text)

  datatype Candidate = Candidate(
    provider: Text, upstream: Text, family: Option<Text>, observedLimits: Option<Limits>, declared: Option<Declared>)

  datatype Change =
    | FamilyChange(trustedFamily: Option<Text>, family: Text)
    | ContextWindowChange(trustedWindow: Option<int>, window: int)
    | MaxOutputChange(trustedOutput: Option<int>, output: int)
    | ToolsChange(tools: bool)
    | ReasoningChange(reasoning: bool)

  datatype Error = MixedProviders | DuplicatePath

  /** The lists are keyed by logical id, the new candidates by access path. */
  datatype Report = Report(
    kept: seq<(Text, Model)>, changed: seq<(Text, (Model, seq<Change>))>, removed: seq<(Text, Model)>,
    unknown: seq<(Text, Candidate)>, refs: seq<(Text, bool)>)

  const SLASH: Unit := 47

  function PathOf(provider: Text, upstream: Text): Text { provider + [SLASH] + upstream }

  // ----------------------------------------------------------------- metadata

  function Either<T>(first: Option<T>, second: Option<T>): Option<T> { if first.Some? then first else second }

  function ObservedWindow(c: Candidate): Option<int> {
    Either(if c.declared.Some? then c.declared.value.contextWindow else None,
           if c.observedLimits.Some? then c.observedLimits.value.contextWindow else None)
  }

  function ObservedOutput(c: Candidate): Option<int> {
    Either(if c.declared.Some? then c.declared.value.maxOutput else None,
           if c.observedLimits.Some? then c.observedLimits.value.maxOutput else None)
  }

  function FamilyPart(m: Model, c: Candidate): seq<Change> {
    if c.family.Some? && c.family != m.family then [FamilyChange(m.family, c.family.value)] else []
  }

  function WindowPart(m: Model, c: Candidate): seq<Change> {
    var window := ObservedWindow(c);
    if window.Some? && window != m.limits.contextWindow then [ContextWindowChange(m.limits.contextWindow, window.value)] else []
  }

  function OutputPart(m: Model, c: Candidate): seq<Change> {
    var output := ObservedOutput(c);
    if output.Some? && output != m.limits.maxOutput then [MaxOutputChange(m.limits.maxOutput, output.value)] else []
  }

  function ToolsPart(m: Model, c: Candidate): seq<Change> {
    if c.declared.Some? && c.declared.value.tools.Some? && c.declared.value.tools.value != m.tools
    then [ToolsChange(c.declared.value.tools.value)] else []
  }

  function ReasoningPart(m: Model, c: Candidate): seq<Change> {
    if c.declared.Some? && c.declared.value.reasoning.Some? && c.declared.value.reasoning.value != m.reasoning
    then [ReasoningChange(c.declared.value.reasoning.value)] else []
  }

  /** Where what the candidate declares or shows differs from what was reviewed. */
  function Changes(m: Model, c: Candidate): seq<Change> {
    FamilyPart(m, c) + WindowPart(m, c) + OutputPart(m, c) + ToolsPart(m, c) + ReasoningPart(m, c)
  }

  /** What the candidate says its window is: what it declares, or else what was observed. */
  predicate SaysWindow(c: Candidate, n: int) {
    if c.declared.Some? && c.declared.value.contextWindow.Some? then c.declared.value.contextWindow == Some(n)
    else c.observedLimits.Some? && c.observedLimits.value.contextWindow == Some(n)
  }

  predicate SaysOutput(c: Candidate, n: int) {
    if c.declared.Some? && c.declared.value.maxOutput.Some? then c.declared.value.maxOutput == Some(n)
    else c.observedLimits.Some? && c.observedLimits.value.maxOutput == Some(n)
  }

  /** A change belongs in the report: the candidate says so, and it is not what was reviewed. */
  predicate Differs(m: Model, c: Candidate, x: Change) {
    match x
    case FamilyChange(t, o) => t == m.family && t != Some(o) && c.family == Some(o)
    case ContextWindowChange(t, o) => t == m.limits.contextWindow && t != Some(o) && SaysWindow(c, o)
    case MaxOutputChange(t, o) => t == m.limits.maxOutput && t != Some(o) && SaysOutput(c, o)
    case ToolsChange(o) => o != m.tools && c.declared.Some? && c.declared.value.tools == Some(o)
    case ReasoningChange(o) => o != m.reasoning && c.declared.Some? && c.declared.value.reasoning == Some(o)
  }

  /** The changes are exactly the differences, field by field of row and candidate. */
  lemma ChangesIff(m: Model, c: Candidate, x: Change)
    ensures x in Changes(m, c) <==> Differs(m, c, x)
  {
    assert x in Changes(m, c) <==>
           x in FamilyPart(m, c) || x in WindowPart(m, c) || x in OutputPart(m, c) || x in ToolsPart(m, c) || x in ReasoningPart(m, c);
  }

  function FieldOrder(x: Change): nat {
    match x
    case FamilyChange(_, _) => 0
    case ContextWindowChange(_, _) => 1
    case MaxOutputChange(_, _) => 2
    case ToolsChange(_) => 3
    case ReasoningChange(_) => 4
  }

  predicate InOrder(xs: seq<Change>) {
    forall i, j :: 0 <= i < j < |xs| ==> FieldOrder(xs[i]) < FieldOrder(xs[j])
  }

  lemma PartsInOrder(xs: seq<Change>, ys: seq<Change>, n: nat)
    requires InOrder(xs) && |ys| <= 1
    requires (forall x :: x in xs ==> FieldOrder(x) < n) && (forall y :: y in ys ==> FieldOrder(y) == n)
    ensures InOrder(xs + ys) && forall x :: x in xs + ys ==> FieldOrder(x) < n + 1
  {
    var all := xs + ys;
    forall i, j | 0 <= i < j < |all| ensures FieldOrder(all[i]) < FieldOrder(all[j]) {
      assert all[i] in xs;
      if j < |xs| { assert all[i] == xs[i] && all[j] == xs[j]; } else { assert all[j] in ys; }
    }
  }

  /** At most one change for a field, in the order of the fields. */
  lemma ChangesInOrder(m: Model, c: Candidate)
    ensures InOrder(Changes(m, c))
  {
    PartsInOrder([], FamilyPart(m, c), 0);
    assert [] + FamilyPart(m, c) == FamilyPart(m, c);
    PartsInOrder(FamilyPart(m, c), WindowPart(m, c), 1);
    PartsInOrder(FamilyPart(m, c) + WindowPart(m, c), OutputPart(m, c), 2);
    PartsInOrder(FamilyPart(m, c) + WindowPart(m, c) + OutputPart(m, c), ToolsPart(m, c), 3);
    PartsInOrder(FamilyPart(m, c) + WindowPart(m, c) + OutputPart(m, c) + ToolsPart(m, c), ReasoningPart(m, c), 4);
  }

  /** Nothing is reported exactly when no value that was declared or observed differs from the reviewed one. */
  lemma NoChangesIff(m: Model, c: Candidate)
    ensures Changes(m, c) == [] <==> forall x :: !Differs(m, c, x)
    ensures Changes(m, c) == [] <==>
            && (c.family.Some? ==> c.family == m.family)
            && (forall n :: SaysWindow(c, n) ==> m.limits.contextWindow == Some(n))
            && (forall n :: SaysOutput(c, n) ==> m.limits.maxOutput == Some(n))
            && (c.declared.Some? ==> c.declared.value.tools in {None, Some(m.tools)})
            && (c.declared.Some? ==> c.declared.value.reasoning in {None, Some(m.reasoning)})
  {
    forall x ensures x in Changes(m, c) <==> Differs(m, c, x) { ChangesIff(m, c, x); }
    if Changes(m, c) != [] {
      assert Changes(m, c)[0] in Changes(m, c);
      assert Differs(m, c, Changes(m, c)[0]);
    } else {
      forall n | SaysWindow(c, n) ensures m.limits.contextWindow == Some(n) {
        assert !Differs(m, c, ContextWindowChange(m.limits.contextWindow, n));
      }
      forall n | SaysOutput(c, n) ensures m.limits.maxOutput == Some(n) {
        assert !Differs(m, c, MaxOutputChange(m.limits.maxOutput, n));
      }
      assert c.family.Some? ==> !Differs(m, c, FamilyChange(m.family, c.family.value));
      if c.declared.Some? {
        var d := c.declared.value;
        assert d.tools.Some? ==> !Differs(m, c, ToolsChange(d.tools.value));
        assert d.reasoning.Some? ==> !Differs(m, c, ReasoningChange(d.reasoning.value));
      }
    }
  }

  method MetadataChanges(m: Model, c: Candidate) returns (changes: seq<Change>)
    ensures changes == Changes(m, c)
  {
    var window, output := ObservedWindow(c), ObservedOutput(c);
    changes := [];
    if c.family.Some? && c.family != m.family {
      changes := changes + [FamilyChange(m.family, c.family.value)];
    }
    assert changes == FamilyPart(m, c);
    if window.Some? && window != m.limits.contextWindow {
      changes := changes + [ContextWindowChange(m.limits.contextWindow, window.value)];
    }
    assert changes == FamilyPart(m, c) + WindowPart(m, c);
    if output.Some? && output != m.limits.maxOutput {
      changes := changes + [MaxOutputChange(m.limits.maxOutput, output.value)];
    }
    assert changes == FamilyPart(m, c) + WindowPart(m, c) + OutputPart(m, c);
    if c.declared.Some? && c.declared.value.tools.Some? && c.declared.value.tools.value != m.tools {
      changes := changes + [ToolsChange(c.declared.value.tools.value)];
    }
    assert changes == FamilyPart(m, c) + WindowPart(m, c) + OutputPart(m, c) + ToolsPart(m, c);
    if c.declared.Some? && c.declared.value.reasoning.Some? && c.declared.value.reasoning.value != m.reasoning {
      changes := changes + [ReasoningChange(c.declared.value.reasoning.value)];
    }
  }

  // ------------------------------------------------------------------- report

  predicate SingleProvider(cs: seq<Candidate>, provider: Text) {
    forall i :: 0 <= i < |cs| ==> cs[i].provider == provider
  }

  predicate DistinctPaths(cs: seq<Candidate>) {
    forall i, j :: 0 <= i < j < |cs| ==> cs[i].upstream != cs[j].upstream
  }

  function Find(cs: seq<Candidate>, upstream: Text): Option<Candidate> {
    if cs == [] then None else if cs[0].upstream == upstream then Some(cs[0]) else Find(cs[1..], upstream)
  }

  /** `findModelEvidence`: a row with this logical id. */
  predicate Reviewed(rows: seq<Model>, id: Text) {
    exists i :: 0 <= i < |rows| && rows[i].logicalId == id
  }

  function AddRef(refs: seq<(Text, bool)>, ref: Text): seq<(Text, bool)> {
    if (ref, true) in refs then refs else refs + [(ref, true)]
  }

  /** What one reviewed row adds to the report. */
  function Add(r: Report, m: Model, provider: Text, cs: seq<Candidate>): Report {
    var c := Find(cs, m.upstream);
    if m.provider != provider then r
    else if c.None? then r.(removed := r.removed + [(m.logicalId, m)])
    else
      var changes := Changes(m, c.value);
      var r' := r.(refs := AddRef(r.refs, m.evidenceRef));
      if changes == [] then r'.(kept := r'.kept + [(m.logicalId, m)])
      else r'.(changed := r'.changed + [(m.logicalId, (m, changes))])
  }

  const EMPTY: Report := Report([], [], [], [], [])

  function Classified(rows: seq<Model>, provider: Text, cs: seq<Candidate>): Report {
    if rows == [] then EMPTY
    else Add(Classified(rows[..|rows| - 1], provider, cs), rows[|rows| - 1], provider, cs)
  }

  function Unreviewed(cs: seq<Candidate>, rows: seq<Model>): seq<(Text, Candidate)> {
    if cs == [] then []
    else
      var c, before := cs[|cs| - 1], Unreviewed(cs[..|cs| - 1], rows);
      if Reviewed(rows, PathOf(c.provider, c.upstream)) then before else before + [(PathOf(c.provider, c.upstream), c)]
  }

  function Drift(cs: seq<Candidate>, provider: Text, rows: seq<Model>): Result<Report, Error> {
    if !SingleProvider(cs, provider) then Err(MixedProviders)
    else if !DistinctPaths(cs) then Err(DuplicatePath)
    else
      var r := Classified(rows, provider, cs);
      Ok(Report(SortByKey(r.kept), SortByKey(r.changed), SortByKey(r.removed), SortByKey(Unreviewed(cs, rows)), SortByKey(r.refs)))
  }

  /** `byId` maps every upstream id among the first `n` candidates to its candidate. */
  ghost predicate Indexed(byId: map<Text, Candidate>, cs: seq<Candidate>, n: nat)
    requires n <= |cs|
  {
    && (forall i :: 0 <= i < n ==> cs[i].upstream in byId && byId[cs[i].upstream] == cs[i])
    && (forall id :: id in byId ==> byId[id] in cs[..n] && byId[id].upstream == id)
  }

  lemma {:induction false} FindIs(cs: seq<Candidate>, upstream: Text)
    requires DistinctPaths(cs)
    ensures Find(cs, upstream).Some? ==> Find(cs, upstream).value in cs && Find(cs, upstream).value.upstream == upstream
    ensures forall c :: c in cs && c.upstream == upstream ==> Find(cs, upstream) == Some(c)
  {
    if cs != [] {
      FindIs(cs[1..], upstream);
      assert forall c :: c in cs ==> c == cs[0] || c in cs[1..];
    }
  }

  lemma IndexMore(byId: map<Text, Candidate>, cs: seq<Candidate>, i: nat)
    requires i < |cs| && Indexed(byId, cs, i) && cs[i].upstream !in byId
    ensures Indexed(byId[cs[i].upstream := cs[i]], cs, i + 1)
    ensures forall j :: 0 <= j < i ==> cs[j].upstream != cs[i].upstream
  {
    assert cs[..i + 1] == cs[..i] + [cs[i]];
  }

  method CheckProvider(cs: seq<Candidate>, provider: Text) returns (single: bool)
    ensures single <==> SingleProvider(cs, provider)
  {
    for i := 0 to |cs|
      invariant forall j :: 0 <= j < i ==> cs[j].provider == provider
    {
      if cs[i].provider != provider { return false; }
    }
    single := true;
  }

  /** Refuses a snapshot of several providers or with a repeated path; else indexes it by upstream id. */
  method IndexSnapshot(cs: seq<Candidate>, provider: Text) returns (r: Result<map<Text, Candidate>, Error>)
    ensures r.Err? ==> r.error == if SingleProvider(cs, provider) then DuplicatePath else MixedProviders
    ensures r.Ok? <==> SingleProvider(cs, provider) && DistinctPaths(cs)
    ensures r.Ok? ==> Indexed(r.value, cs, |cs|)
  {
    var single := CheckProvider(cs, provider);
    if !single { return Err(MixedProviders); }
    var seen: set<Text>, byId: map<Text, Candidate> := {}, map[];
    for i := 0 to |cs|
      invariant seen == byId.Keys
      invariant forall j, k :: 0 <= j < k < i ==> cs[j].upstream != cs[k].upstream
      invariant Indexed(byId, cs, i)
    {
      if cs[i].upstream in seen {
        assert byId[cs[i].upstream] in cs[..i];
        return Err(DuplicatePath);
      }
      IndexMore(byId, cs, i);
      seen := seen + {cs[i].upstream};
      byId := byId[cs[i].upstream := cs[i]];
    }
    r := Ok(byId);
  }

  lemma IndexFinds(byId: map<Text, Candidate>, cs: seq<Candidate>, id: Text)
    requires DistinctPaths(cs) && Indexed(byId, cs, |cs|)
    ensures Find(cs, id) == if id in byId then Some(byId[id]) else None
  {
    FindIs(cs, id);
    assert cs[..|cs|] == cs;
    if Find(cs, id).Some? {
      var i :| 0 <= i < |cs| && cs[i] == Find(cs, id).value;
    }
  }

  method Classify(rows: seq<Model>, provider: Text, cs: seq<Candidate>, byId: map<Text, Candidate>) returns (report: Report)
    requires DistinctPaths(cs) && Indexed(byId, cs, |cs|)
    ensures report == Classified(rows, provider, cs)
  {
    report := EMPTY;
    for i := 0 to |rows|
      invariant report == Classified(rows[..i], provider, cs)
    {
      assert rows[..i + 1][..i] == rows[..i];
      var m := rows[i];
      if m.provider != provider { continue; }
      IndexFinds(byId, cs, m.upstream);
      if m.upstream !in byId {
        report := report.(removed := report.removed + [(m.logicalId, m)]);
        continue;
      }
      report := report.(refs := AddRef(report.refs, m.evidenceRef));
      var changes := MetadataChanges(m, byId[m.upstream]);
      if changes == [] {
        report := report.(kept := report.kept + [(m.logicalId, m)]);
      } else {
        report := report.(changed := report.changed + [(m.logicalId, (m, changes))]);
      }
    }
    assert rows[..|rows|] == rows;
  }

  method Propose(cs: seq<Candidate>, provider: Text, rows: seq<Model>) returns (r: Result<Report, Error>)
    ensures r == Drift(cs, provider, rows)
  {
    var index := IndexSnapshot(cs, provider);
    if index.Err? { return Err(index.error); }
    var report := Classify(rows, provider, cs, index.value);
    var unknown: seq<(Text, Candidate)> := [];
    for i := 0 to |cs|
      invariant unknown == Unreviewed(cs[..i], rows)
    {
      assert cs[..i + 1][..i] == cs[..i];
      if !Reviewed(rows, PathOf(cs[i].provider, cs[i].upstream)) {
        unknown := unknown + [(PathOf(cs[i].provider, cs[i].upstream), cs[i])];
      }
    }
    assert cs[..|cs|] == cs;
    r := Ok(Report(SortByKey(report.kept), SortByKey(report.changed), SortByKey(report.removed),
                   SortByKey(unknown), SortByKey(report.refs)));
  }

  // ------------------------------------------------- what the lists are to hold

  /** The row is of the provider, and the snapshot holds its upstream id as `c`. */
  ghost predicate Matched(m: Model, c: Candidate, cs: seq<Candidate>, provider: Text, rows: seq<Model>) {
    m in rows && m.provider == provider && c in cs && c.upstream == m.upstream
  }

  ghost predicate Absent(m: Model, cs: seq<Candidate>) {
    forall c :: c in cs ==> c.upstream != m.upstream
  }

  ghost predicate KeptRight(list: seq<(Text, Model)>, cs: seq<Candidate>, provider: Text, rows: seq<Model>) {
    forall k, m :: (k, m) in list <==> k == m.logicalId && exists c :: Matched(m, c, cs, provider, rows) && Changes(m, c) == []
  }

  ghost predicate ChangedRight(list: seq<(Text, (Model, seq<Change>))>, cs: seq<Candidate>, provider: Text, rows: seq<Model>) {
    forall k: Text, m: Model, ch: seq<Change> :: (k, (m, ch)) in list <==>
      k == m.logicalId && ch != [] && exists c :: Matched(m, c, cs, provider, rows) && Changes(m, c) == ch
  }

  ghost predicate RemovedRight(list: seq<(Text, Model)>, cs: seq<Candidate>, provider: Text, rows: seq<Model>) {
    forall k, m :: (k, m) in list <==> k == m.logicalId && m in rows && m.provider == provider && Absent(m, cs)
  }

  /** Some matched row refers to this evidence. */
  ghost predicate RefNeeded(ref: Text, cs: seq<Candidate>, provider: Text, rows: seq<Model>) {
    exists m, c :: Matched(m, c, cs, provider, rows) && m.evidenceRef == ref
  }

  ghost predicate RefsRight(list: seq<(Text, bool)>, cs: seq<Candidate>, provider: Text, rows: seq<Model>) {
    forall e :: e in list <==> e.1 && RefNeeded(e.0, cs, provider, rows)
  }

  ghost predicate UnknownRight(list: seq<(Text, Candidate)>, cs: seq<Candidate>, rows: seq<Model>) {
    forall k, c :: (k, c) in list <==> c in cs && k == PathOf(c.provider, c.upstream) && !Reviewed(rows, k)
  }

  /** Sorted by distinct keys, and right. */
  ghost predicate ReportRight(r: Report, cs: seq<Candidate>, provider: Text, rows: seq<Model>) {
    && Sorted(r.kept) && Sorted(r.changed) && Sorted(r.removed) && Sorted(r.unknown) && Sorted(r.refs)
    && KeptRight(r.kept, cs, provider, rows) && ChangedRight(r.changed, cs, provider, rows)
    && RemovedRight(r.removed, cs, provider, rows) && RefsRight(r.refs, cs, provider, rows)
    && UnknownRight(r.unknown, cs, rows)
  }

  // ------------------------------------------------------------ well-formedness

  /** Logical ids are access paths and are not repeated. */
  ghost predicate GoodRegistry(rows: seq<Model>) {
    && (forall m :: m in rows ==> m.logicalId == PathOf(m.provider, m.upstream))
    && (forall i, j :: 0 <= i < j < |rows| ==> rows[i].logicalId != rows[j].logicalId)
  }

  lemma GoodPrefix(rows: seq<Model>, n: nat)
    requires GoodRegistry(rows) && n <= |rows|
    ensures GoodRegistry(rows[..n])
    ensures n < |rows| ==> forall m :: m in rows[..n] ==> m.logicalId != rows[n].logicalId
  {
  }

  // ------------------------------------------------------- membership of the lists

  predicate Here(m: Model, provider: Text, cs: seq<Candidate>) {
    m.provider == provider && Find(cs, m.upstream).Some?
  }

  function ChangesOf(m: Model, cs: seq<Candidate>): seq<Change>
    requires Find(cs, m.upstream).Some?
  {
    Changes(m, Find(cs, m.upstream).value)
  }

  lemma {:induction false} KeptMembers(rows: seq<Model>, provider: Text, cs: seq<Candidate>)
    ensures forall k, m: Model :: (k, m) in Classified(rows, provider, cs).kept <==>
              k == m.logicalId && m in rows && Here(m, provider, cs) && ChangesOf(m, cs) == []
  {
    if rows != [] {
      KeptMembers(rows[..|rows| - 1], provider, cs);
      assert rows == rows[..|rows| - 1] + [rows[|rows| - 1]];
    }
  }

  lemma {:induction false} ChangedMembers(rows: seq<Model>, provider: Text, cs: seq<Candidate>)
    ensures forall k, m: Model, ch: seq<Change> :: (k, (m, ch)) in Classified(rows, provider, cs).changed <==>
              k == m.logicalId && m in rows && Here(m, provider, cs) && ChangesOf(m, cs) == ch && ch != []
  {
    if rows != [] {
      ChangedMembers(rows[..|rows| - 1], provider, cs);
      assert rows == rows[..|rows| - 1] + [rows[|rows| - 1]];
    }
  }

  lemma {:induction false} RemovedMembers(rows: seq<Model>, provider: Text, cs: seq<Candidate>)
    ensures forall k, m: Model :: (k, m) in Classified(rows, provider, cs).removed <==>
              k == m.logicalId && m in rows && m.provider == provider && Find(cs, m.upstream).None?
  {
    if rows != [] {
      RemovedMembers(rows[..|rows| - 1], provider, cs);
      assert rows == rows[..|rows| - 1] + [rows[|rows| - 1]];
    }
  }

  ghost predicate RefOf(ref: Text, rows: seq<Model>, provider: Text, cs: seq<Candidate>) {
    exists m :: m in rows && Here(m, provider, cs) && m.evidenceRef == ref
  }

  lemma RefOfMore(ref: Text, rows: seq<Model>, m: Model, provider: Text, cs: seq<Candidate>)
    ensures RefOf(ref, rows + [m], provider, cs) <==>
            RefOf(ref, rows, provider, cs) || (Here(m, provider, cs) && m.evidenceRef == ref)
  {
    if RefOf(ref, rows + [m], provider, cs) {
      var n :| n in rows + [m] && Here(n, provider, cs) && n.evidenceRef == ref;
      assert n in rows || n == m;
    }
    if RefOf(ref, rows, provider, cs) {
      var n :| n in rows && Here(n, provider, cs) && n.evidenceRef == ref;
      assert n in rows + [m];
    }
    assert m in rows + [m];
  }

  lemma {:induction false} RefMembers(rows: seq<Model>, provider: Text, cs: seq<Candidate>)
    ensures forall e: (Text, bool) :: e in Classified(rows, provider, cs).refs <==> e.1 && RefOf(e.0, rows, provider, cs)
  {
    if rows != [] {
      var before, last := rows[..|rows| - 1], rows[|rows| - 1];
      RefMembers(before, provider, cs);
      assert rows == before + [last];
      forall ref ensures RefOf(ref, rows, provider, cs) <==>
                         RefOf(ref, before, provider, cs) || (Here(last, provider, cs) && last.evidenceRef == ref) {
        RefOfMore(ref, before, last, provider, cs);
      }
    }
  }

  ghost predicate AllTrue(refs: seq<(Text, bool)>) {
    forall i :: 0 <= i < |refs| ==> refs[i].1
  }

  lemma AddRefDistinct(refs: seq<(Text, bool)>, ref: Text)
    requires AllTrue(refs) && Distinct(refs)
    ensures AllTrue(AddRef(refs, ref)) && Distinct(AddRef(refs, ref))
  {
    if (ref, true) !in refs {
      forall i | 0 <= i < |refs| ensures refs[i].0 != ref {
        assert refs[i] in refs && refs[i] == (refs[i].0, true);
      }
    }
  }

  lemma {:induction false} RefsDistinct(rows: seq<Model>, provider: Text, cs: seq<Candidate>)
    ensures AllTrue(Classified(rows, provider, cs).refs) && Distinct(Classified(rows, provider, cs).refs)
  {
    if rows != [] {
      var before, last := rows[..|rows| - 1], rows[|rows| - 1];
      RefsDistinct(before, provider, cs);
      AddRefDistinct(Classified(before, provider, cs).refs, last.evidenceRef);
    }
  }

  lemma {:induction false} UnknownMembers(cs: seq<Candidate>, rows: seq<Model>)
    ensures UnknownRight(Unreviewed(cs, rows), cs, rows)
  {
    if cs != [] {
      UnknownMembers(cs[..|cs| - 1], rows);
      assert cs == cs[..|cs| - 1] + [cs[|cs| - 1]];
    }
  }

  lemma HereMeans(m: Model, cs: seq<Candidate>, provider: Text, rows: seq<Model>)
    requires DistinctPaths(cs) && m in rows
    ensures Here(m, provider, cs) <==> exists c :: Matched(m, c, cs, provider, rows)
    ensures Here(m, provider, cs) ==> Matched(m, Find(cs, m.upstream).value, cs, provider, rows)
    ensures forall c :: Matched(m, c, cs, provider, rows) ==> Find(cs, m.upstream) == Some(c)
    ensures m.provider == provider ==> (Here(m, provider, cs) <==> !Absent(m, cs))
  {
    FindIs(cs, m.upstream);
    if Here(m, provider, cs) {
      assert Matched(m, Find(cs, m.upstream).value, cs, provider, rows);
    }
  }

  // ----------------------------------------------------------- order and keys

  lemma {:induction false} ListsDistinct(rows: seq<Model>, provider: Text, cs: seq<Candidate>)
    requires GoodRegistry(rows)
    ensures var r := Classified(rows, provider, cs); Distinct(r.kept) && Distinct(r.changed) && Distinct(r.removed)
  {
    if rows != [] {
      var before := rows[..|rows| - 1];
      GoodPrefix(rows, |rows| - 1);
      ListsDistinct(before, provider, cs);
      KeysBefore(before, provider, cs);
    }
  }

  lemma KeysBefore(rows: seq<Model>, provider: Text, cs: seq<Candidate>)
    ensures var r := Classified(rows, provider, cs);
            && (forall i :: 0 <= i < |r.kept| ==> exists m :: m in rows && m.logicalId == r.kept[i].0)
            && (forall i :: 0 <= i < |r.changed| ==> exists m :: m in rows && m.logicalId == r.changed[i].0)
            && (forall i :: 0 <= i < |r.removed| ==> exists m :: m in rows && m.logicalId == r.removed[i].0)
  {
    KeptMembers(rows, provider, cs);
    ChangedMembers(rows, provider, cs);
    RemovedMembers(rows, provider, cs);
    var r := Classified(rows, provider, cs);
    forall i | 0 <= i < |r.kept| ensures exists m :: m in rows && m.logicalId == r.kept[i].0 {
      assert (r.kept[i].0, r.kept[i].1) in r.kept;
    }
    forall i | 0 <= i < |r.changed| ensures exists m :: m in rows && m.logicalId == r.changed[i].0 {
      assert (r.changed[i].0, (r.changed[i].1.0, r.changed[i].1.1)) in r.changed;
    }
    forall i | 0 <= i < |r.removed| ensures exists m :: m in rows && m.logicalId == r.removed[i].0 {
      assert (r.removed[i].0, r.removed[i].1) in r.removed;
    }
  }

  lemma {:induction false} UnknownDistinct(cs: seq<Candidate>, provider: Text, rows: seq<Model>)
    requires DistinctPaths(cs) && SingleProvider(cs, provider)
    ensures Distinct(Unreviewed(cs, rows))
  {
    if cs != [] {
      var before, last := cs[..|cs| - 1], cs[|cs| - 1];
      UnknownDistinct(before, provider, rows);
      UnknownMembers(before, rows);
      var list := Unreviewed(before, rows);
      forall i | 0 <= i < |list| ensures list[i].0 != PathOf(last.provider, last.upstream) {
        assert (list[i].0, list[i].1) in list;
        var c := list[i].1;
        assert c in before && list[i].0 == PathOf(provider, c.upstream);
        if list[i].0 == PathOf(provider, last.upstream) {
          Cancel(provider + [SLASH], c.upstream, last.upstream);
        }
      }
    }
  }

  // -------------------------------------------------------------- main results

  /** What the report says of every row and every candidate. */
  lemma DriftRight(cs: seq<Candidate>, provider: Text, rows: seq<Model>)
    requires GoodRegistry(rows) && Drift(cs, provider, rows).Ok?
    ensures ReportRight(Drift(cs, provider, rows).value, cs, provider, rows)
  {
    var r := Classified(rows, provider, cs);
    KeptMembers(rows, provider, cs);
    ChangedMembers(rows, provider, cs);
    RemovedMembers(rows, provider, cs);
    RefMembers(rows, provider, cs);
    RefsDistinct(rows, provider, cs);
    UnknownMembers(cs, rows);
    ListsDistinct(rows, provider, cs);
    UnknownDistinct(cs, provider, rows);
    SortSorts(r.kept);
    SortSorts(r.changed);
    SortSorts(r.removed);
    SortSorts(r.refs);
    SortSorts(Unreviewed(cs, rows));
    forall m | m in rows
      ensures Here(m, provider, cs) <==> exists c :: Matched(m, c, cs, provider, rows)
      ensures Here(m, provider, cs) ==> Matched(m, Find(cs, m.upstream).value, cs, provider, rows)
      ensures forall c :: Matched(m, c, cs, provider, rows) ==> Find(cs, m.upstream) == Some(c)
      ensures m.provider == provider ==> (Here(m, provider, cs) <==> !Absent(m, cs))
    {
      HereMeans(m, cs, provider, rows);
    }
  }

  // ---- order of the inputs

  lemma {:induction false} TwiceCounted(cs: seq<Candidate>, c: Candidate)
    ensures multiset(cs)[c] >= 2 <==> exists i, j :: 0 <= i < j < |cs| && cs[i] == c && cs[j] == c
  {
    if cs != [] {
      var n := |cs| - 1;
      TwiceCounted(cs[..n], c);
      assert cs == cs[..n] + [cs[n]];
      assert multiset(cs) == multiset(cs[..n]) + multiset{cs[n]};
      if multiset(cs)[c] >= 2 && multiset(cs[..n])[c] < 2 {
        assert c in multiset(cs[..n]);
        var i :| 0 <= i < n && cs[..n][i] == c;
        assert cs[i] == c && cs[n] == c;
      }
      if i, j :| 0 <= i < j < |cs| && cs[i] == c && cs[j] == c {
        assert cs[..n][i] == c;
        if j < n { assert cs[..n][j] == c; }
      }
    }
  }

  lemma DistinctByCount(cs: seq<Candidate>)
    ensures DistinctPaths(cs) <==>
            (forall c :: c in cs ==> multiset(cs)[c] < 2)
            && (forall c, d :: c in cs && d in cs && c != d ==> c.upstream != d.upstream)
  {
    forall c ensures multiset(cs)[c] >= 2 <==> exists i, j :: 0 <= i < j < |cs| && cs[i] == c && cs[j] == c {
      TwiceCounted(cs, c);
    }
  }

  lemma SameCandidates(cs: seq<Candidate>, ds: seq<Candidate>, provider: Text)
    requires multiset(cs) == multiset(ds)
    ensures forall c :: c in cs <==> c in ds
    ensures SingleProvider(cs, provider) <==> SingleProvider(ds, provider)
    ensures DistinctPaths(cs) <==> DistinctPaths(ds)
  {
    forall c ensures c in cs <==> c in ds {
      assert c in cs <==> c in multiset(cs);
      assert c in ds <==> c in multiset(ds);
    }
    assert SingleProvider(cs, provider) <==> forall c :: c in cs ==> c.provider == provider;
    assert SingleProvider(ds, provider) <==> forall c :: c in ds ==> c.provider == provider;
    DistinctByCount(cs);
    DistinctByCount(ds);
  }

  lemma MatchedSame(cs: seq<Candidate>, ds: seq<Candidate>, provider: Text, rows: seq<Model>, others: seq<Model>)
    requires forall c :: c in cs <==> c in ds
    requires forall m :: m in rows <==> m in others
    ensures forall m, c :: Matched(m, c, cs, provider, rows) <==> Matched(m, c, ds, provider, others)
    ensures forall m :: Absent(m, cs) <==> Absent(m, ds)
    ensures forall id :: Reviewed(rows, id) <==> Reviewed(others, id)
  {
    forall id ensures Reviewed(rows, id) <==> Reviewed(others, id) {
      if Reviewed(rows, id) {
        var i :| 0 <= i < |rows| && rows[i].logicalId == id;
        assert rows[i] in others;
      }
      if Reviewed(others, id) {
        var i :| 0 <= i < |others| && others[i].logicalId == id;
        assert others[i] in rows;
      }
    }
  }

  lemma SameKept(r: Report, s: Report, cs: seq<Candidate>, ds: seq<Candidate>, provider: Text, rows: seq<Model>, others: seq<Model>)
    requires forall m, c :: Matched(m, c, cs, provider, rows) <==> Matched(m, c, ds, provider, others)
    requires KeptRight(r.kept, cs, provider, rows) && KeptRight(s.kept, ds, provider, others) && Sorted(r.kept) && Sorted(s.kept)
    requires ChangedRight(r.changed, cs, provider, rows) && ChangedRight(s.changed, ds, provider, others)
    requires Sorted(r.changed) && Sorted(s.changed)
    ensures r.kept == s.kept && r.changed == s.changed
  {
    forall e ensures e in r.kept <==> e in s.kept {
      assert e == (e.0, e.1);
    }
    SortedSame(r.kept, s.kept);
    forall e ensures e in r.changed <==> e in s.changed {
      assert e == (e.0, (e.1.0, e.1.1));
    }
    SortedSame(r.changed, s.changed);
  }

  lemma SameRefs(r: seq<(Text, bool)>, s: seq<(Text, bool)>, cs: seq<Candidate>, ds: seq<Candidate>, provider: Text, rows: seq<Model>, others: seq<Model>)
    requires forall m, c :: Matched(m, c, cs, provider, rows) <==> Matched(m, c, ds, provider, others)
    requires RefsRight(r, cs, provider, rows) && RefsRight(s, ds, provider, others) && Sorted(r) && Sorted(s)
    ensures r == s
  {
    forall e: (Text, bool) ensures e in r <==> e in s {
      if e in r {
        var m, c :| Matched(m, c, cs, provider, rows) && m.evidenceRef == e.0;
        assert Matched(m, c, ds, provider, others);
      }
      if e in s {
        var m, c :| Matched(m, c, ds, provider, others) && m.evidenceRef == e.0;
        assert Matched(m, c, cs, provider, rows);
      }
    }
    SortedSame(r, s);
  }

  /** Reordering the snapshot or the registry changes nothing, neither the report nor the refusal. */
  lemma OrderIsImmaterial(cs: seq<Candidate>, ds: seq<Candidate>, provider: Text, rows: seq<Model>, others: seq<Model>)
    requires multiset(cs) == multiset(ds) && GoodRegistry(rows) && GoodRegistry(others)
    requires forall m :: m in rows <==> m in others
    ensures Drift(cs, provider, rows) == Drift(ds, provider, others)
  {
    SameCandidates(cs, ds, provider);
    if Drift(cs, provider, rows).Ok? {
      var r, s := Drift(cs, provider, rows).value, Drift(ds, provider, others).value;
      DriftRight(cs, provider, rows);
      DriftRight(ds, provider, others);
      MatchedSame(cs, ds, provider, rows, others);
      SameKept(r, s, cs, ds, provider, rows, others);
      SortedSame(r.removed, s.removed);
      SortedSame(r.unknown, s.unknown);
      SameRefs(r.refs, s.refs, cs, ds, provider, rows, others);
    }
  }

  // ---- conservation

  function OfProvider(rows: seq<Model>, provider: Text): seq<Model> {
    if rows == [] then []
    else
      var m, before := rows[|rows| - 1], OfProvider(rows[..|rows| - 1], provider);
      if m.provider == provider then before + [m] else before
  }

  /** Every reviewed row of the provider stands in one of three lists, once. */
  lemma {:induction false} RowsConserved(rows: seq<Model>, provider: Text, cs: seq<Candidate>)
    ensures var r := Classified(rows, provider, cs);
            |r.kept| + |r.changed| + |r.removed| == |OfProvider(rows, provider)|
  {
    if rows != [] { RowsConserved(rows[..|rows| - 1], provider, cs); }
  }

  function HerePaths(rows: seq<Model>, provider: Text, cs: seq<Candidate>): set<Text> {
    set m | m in rows && Here(m, provider, cs) :: m.upstream
  }

  function ReviewedPaths(cs: seq<Candidate>, rows: seq<Model>): set<Text> {
    set c | c in cs && Reviewed(rows, PathOf(c.provider, c.upstream)) :: c.upstream
  }

  lemma HereMore(rows: seq<Model>, m: Model, provider: Text, cs: seq<Candidate>)
    ensures HerePaths(rows + [m], provider, cs) == HerePaths(rows, provider, cs) + if Here(m, provider, cs) then {m.upstream} else {}
  {
    assert m in rows + [m];
    assert forall n :: n in rows + [m] <==> n in rows || n == m;
  }

  lemma HereFresh(rows: seq<Model>, m: Model, provider: Text, cs: seq<Candidate>)
    requires GoodRegistry(rows + [m]) && m.provider == provider
    ensures m.upstream !in HerePaths(rows, provider, cs)
  {
    var all := rows + [m];
    assert all[|rows|] == m;
    forall n | n in rows && n.provider == provider ensures n.upstream != m.upstream {
      var i :| 0 <= i < |rows| && rows[i] == n;
      assert all[i] == n && n in all && m in all;
      assert all[i].logicalId != all[|rows|].logicalId;
    }
  }

  lemma {:induction false} HereCount(rows: seq<Model>, provider: Text, cs: seq<Candidate>)
    requires GoodRegistry(rows)
    ensures var r := Classified(rows, provider, cs); |r.kept| + |r.changed| == |HerePaths(rows, provider, cs)|
  {
    if rows != [] {
      var before, m := rows[..|rows| - 1], rows[|rows| - 1];
      GoodPrefix(rows, |rows| - 1);
      HereCount(before, provider, cs);
      assert rows == before + [m];
      HereMore(before, m, provider, cs);
      if m.provider == provider { HereFresh(before, m, provider, cs); }
    }
  }

  lemma {:induction false} ReviewedCount(cs: seq<Candidate>, rows: seq<Model>)
    requires DistinctPaths(cs)
    ensures |Unreviewed(cs, rows)| + |ReviewedPaths(cs, rows)| == |cs|
  {
    if cs != [] {
      var before, c := cs[..|cs| - 1], cs[|cs| - 1];
      ReviewedCount(before, rows);
      assert cs == before + [c];
      if Reviewed(rows, PathOf(c.provider, c.upstream)) {
        assert c.upstream !in ReviewedPaths(before, rows);
        assert ReviewedPaths(cs, rows) == ReviewedPaths(before, rows) + {c.upstream};
      } else {
        assert ReviewedPaths(cs, rows) == ReviewedPaths(before, rows);
      }
    }
  }

  /** A row of another provider whose logical id is the path of the candidate. */
  ghost predicate Shadowed(c: Candidate, rows: seq<Model>) {
    exists m :: m in rows && m.provider != c.provider && m.logicalId == PathOf(c.provider, c.upstream)
  }

  lemma ReviewedMeans(c: Candidate, provider: Text, rows: seq<Model>)
    requires GoodRegistry(rows) && c.provider == provider
    ensures Reviewed(rows, PathOf(provider, c.upstream)) <==>
            Shadowed(c, rows) || exists m :: m in rows && m.provider == provider && m.upstream == c.upstream
  {
    if Reviewed(rows, PathOf(provider, c.upstream)) {
      var i :| 0 <= i < |rows| && rows[i].logicalId == PathOf(provider, c.upstream);
      assert rows[i] in rows;
      if rows[i].provider == provider {
        Cancel(provider + [SLASH], rows[i].upstream, c.upstream);
      }
    }
    if m :| m in rows && m.provider == provider && m.upstream == c.upstream {
      assert m.logicalId == PathOf(provider, c.upstream);
    }
  }

  /** A candidate is in no list of the report exactly when a row of another provider has its path for an id. */
  lemma LostIff(cs: seq<Candidate>, provider: Text, rows: seq<Model>, c: Candidate)
    requires GoodRegistry(rows) && Drift(cs, provider, rows).Ok? && c in cs
    requires !exists m :: m in rows && m.provider == provider && m.upstream == c.upstream
    ensures (PathOf(provider, c.upstream), c) !in Drift(cs, provider, rows).value.unknown <==> Shadowed(c, rows)
  {
    DriftRight(cs, provider, rows);
    ReviewedMeans(c, provider, rows);
  }

  /** Provider "a" offers "b/c" while a row of provider "a/b" reviews "c". */
  lemma ShadowArises(c: Candidate, m: Model)
    requires c.provider == [97] && c.upstream == [98, SLASH, 99]
    requires m.provider == [97, SLASH, 98] && m.upstream == [99] && m.logicalId == PathOf(m.provider, m.upstream)
    ensures GoodRegistry([m]) && Drift([c], c.provider, [m]).Ok?
    ensures Drift([c], c.provider, [m]).value == EMPTY
  {
    assert PathOf(c.provider, c.upstream) == PathOf(m.provider, m.upstream);
    var rows, cs := [m], [c];
    assert Reviewed(rows, PathOf(c.provider, c.upstream)) by { assert rows[0].logicalId == PathOf(c.provider, c.upstream); }
    assert rows[..0] == [] && cs[..0] == [];
    assert Classified(rows, c.provider, cs) == EMPTY;
    assert Unreviewed(cs, rows) == [];
  }

  /** Provider ids without a slash cannot shadow one another. */
  lemma SlashFreeNotShadowed(c: Candidate, rows: seq<Model>)
    requires GoodRegistry(rows) && SLASH !in c.provider && forall m :: m in rows ==> SLASH !in m.provider
    ensures !Shadowed(c, rows)
  {
    if Shadowed(c, rows) {
      var m :| m in rows && m.provider != c.provider && m.logicalId == PathOf(c.provider, c.upstream);
      SplitAtFirst(SLASH, m.provider, m.upstream, c.provider, c.upstream);
    }
  }

  /** Nothing is lost: the rows of the provider and the candidates of the snapshot are each accounted for once. */
  lemma DriftConserves(cs: seq<Candidate>, provider: Text, rows: seq<Model>)
    requires GoodRegistry(rows) && Drift(cs, provider, rows).Ok?
    requires SLASH !in provider && forall m :: m in rows ==> SLASH !in m.provider
    ensures var r := Drift(cs, provider, rows).value;
            && |r.kept| + |r.changed| + |r.removed| == |OfProvider(rows, provider)|
            && |r.kept| + |r.changed| + |r.unknown| == |cs|
  {
    RowsConserved(rows, provider, cs);
    HereCount(rows, provider, cs);
    ReviewedCount(cs, rows);
    forall u ensures u in HerePaths(rows, provider, cs) <==> u in ReviewedPaths(cs, rows) {
      SamePaths(cs, provider, rows, u);
    }
    assert HerePaths(rows, provider, cs) == ReviewedPaths(cs, rows);
  }

  lemma SamePaths(cs: seq<Candidate>, provider: Text, rows: seq<Model>, u: Text)
    requires GoodRegistry(rows) && SingleProvider(cs, provider) && DistinctPaths(cs)
    requires SLASH !in provider && forall m :: m in rows ==> SLASH !in m.provider
    ensures u in HerePaths(rows, provider, cs) <==> u in ReviewedPaths(cs, rows)
  {
    FindIs(cs, u);
    if u in HerePaths(rows, provider, cs) {
      var m :| m in rows && Here(m, provider, cs) && m.upstream == u;
      var c := Find(cs, u).value;
      ReviewedMeans(c, provider, rows);
      assert c in cs && Reviewed(rows, PathOf(c.provider, c.upstream));
    }
    if u in ReviewedPaths(cs, rows) {
      var c :| c in cs && Reviewed(rows, PathOf(c.provider, c.upstream)) && c.upstream == u;
      SlashFreeNotShadowed(c, rows);
      ReviewedMeans(c, provider, rows);
      var m :| m in rows && m.provider == provider && m.upstream == c.upstream;
      assert Here(m, provider, cs);
    }
  }
}

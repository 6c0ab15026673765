/**
 * What the calls of the refresh protocol achieve when nobody gets in between:
 * each runs on any state that its branch admits, whatever the calls that are
 * already under way.
 */
module RefreshProgress {
  import opened Wrappers
  import opened CredentialFiles
  import opened P = RefreshProtocol

  lemma {:induction false} ExecuteConcat(c: Codec, handle: string, s: State, a: seq<P.Action>, b: seq<P.Action>)
    ensures Execute(c, handle, s, a + b) == Execute(c, handle, Execute(c, handle, s, a), b)
  {
    if b == [] {
      assert a + b == a;
    } else {
      assert (a + b)[..|a + b| - 1] == a + b[..|b| - 1];
      ExecuteConcat(c, handle, s, a, b[..|b| - 1]);
    }
  }

  lemma ExecuteOne(c: Codec, handle: string, s: State, a: P.Action, b: seq<P.Action>)
    ensures Execute(c, handle, s, [a] + b) == Execute(c, handle, P.Step(c, handle, s, a), b)
  {
    assert [a][..0] == [];
    ExecuteConcat(c, handle, s, [a], b);
  }

  function Repeated(a: P.Action, n: nat): seq<P.Action> {
    if n == 0 then [] else Repeated(a, n - 1) + [a]
  }

  lemma RepeatedStep(c: Codec, handle: string, s: State, a: P.Action, n: nat, before: State, after: State)
    requires Execute(c, handle, s, Repeated(a, n)) == before && P.Step(c, handle, before, a) == after
    ensures Execute(c, handle, s, Repeated(a, n + 1)) == after
  {
    RepeatedLength(a, n);
    RepeatedLength(a, n + 1);
    assert Repeated(a, n + 1)[..n] == Repeated(a, n);
  }

  lemma {:induction false} RepeatedLength(a: P.Action, n: nat)
    ensures |Repeated(a, n)| == n
  {
    if n > 0 { RepeatedLength(a, n - 1); }
  }

  // ------------------------------------------------------------------ reading

  function ReadFiles(t: nat): seq<P.Action> { [ReadActiveFile(t), ReadBackupFile(t)] }

  /** Both reads of a call that has not read yet give it what the handle holds. */
  lemma ReadsWhatIsThere(c: Codec, handle: string, s: State, t: nat)
    requires t in s.tasks && s.tasks[t].phase.AtActive?
    ensures Execute(c, handle, s, ReadFiles(t))
            == SetPhase(s, t,
                 if s.tasks[t].phase.purpose == AfterStale then Settled(Read(c, s.files))
                 else if Read(c, s.files).Some? then Exchanging(Read(c, s.files).value)
                 else Settled(None))
  {
    ExecuteOne(c, handle, s, ReadActiveFile(t), [ReadBackupFile(t)]);
    ExecuteOne(c, handle, P.Step(c, handle, s, ReadActiveFile(t)), ReadBackupFile(t), []);
    assert [ReadActiveFile(t)] + [ReadBackupFile(t)] == ReadFiles(t) && [ReadBackupFile(t)] + [] == [ReadBackupFile(t)];
    SetTwice(s, t, AtBackup(s.tasks[t].phase.purpose), AfterRead(s.tasks[t].phase.purpose, c.ParseFile(s.files.backup)));
  }

  lemma SetTwice(s: State, t: nat, p: Phase, q: Phase)
    requires t in s.tasks
    ensures SetPhase(SetPhase(s, t, p), t, q) == SetPhase(s, t, q)
  {
    assert s.tasks[t := Task(s.tasks[t].broker, p)][t := Task(s.tasks[t].broker, q)] == s.tasks[t := Task(s.tasks[t].broker, q)];
  }

  /** A bind gets the record it was prepared for if that is what the handle holds, and is refused otherwise. */
  lemma BindsIff(c: Codec, handle: string, s: State, i: nat, generation: int)
    requires i !in s.binds
    ensures var held := Read(c, s.files);
            Execute(c, handle, s, [BindCall(i, generation), BindReadActive(i), BindReadBackup(i)])
            == s.(binds := s.binds[i := if held.Some? && held.value.generation == generation
                                        then Bound(generation, held.value) else Refused])
  {
    var s1 := s.(binds := s.binds[i := BindActive(generation)]);
    var s2 := BindStep(c, s1, i, true);
    ExecuteOne(c, handle, s, BindCall(i, generation), [BindReadActive(i), BindReadBackup(i)]);
    ExecuteOne(c, handle, s1, BindReadActive(i), [BindReadBackup(i)]);
    ExecuteOne(c, handle, s2, BindReadBackup(i), []);
    BindReads(c, s, i, generation);
    assert [BindCall(i, generation)] + [BindReadActive(i), BindReadBackup(i)] == [BindCall(i, generation), BindReadActive(i), BindReadBackup(i)];
    assert [BindReadActive(i)] + [BindReadBackup(i)] == [BindReadActive(i), BindReadBackup(i)];
    assert [BindReadBackup(i)] + [] == [BindReadBackup(i)];
  }

  lemma BindReads(c: Codec, s: State, i: nat, generation: int)
    requires i !in s.binds
    ensures var held := Read(c, s.files);
            BindStep(c, BindStep(c, s.(binds := s.binds[i := BindActive(generation)]), i, true), i, false)
            == s.(binds := s.binds[i := if held.Some? && held.value.generation == generation
                                        then Bound(generation, held.value) else Refused])
  {
    var active := c.ParseFile(s.files.active);
    var one := if active.Some? then AfterBindRead(generation, active) else BindBackup(generation);
    assert BindStep(c, s.(binds := s.binds[i := BindActive(generation)]), i, true) == s.(binds := s.binds[i := one]);
    var two := AfterBindRead(generation, c.ParseFile(s.files.backup));
    assert s.binds[i := one][i := two] == s.binds[i := two];
  }

  // ---------------------------------------------------------------- refreshing

  /** The state of a commit of task `t` after `m` of its effects. */
  function Written(c: Codec, s: State, t: nat, base: Files, next: Record, id: nat, m: nat): State
    requires t in s.tasks && m <= |ReplaceEffects(c, base, next, id)|
  {
    var done := m >= |InstallEffects(c, base, next, id)| && c.Readable(next);
    SetPhase(s, t, Writing(next, base, id, m)).(
      files := Run(base, ReplaceEffects(c, base, next, id)[..m]),
      installed := if done then s.installed + [next] else s.installed)
  }

  lemma WriteAdvances(c: Codec, handle: string, s: State, t: nat, base: Files, next: Record, id: nat, m: nat)
    requires t in s.tasks && m < |ReplaceEffects(c, base, next, id)|
    ensures P.Step(c, handle, Written(c, s, t, base, next, id, m), WriteStep(t)) == Written(c, s, t, base, next, id, m + 1)
  {
    var es := ReplaceEffects(c, base, next, id);
    assert es[..m + 1][..m] == es[..m];
    SetTwice(s, t, Writing(next, base, id, m), Writing(next, base, id, m + 1));
  }

  lemma WrittenNone(c: Codec, s: State, t: nat, next: Record, id: nat)
    requires t in s.tasks && s.tasks[t].phase == Writing(next, s.files, id, 0)
    ensures Written(c, s, t, s.files, next, id, 0) == s
  {
    assert s.tasks[t := s.tasks[t]] == s.tasks;
    assert |InstallEffects(c, s.files, next, id)| > 0;
  }

  lemma {:induction false} WritesRun(c: Codec, handle: string, s: State, t: nat, next: Record, id: nat, m: nat)
    requires t in s.tasks && s.tasks[t].phase == Writing(next, s.files, id, 0)
    requires m <= |ReplaceEffects(c, s.files, next, id)|
    ensures Execute(c, handle, s, Repeated(WriteStep(t), m)) == Written(c, s, t, s.files, next, id, m)
  {
    if m == 0 {
      WrittenNone(c, s, t, next, id);
    } else {
      WritesRun(c, handle, s, t, next, id, m - 1);
      WriteAdvances(c, handle, s, t, s.files, next, id, m - 1);
      RepeatedStep(c, handle, s, WriteStep(t), m - 1, Written(c, s, t, s.files, next, id, m - 1), Written(c, s, t, s.files, next, id, m));
    }
  }

  /** Lock, every write, unlock. */
  function CommitActions(c: Codec, f: Files, t: nat, next: Record, id: nat): seq<P.Action> {
    [EnterCommit(t, id)] + (Repeated(WriteStep(t), |ReplaceEffects(c, f, next, id)|) + [EndCommit(t)])
  }

  /**
   * A commit against the generation that is held, with the lock free, installs
   * its record and settles the call with it; one that cannot be read back
   * settles it with nothing.
   */
  lemma CommitRuns(c: Codec, handle: string, s: State, t: nat, current: Record, next: Record, id: nat)
    requires t in s.tasks && s.tasks[t].phase == Committing(current, next) && s.lock == Free
    requires next.handle == handle && next.generation == current.generation + 1
    requires Read(c, s.files).Some? && Read(c, s.files).value.generation == current.generation
    ensures var r := Execute(c, handle, s, CommitActions(c, s.files, t, next, id));
            && r.files.active == Some(c.serialize(next))
            && r.files.quarantine == s.files.quarantine
            && r == SetPhase(s, t, Settled(if c.Readable(next) then Some(next) else None)).(
                      files := r.files,
                      installed := if c.Readable(next) then s.installed + [next] else s.installed)
  {
    var es := ReplaceEffects(c, s.files, next, id);
    var s1 := SetPhase(s, t, Writing(next, s.files, id, 0)).(lock := ByTask(t));
    Enters(c, handle, s, t, current, next, id);
    ExecuteOne(c, handle, s, EnterCommit(t, id), Repeated(WriteStep(t), |es|) + [EndCommit(t)]);
    CommitWrites(c, handle, s1, t, next, id);
    ReplacePrefix(c, s.files, next, id, |es|);
    KeepsQuarantine(c, s.files, next, id);
    Settles(c, s, t, next, id);
  }

  lemma KeepsQuarantine(c: Codec, f: Files, next: Record, id: nat)
    ensures var es := ReplaceEffects(c, f, next, id);
            Run(f, es[..|es|]).quarantine == f.quarantine
  {
    var es := ReplaceEffects(c, f, next, id);
    assert es[..|es|] == es;
    QuarantineKept(f, es);
  }

  lemma Enters(c: Codec, handle: string, s: State, t: nat, current: Record, next: Record, id: nat)
    requires t in s.tasks && s.tasks[t].phase == Committing(current, next) && s.lock == Free
    requires next.handle == handle && next.generation == current.generation + 1
    requires Read(c, s.files).Some? && Read(c, s.files).value.generation == current.generation
    ensures P.Step(c, handle, s, EnterCommit(t, id)) == SetPhase(s, t, Writing(next, s.files, id, 0)).(lock := ByTask(t))
  {
    AcceptedIff(c, s.files, false, handle, current.generation, next);
  }

  lemma CommitWrites(c: Codec, handle: string, s: State, t: nat, next: Record, id: nat)
    requires t in s.tasks && s.tasks[t].phase == Writing(next, s.files, id, 0)
    ensures var n := |ReplaceEffects(c, s.files, next, id)|;
            Execute(c, handle, s, Repeated(WriteStep(t), n) + [EndCommit(t)])
            == EndCommitStep(c, Written(c, s, t, s.files, next, id, n), t)
  {
    var n := |ReplaceEffects(c, s.files, next, id)|;
    ExecuteConcat(c, handle, s, Repeated(WriteStep(t), n), [EndCommit(t)]);
    WritesRun(c, handle, s, t, next, id, n);
    var s2 := Written(c, s, t, s.files, next, id, n);
    ExecuteOne(c, handle, s2, EndCommit(t), []);
    assert [EndCommit(t)] + [] == [EndCommit(t)];
  }

  lemma Settles(c: Codec, s: State, t: nat, next: Record, id: nat)
    requires t in s.tasks && s.lock == Free
    ensures var s1 := SetPhase(s, t, Writing(next, s.files, id, 0)).(lock := ByTask(t));
            var r := EndCommitStep(c, Written(c, s1, t, s.files, next, id, |ReplaceEffects(c, s.files, next, id)|), t);
            && r.files == Run(s.files, ReplaceEffects(c, s.files, next, id)[..|ReplaceEffects(c, s.files, next, id)|])
            && r == SetPhase(s, t, Settled(if c.Readable(next) then Some(next) else None)).(
                      files := r.files,
                      installed := if c.Readable(next) then s.installed + [next] else s.installed)
  {
    var n := |ReplaceEffects(c, s.files, next, id)|;
    var settled := Settled(if c.Readable(next) then Some(next) else None);
    SetTwice(s, t, Writing(next, s.files, id, 0), Writing(next, s.files, id, n));
    SetTwice(s, t, Writing(next, s.files, id, n), settled);
  }

  lemma {:induction false} QuarantineKept(f: Files, es: seq<Effect>)
    requires forall e :: e in es ==> !e.Quarantine? && !e.RemoveQuarantined?
    ensures Run(f, es).quarantine == f.quarantine
  {
    if es != [] { QuarantineKept(f, es[..|es| - 1]); }
  }

  /** A call from its start to its `finally`, with nobody in between. */
  function RefreshActions(c: Codec, f: Files, b: nat, t: nat, tokens: string, next: Record, id: nat): seq<P.Action> {
    [CallRefresh(b, t)] + (ReadFiles(t) + ([Exchange(t, Some(tokens))] + (CommitActions(c, f, t, next, id) + [RunFinally(t)])))
  }

  /**
   * A refresh that nobody disturbs installs the record with the new tokens
   * and leaves everything else as it was, whatever other calls stand open.
   */
  lemma RefreshInstalls(c: Codec, handle: string, s: State, b: nat, t: nat, tokens: string, id: nat)
    requires s.lock == Free && b !in s.flights && t !in s.tasks
    requires Read(c, s.files).Some? && Read(c, s.files).value.handle == handle
    requires c.Readable(Record(handle, Read(c, s.files).value.generation + 1, tokens))
    ensures var next := Record(handle, Read(c, s.files).value.generation + 1, tokens);
            var r := Execute(c, handle, s, RefreshActions(c, s.files, b, t, tokens, next, id));
            && r.files.active == Some(c.serialize(next))
            && r == s.(files := r.files, installed := s.installed + [next])
  {
    var current := Read(c, s.files).value;
    var next := Record(handle, current.generation + 1, tokens);
    var commit := CommitActions(c, s.files, t, next, id);
    Begins(c, handle, s, b, t, [Exchange(t, Some(tokens))] + (commit + [RunFinally(t)]));
    TakesTokens(c, handle, s, b, t, current, tokens, commit + [RunFinally(t)]);
    ExecuteConcat(c, handle, At(s, b, t, Committing(current, next)), commit, [RunFinally(t)]);
    var files := CommitsAt(c, handle, s, b, t, current, next, id);
    Ends(c, handle, s.(files := files, installed := s.installed + [next]), b, t, Some(next));
  }

  lemma CommitsAt(c: Codec, handle: string, s: State, b: nat, t: nat, current: Record, next: Record, id: nat) returns (files: Files)
    requires s.lock == Free && Read(c, s.files) == Some(current)
    requires next.handle == handle && next.generation == current.generation + 1 && c.Readable(next)
    ensures files.active == Some(c.serialize(next))
    ensures Execute(c, handle, At(s, b, t, Committing(current, next)), CommitActions(c, s.files, t, next, id))
            == At(s.(files := files, installed := s.installed + [next]), b, t, Settled(Some(next)))
  {
    var s3 := At(s, b, t, Committing(current, next));
    CommitRuns(c, handle, s3, t, current, next, id);
    PhaseAt(s, b, t, Committing(current, next), Settled(Some(next)));
    files := Execute(c, handle, s3, CommitActions(c, s.files, t, next, id)).files;
  }

  /** `s` with one more call under way. */
  function At(s: State, b: nat, t: nat, phase: Phase): State {
    s.(tasks := s.tasks[t := Task(b, phase)], flights := s.flights[b := t])
  }

  lemma PhaseAt(s: State, b: nat, t: nat, p: Phase, q: Phase)
    ensures SetPhase(At(s, b, t, p), t, q) == At(s, b, t, q)
  {
    SetTwice(At(s, b, t, p), t, p, q);
    assert s.tasks[t := Task(b, p)][t := Task(b, q)] == s.tasks[t := Task(b, q)];
  }

  lemma Begins(c: Codec, handle: string, s: State, b: nat, t: nat, rest: seq<P.Action>)
    requires b !in s.flights && t !in s.tasks
    ensures var read := Read(c, s.files);
            Execute(c, handle, s, [CallRefresh(b, t)] + (ReadFiles(t) + rest))
            == Execute(c, handle, At(s, b, t, if read.Some? then Exchanging(read.value) else Settled(None)), rest)
  {
    var s1 := At(s, b, t, AtActive(ToRefresh));
    ExecuteOne(c, handle, s, CallRefresh(b, t), ReadFiles(t) + rest);
    ExecuteConcat(c, handle, s1, ReadFiles(t), rest);
    ReadsWhatIsThere(c, handle, s1, t);
    PhaseAt(s, b, t, AtActive(ToRefresh), if Read(c, s.files).Some? then Exchanging(Read(c, s.files).value) else Settled(None));
  }

  lemma TakesTokens(c: Codec, handle: string, s: State, b: nat, t: nat, current: Record, tokens: string, rest: seq<P.Action>)
    ensures Execute(c, handle, At(s, b, t, Exchanging(current)), [Exchange(t, Some(tokens))] + rest)
            == Execute(c, handle, At(s, b, t, Committing(current, Record(current.handle, current.generation + 1, tokens))), rest)
  {
    ExecuteOne(c, handle, At(s, b, t, Exchanging(current)), Exchange(t, Some(tokens)), rest);
    PhaseAt(s, b, t, Exchanging(current), Committing(current, Record(current.handle, current.generation + 1, tokens)));
  }

  lemma Ends(c: Codec, handle: string, s: State, b: nat, t: nat, result: Option<Record>)
    requires b !in s.flights && t !in s.tasks
    ensures Execute(c, handle, At(s, b, t, Settled(result)), [RunFinally(t)]) == s
  {
    var s1 := At(s, b, t, Settled(result));
    ExecuteOne(c, handle, s1, RunFinally(t), []);
    assert [RunFinally(t)] + [] == [RunFinally(t)];
    assert s1.tasks - {t} == s.tasks && s1.flights - {b} == s.flights;
  }

  /** When the provider refuses, or there is no record, the call leaves no trace. */
  lemma FailedRefreshLeavesNoTrace(c: Codec, handle: string, s: State, b: nat, t: nat)
    requires b !in s.flights && t !in s.tasks
    ensures Execute(c, handle, s, [CallRefresh(b, t)] + (ReadFiles(t) + [Exchange(t, None), RunFinally(t)])) == s
  {
    var read := Read(c, s.files);
    var s1 := At(s, b, t, if read.Some? then Exchanging(read.value) else Settled(None));
    Begins(c, handle, s, b, t, [Exchange(t, None), RunFinally(t)]);
    ExecuteOne(c, handle, s1, Exchange(t, None), [RunFinally(t)]);
    assert [Exchange(t, None)] + [RunFinally(t)] == [Exchange(t, None), RunFinally(t)];
    if read.Some? { PhaseAt(s, b, t, Exchanging(read.value), Settled(None)); }
    Ends(c, handle, s, b, t, None);
  }

  /** The refresher that comes second to the lock is handed the newer record and writes nothing. */
  lemma LoserGetsWinner(c: Codec, handle: string, s: State, t: nat, current: Record, next: Record, id: nat)
    requires t in s.tasks && s.tasks[t].phase == Committing(current, next) && s.lock == Free
    requires next.handle == handle && next.generation == current.generation + 1
    requires Read(c, s.files).Some? && Read(c, s.files).value.generation != current.generation
    ensures Execute(c, handle, s, [EnterCommit(t, id)] + ReadFiles(t)) == SetPhase(s, t, Settled(Read(c, s.files)))
  {
    AcceptedIff(c, s.files, false, handle, current.generation, next);
    var s1 := P.Step(c, handle, s, EnterCommit(t, id));
    assert s1 == SetPhase(s, t, AtActive(AfterStale));
    ExecuteOne(c, handle, s, EnterCommit(t, id), ReadFiles(t));
    ReadsWhatIsThere(c, handle, s1, t);
    SetTwice(s, t, AtActive(AfterStale), Settled(Read(c, s.files)));
  }

  /** While the lock is held a commit fails at once. */
  lemma LockedOut(c: Codec, handle: string, s: State, t: nat, current: Record, next: Record, id: nat)
    requires t in s.tasks && s.tasks[t].phase == Committing(current, next) && s.lock != Free
    requires next.handle == handle && next.generation == current.generation + 1
    ensures P.Step(c, handle, s, EnterCommit(t, id)) == SetPhase(s, t, Settled(None))
  {
    AcceptedIff(c, s.files, true, handle, current.generation, next);
  }

  // ------------------------------------------------------------ purges and deaths

  function PurgeActions(listing: seq<nat>, quarantined: seq<nat>): seq<P.Action> {
    [EnterPurge(listing, quarantined)] + (Repeated(PurgeStep, |PurgeEffects(listing, quarantined)|) + [EndPurge])
  }

  function Purging(s: State, listing: seq<nat>, quarantined: seq<nat>, m: nat): State
    requires m <= |PurgeEffects(listing, quarantined)|
  {
    s.(files := Run(s.files, PurgeEffects(listing, quarantined)[..m]), lock := ByPurge(listing, quarantined, m))
  }

  lemma PurgeAdvances(c: Codec, handle: string, s: State, listing: seq<nat>, quarantined: seq<nat>, m: nat)
    requires m < |PurgeEffects(listing, quarantined)|
    ensures P.Step(c, handle, Purging(s, listing, quarantined, m), PurgeStep) == Purging(s, listing, quarantined, m + 1)
  {
    var es := PurgeEffects(listing, quarantined);
    assert es[..m + 1][..m] == es[..m];
  }

  lemma PurgingNone(s: State, listing: seq<nat>, quarantined: seq<nat>)
    requires s.lock == ByPurge(listing, quarantined, 0)
    ensures Purging(s, listing, quarantined, 0) == s
  {
  }

  lemma {:induction false} PurgeStepsRun(c: Codec, handle: string, s: State, listing: seq<nat>, quarantined: seq<nat>, m: nat)
    requires s.lock == ByPurge(listing, quarantined, 0) && m <= |PurgeEffects(listing, quarantined)|
    ensures Execute(c, handle, s, Repeated(PurgeStep, m)) == Purging(s, listing, quarantined, m)
  {
    if m == 0 {
      PurgingNone(s, listing, quarantined);
    } else {
      PurgeStepsRun(c, handle, s, listing, quarantined, m - 1);
      PurgeAdvances(c, handle, s, listing, quarantined, m - 1);
      RepeatedStep(c, handle, s, PurgeStep, m - 1, Purging(s, listing, quarantined, m - 1), Purging(s, listing, quarantined, m));
    }
  }

  /** A purge that finds the lock free takes both files away and touches no call or bind. */
  lemma PurgeRuns(c: Codec, handle: string, s: State, listing: seq<nat>, quarantined: seq<nat>)
    requires s.lock == Free
    ensures var r := Execute(c, handle, s, PurgeActions(listing, quarantined));
            r.files.active == None && r.files.backup == None && r == s.(files := r.files, purged := true)
  {
    var es := PurgeEffects(listing, quarantined);
    var s1 := P.Step(c, handle, s, EnterPurge(listing, quarantined));
    ExecuteOne(c, handle, s, EnterPurge(listing, quarantined), Repeated(PurgeStep, |es|) + [EndPurge]);
    ExecuteConcat(c, handle, s1, Repeated(PurgeStep, |es|), [EndPurge]);
    PurgeStepsRun(c, handle, s1, listing, quarantined, |es|);
    ExecuteOne(c, handle, Purging(s1, listing, quarantined, |es|), EndPurge, []);
    assert [EndPurge] + [] == [EndPurge];
    PurgePrefix(s.files, listing, quarantined, |es|);
  }

  /**
   * A process that dies in the middle of a commit blocks nobody: the next
   * refresh of another process installs the successor of the newest record.
   */
  lemma DeathBlocksNobody(c: Codec, handle: string, s: State, dead: nat, b: nat, t: nat, tokens: string, id: nat)
    requires Inv(c, s) && Available(c, s) && !s.purged && s.lock.ByTask? && s.tasks[s.lock.task].broker == dead
    requires b !in s.flights && t !in s.tasks && Last(s).handle == handle
    requires c.Readable(Record(handle, Last(s).generation + 1, tokens))
    ensures var next := Record(handle, Last(s).generation + 1, tokens);
            var r := Execute(c, handle, s, [Die(dead)] + RefreshActions(c, s.files, b, t, tokens, next, id));
            && r.installed == s.installed + [next] && r.lock == Free && c.ParseFile(r.files.active) == Some(next)
            && r.tasks == (map u | u in s.tasks && s.tasks[u].broker != dead :: s.tasks[u])
  {
    var s1 := P.Step(c, handle, s, Die(dead));
    ExecuteOne(c, handle, s, Die(dead), RefreshActions(c, s.files, b, t, tokens, Record(handle, Last(s).generation + 1, tokens), id));
    assert Read(c, s1.files) == Some(Last(s));
    RefreshInstalls(c, handle, s1, b, t, tokens, id);
  }

  /** A death takes the calls of its own process only, and the lock only if one of them held it. */
  lemma DeathSparesOthers(c: Codec, handle: string, s: State, dead: nat)
    requires SingleFlight(s)
    ensures var r := P.Step(c, handle, s, Die(dead));
            && (forall u :: u in r.tasks <==> u in s.tasks && s.tasks[u].broker != dead)
            && (forall u :: u in r.tasks ==> r.tasks[u] == s.tasks[u])
            && (forall b :: b in r.flights <==> b in s.flights && b != dead)
            && (forall b :: b in r.flights ==> r.flights[b] == s.flights[b])
            && r.files == s.files && r.installed == s.installed && r.binds == s.binds && r.purged == s.purged
            && (r.lock == if s.lock.ByTask? && s.lock.task in s.tasks && s.tasks[s.lock.task].broker == dead
                          then Free else s.lock)
  {
  }
}

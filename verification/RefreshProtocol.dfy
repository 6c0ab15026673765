/**
 * Refreshers in any number of broker processes, purges and binds on one
 * credential handle (src/credentials/broker.ts over src/credentials/store.ts).
 * Steps interleave at the level of single file effects: only commits and
 * purges hold the handle's lock, and readers look at the two files one after
 * the other without it.  A process may die at any point of a commit.
 */
module RefreshProtocol {
  import opened Wrappers
  import opened CredentialFiles

  datatype Purpose = ToRefresh | AfterStale

  /** Where one `refreshOnce` call stands. */
  datatype Phase =
    | AtActive(purpose: Purpose)
    | AtBackup(purpose: Purpose)
    | Exchanging(current: Record)
    | Committing(current: Record, next: Record)
    | Writing(next: Record, base: Files, id: nat, done: nat)
    | Settled(result: Option<Record>)

  datatype Task = Task(broker: nat, phase: Phase)

  datatype Lock = Free | ByTask(task: nat) | ByPurge(listing: seq<nat>, quarantined: seq<nat>, done: nat)

  datatype Bind = BindActive(generation: int) | BindBackup(generation: int) | Bound(generation: int, record: Record) | Refused

  datatype State = State(
    files: Files,
    lock: Lock,
    tasks: map<nat, Task>,     // the refreshOnce calls that have not run their `finally`
    flights: map<nat, nat>,    // each broker's `flights` entry for the handle
    binds: map<nat, Bind>,
    installed: seq<Record>,    // history: every record that became the active one
    purged: bool               // history: some purge has completed
  )

  datatype Action =
    | CallRefresh(broker: nat, task: nat)
    | ReadActiveFile(task: nat)
    | ReadBackupFile(task: nat)
    | Exchange(task: nat, tokens: Option<string>)
    | EnterCommit(task: nat, id: nat)
    | WriteStep(task: nat)
    | EndCommit(task: nat)
    | RunFinally(task: nat)
    | EnterPurge(listing: seq<nat>, quarantined: seq<nat>)
    | PurgeStep
    | EndPurge
    | BindCall(bind: nat, generation: int)
    | BindReadActive(bind: nat)
    | BindReadBackup(bind: nat)
    | Die(broker: nat)

  function SetPhase(s: State, t: nat, phase: Phase): State
    requires t in s.tasks
  {
    s.(tasks := s.tasks[t := s.tasks[t].(phase := phase)])
  }

  /** What a refresh does with the record it read, or with none. */
  function AfterRead(purpose: Purpose, r: Option<Record>): Phase {
    match purpose
    case ToRefresh => if r.Some? then Exchanging(r.value) else Settled(None)
    case AfterStale => Settled(r)
  }

  function AfterBindRead(generation: int, r: Option<Record>): Bind {
    if r.Some? && r.value.generation == generation then Bound(generation, r.value) else Refused
  }

  /** The record that replaces `current` once new tokens are there. */
  function NextGeneration(current: Record, tokens: string): Record {
    current.(generation := current.generation + 1, body := tokens)
  }

  /** A call that finds a flight joins it. */
  function CallStep(s: State, b: nat, t: nat): State {
    if b in s.flights || t in s.tasks then s
    else s.(tasks := s.tasks[t := Task(b, AtActive(ToRefresh))], flights := s.flights[b := t])
  }

  function ReadActiveStep(c: Codec, s: State, t: nat): State {
    if t in s.tasks && s.tasks[t].phase.AtActive? then
      var purpose := s.tasks[t].phase.purpose;
      var r := c.ParseFile(s.files.active);
      SetPhase(s, t, if r.Some? then AfterRead(purpose, r) else AtBackup(purpose))
    else s
  }

  function ReadBackupStep(c: Codec, s: State, t: nat): State {
    if t in s.tasks && s.tasks[t].phase.AtBackup? then
      SetPhase(s, t, AfterRead(s.tasks[t].phase.purpose, c.ParseFile(s.files.backup)))
    else s
  }

  function ExchangeStep(s: State, t: nat, tokens: Option<string>): State {
    if t in s.tasks && s.tasks[t].phase.Exchanging? then
      var current := s.tasks[t].phase.current;
      SetPhase(s, t, if tokens.None? then Settled(None) else Committing(current, NextGeneration(current, tokens.value)))
    else s
  }

  function EnterCommitStep(c: Codec, handle: string, s: State, t: nat, id: nat): State {
    if t in s.tasks && s.tasks[t].phase.Committing? then
      var Committing(current, next) := s.tasks[t].phase;
      match Refusal(c, s.files, s.lock != Free, handle, current.generation, next)
      case Some(StaleGeneration) => SetPhase(s, t, AtActive(AfterStale))
      case Some(_) => SetPhase(s, t, Settled(None))
      case None => SetPhase(s, t, Writing(next, s.files, id, 0)).(lock := ByTask(t))
    else s
  }

  function WriteOne(c: Codec, s: State, t: nat): State {
    if t in s.tasks && s.tasks[t].phase.Writing? then
      var Writing(next, base, id, done) := s.tasks[t].phase;
      var es := ReplaceEffects(c, base, next, id);
      if done < |es| then
        var install := done + 1 == |InstallEffects(c, base, next, id)| && c.Readable(next);
        SetPhase(s, t, Writing(next, base, id, done + 1)).(
          files := Apply(s.files, es[done]),
          installed := if install then s.installed + [next] else s.installed)
      else s
    else s
  }

  function EndCommitStep(c: Codec, s: State, t: nat): State {
    if t in s.tasks && s.tasks[t].phase.Writing? then
      var Writing(next, base, id, done) := s.tasks[t].phase;
      if done == |ReplaceEffects(c, base, next, id)| then
        SetPhase(s, t, Settled(if c.Readable(next) then Some(next) else None)).(lock := Free)
      else s
    else s
  }

  function FinallyStep(s: State, t: nat): State {
    if t in s.tasks && s.tasks[t].phase.Settled? then
      s.(tasks := s.tasks - {t}, flights := s.flights - {s.tasks[t].broker})
    else s
  }

  function PurgeOne(s: State): State {
    if s.lock.ByPurge? then
      var ByPurge(listing, quarantined, done) := s.lock;
      var es := PurgeEffects(listing, quarantined);
      if done < |es| then s.(files := Apply(s.files, es[done]), lock := ByPurge(listing, quarantined, done + 1)) else s
    else s
  }

  function EndPurgeStep(s: State): State {
    if s.lock.ByPurge? && s.lock.done == |PurgeEffects(s.lock.listing, s.lock.quarantined)|
    then s.(lock := Free, purged := true)
    else s
  }

  function BindStep(c: Codec, s: State, i: nat, onActive: bool): State {
    if i !in s.binds then s
    else
      match s.binds[i]
      case BindActive(generation) =>
        if !onActive then s else
        var r := c.ParseFile(s.files.active);
        s.(binds := s.binds[i := if r.Some? then AfterBindRead(generation, r) else BindBackup(generation)])
      case BindBackup(generation) =>
        if onActive then s
        else s.(binds := s.binds[i := AfterBindRead(generation, c.ParseFile(s.files.backup))])
      case _ => s
  }

  /** The lock file of a dead owner counts as stale and is taken over. */
  function DieStep(s: State, b: nat): State {
    s.(tasks := map t | t in s.tasks && s.tasks[t].broker != b :: s.tasks[t],
       flights := s.flights - {b},
       lock := if s.lock.ByTask? && s.lock.task in s.tasks && s.tasks[s.lock.task].broker == b then Free else s.lock)
  }

  /** One step; an action that is not possible in `s` leaves it as it is. */
  function Step(c: Codec, handle: string, s: State, a: Action): State {
    match a
    case CallRefresh(b, t) => CallStep(s, b, t)
    case ReadActiveFile(t) => ReadActiveStep(c, s, t)
    case ReadBackupFile(t) => ReadBackupStep(c, s, t)
    case Exchange(t, tokens) => ExchangeStep(s, t, tokens)
    case EnterCommit(t, id) => EnterCommitStep(c, handle, s, t, id)
    case WriteStep(t) => WriteOne(c, s, t)
    case EndCommit(t) => EndCommitStep(c, s, t)
    case RunFinally(t) => FinallyStep(s, t)
    case EnterPurge(listing, quarantined) => if s.lock == Free then s.(lock := ByPurge(listing, quarantined, 0)) else s
    case PurgeStep => PurgeOne(s)
    case EndPurge => EndPurgeStep(s)
    case BindCall(i, generation) => if i in s.binds then s else s.(binds := s.binds[i := BindActive(generation)])
    case BindReadActive(i) => BindStep(c, s, i, true)
    case BindReadBackup(i) => BindStep(c, s, i, false)
    case Die(b) => DieStep(s, b)
  }

  function Execute(c: Codec, handle: string, s: State, actions: seq<Action>): State {
    if actions == [] then s
    else Step(c, handle, Execute(c, handle, s, actions[..|actions| - 1]), actions[|actions| - 1])
  }

  /** A handle whose only file is a readable active one, and nobody at work. */
  ghost predicate Init(c: Codec, s: State) {
    && s.installed != []
    && s.installed == [s.installed[0]]
    && c.ParseFile(s.files.active) == Some(s.installed[0])
    && s.files.backup == None
    && s.lock == Free && s.tasks == map[] && s.flights == map[] && s.binds == map[]
    && !s.purged
  }

  // -------------------------------------------------------------- invariant

  function Last(s: State): Record
    requires s.installed != []
  {
    s.installed[|s.installed| - 1]
  }

  predicate Consecutive(rs: seq<Record>) {
    && rs != []
    && rs[0].generation >= 1
    && forall i :: 0 <= i < |rs| ==> rs[i].generation == rs[0].generation + i
  }

  /** The active file holds the newest record if it parses; what the backup holds was installed once. */
  predicate FilesKnown(c: Codec, s: State)
    requires s.installed != []
  {
    var active, backup := c.ParseFile(s.files.active), c.ParseFile(s.files.backup);
    && (active.Some? ==> active.value == Last(s))
    && (backup.Some? ==> backup.value in s.installed)
  }

  /** Without a readable active file a readable backup is the newest record. */
  predicate Stable(c: Codec, files: Files, last: Record) {
    Read(c, files).None? || Read(c, files).value == last
  }

  predicate LockConsistent(c: Codec, s: State)
    requires s.installed != []
  {
    && (forall t :: t in s.tasks && s.tasks[t].phase.Writing? ==> s.lock == ByTask(t))
    && (s.lock.ByTask? ==> s.lock.task in s.tasks && s.tasks[s.lock.task].phase.Writing?)
    && (!s.lock.ByPurge? ==> Stable(c, s.files, Last(s)))
    && (s.lock.ByPurge? ==>
          && (s.lock.done >= 1 ==> s.files.active == None)
          && (s.lock.done >= 2 ==> s.files.backup == None))
    && (s.purged ==> s.files.active == None && s.files.backup == None && !s.lock.ByTask?)
  }

  /** A commit in progress started from the newest record and has run a prefix of its effects. */
  ghost predicate WriterOk(c: Codec, files: Files, last: Record, next: Record, base: Files, id: nat, done: nat) {
    && done <= |ReplaceEffects(c, base, next, id)|
    && files == Run(base, ReplaceEffects(c, base, next, id)[..done])
    && (if c.Readable(next) && done >= |InstallEffects(c, base, next, id)|
        then last == next
        else Read(c, base) == Some(last) && next.generation == last.generation + 1
             && (c.ParseFile(base.active).Some? ==> c.ParseFile(base.active).value == last))
  }

  ghost predicate WriterConsistent(c: Codec, s: State)
    requires s.installed != []
  {
    s.lock.ByTask? && s.lock.task in s.tasks && s.tasks[s.lock.task].phase.Writing? ==>
      var Writing(next, base, id, done) := s.tasks[s.lock.task].phase;
      WriterOk(c, s.files, Last(s), next, base, id, done)
  }

  /** Every record a refresh carries or returns was installed. */
  predicate PhaseKnown(phase: Phase, installed: seq<Record>) {
    match phase
    case Exchanging(current) => current in installed
    case Committing(current, next) => current in installed && next.generation == current.generation + 1
    case Settled(result) => result.Some? ==> result.value in installed
    case _ => true
  }

  predicate TasksKnown(s: State) {
    forall t :: t in s.tasks ==> PhaseKnown(s.tasks[t].phase, s.installed)
  }

  /** The map of flights and the calls that are under way agree. */
  predicate SingleFlight(s: State) {
    && (forall b :: b in s.flights ==> s.flights[b] in s.tasks && s.tasks[s.flights[b]].broker == b)
    && (forall t :: t in s.tasks ==> s.tasks[t].broker in s.flights && s.flights[s.tasks[t].broker] == t)
  }

  predicate BindsExact(s: State) {
    forall i :: i in s.binds && s.binds[i].Bound? ==>
      s.binds[i].record in s.installed && s.binds[i].record.generation == s.binds[i].generation
  }

  ghost predicate Inv(c: Codec, s: State) {
    && Consecutive(s.installed)
    && FilesKnown(c, s)
    && LockConsistent(c, s)
    && WriterConsistent(c, s)
    && TasksKnown(s)
    && SingleFlight(s)
    && BindsExact(s)
  }

  // ------------------------------------------------------------ preservation

  lemma InitInv(c: Codec, s: State)
    requires c.Sound() && Init(c, s)
    ensures Inv(c, s)
  {
    assert s.installed[0].generation >= 1;
  }

  lemma SetPhaseKeepsInv(c: Codec, s: State, t: nat, phase: Phase)
    requires Inv(c, s) && t in s.tasks
    requires !s.tasks[t].phase.Writing? && !phase.Writing? && PhaseKnown(phase, s.installed)
    ensures Inv(c, SetPhase(s, t, phase))
  {
  }

  lemma ReadActiveKeepsInv(c: Codec, s: State, t: nat)
    requires Inv(c, s)
    ensures Inv(c, ReadActiveStep(c, s, t))
  {
    if t in s.tasks && s.tasks[t].phase.AtActive? {
      var purpose := s.tasks[t].phase.purpose;
      var r := c.ParseFile(s.files.active);
      SetPhaseKeepsInv(c, s, t, if r.Some? then AfterRead(purpose, r) else AtBackup(purpose));
    }
  }

  lemma ReadBackupKeepsInv(c: Codec, s: State, t: nat)
    requires Inv(c, s)
    ensures Inv(c, ReadBackupStep(c, s, t))
  {
    if t in s.tasks && s.tasks[t].phase.AtBackup? {
      SetPhaseKeepsInv(c, s, t, AfterRead(s.tasks[t].phase.purpose, c.ParseFile(s.files.backup)));
    }
  }

  lemma ExchangeKeepsInv(c: Codec, s: State, t: nat, tokens: Option<string>)
    requires Inv(c, s)
    ensures Inv(c, ExchangeStep(s, t, tokens))
  {
    if t in s.tasks && s.tasks[t].phase.Exchanging? {
      var current := s.tasks[t].phase.current;
      SetPhaseKeepsInv(c, s, t,
                       if tokens.None? then Settled(None) else Committing(current, NextGeneration(current, tokens.value)));
    }
  }

  lemma FinallyKeepsInv(c: Codec, s: State, t: nat)
    requires Inv(c, s)
    ensures Inv(c, FinallyStep(s, t))
  {
  }

  lemma EndCommitKeepsInv(c: Codec, s: State, t: nat)
    requires c.Sound() && Inv(c, s)
    ensures Inv(c, EndCommitStep(c, s, t))
  {
  }

  lemma EnterCommitKeepsInv(c: Codec, handle: string, s: State, t: nat, id: nat)
    requires c.Sound() && Inv(c, s)
    ensures Inv(c, EnterCommitStep(c, handle, s, t, id))
  {
    if t in s.tasks && s.tasks[t].phase.Committing? {
      var Committing(current, next) := s.tasks[t].phase;
      var refusal := Refusal(c, s.files, s.lock != Free, handle, current.generation, next);
      if refusal.Some? {
        SetPhaseKeepsInv(c, s, t, if refusal.value == StaleGeneration then AtActive(AfterStale) else Settled(None));
      } else {
        AcceptedIff(c, s.files, s.lock != Free, handle, current.generation, next);
        StartsWriting(c, s, t, next, id);
      }
    }
  }

  lemma StartsWriting(c: Codec, s: State, t: nat, next: Record, id: nat)
    requires c.Sound() && Inv(c, s) && t in s.tasks && s.lock == Free && !s.purged
    requires Read(c, s.files) == Some(Last(s)) && next.generation == Last(s).generation + 1
    ensures Inv(c, SetPhase(s, t, Writing(next, s.files, id, 0)).(lock := ByTask(t)))
  {
    assert ReplaceEffects(c, s.files, next, id)[..0] == [];
    assert WriterOk(c, s.files, Last(s), next, s.files, id, 0);
  }

  /** One effect of a commit: where it leaves the files, and whose record is the newest then. */
  lemma WriterAdvances(c: Codec, files: Files, rs: seq<Record>, next: Record, base: Files, id: nat, done: nat)
    requires c.Sound() && Consecutive(rs)
    requires WriterOk(c, files, rs[|rs| - 1], next, base, id, done)
    requires done < |ReplaceEffects(c, base, next, id)|
    requires c.ParseFile(files.backup).Some? ==> c.ParseFile(files.backup).value in rs
    ensures var files' := Apply(files, ReplaceEffects(c, base, next, id)[done]);
            var install := done + 1 == |InstallEffects(c, base, next, id)| && c.Readable(next);
            var rs' := if install then rs + [next] else rs;
            var last := rs'[|rs'| - 1];
            && Consecutive(rs')
            && WriterOk(c, files', last, next, base, id, done + 1)
            && (c.ParseFile(files'.active).Some? ==> c.ParseFile(files'.active).value == last)
            && (c.ParseFile(files'.backup).Some? ==> c.ParseFile(files'.backup).value in rs')
            && Stable(c, files', last)
  {
    var es := ReplaceEffects(c, base, next, id);
    assert es[..done + 1][..done] == es[..done];
    ReplacePrefix(c, base, next, id, done);
    ReplacePrefix(c, base, next, id, done + 1);
  }

  lemma WriteOneKeepsTasks(c: Codec, s: State, t: nat)
    requires Inv(c, s)
    ensures TasksKnown(WriteOne(c, s, t)) && SingleFlight(WriteOne(c, s, t)) && BindsExact(WriteOne(c, s, t))
  {
  }

  lemma WriteOneKeepsInv(c: Codec, s: State, t: nat)
    requires c.Sound() && Inv(c, s)
    ensures Inv(c, WriteOne(c, s, t))
  {
    WriteOneKeepsTasks(c, s, t);
    if t in s.tasks && s.tasks[t].phase.Writing? {
      var Writing(next, base, id, done) := s.tasks[t].phase;
      if done < |ReplaceEffects(c, base, next, id)| {
        WriterAdvances(c, s.files, s.installed, next, base, id, done);
      }
    }
  }

  lemma PurgeOneKeepsInv(c: Codec, s: State)
    requires c.Sound() && Inv(c, s)
    ensures Inv(c, PurgeOne(s))
  {
    if s.lock.ByPurge? {
      var ByPurge(listing, quarantined, done) := s.lock;
      var es := PurgeEffects(listing, quarantined);
      if 2 <= done < |es| {
        assert es == [Remove(Active), Remove(Backup)] + (RemoveTemps(listing) + RemoveAllQuarantined(quarantined));
        assert Neutral(es[done]);
      }
    }
  }

  lemma PurgeEndsKeepInv(c: Codec, handle: string, s: State, a: Action)
    requires c.Sound() && Inv(c, s) && (a.EnterPurge? || a.EndPurge?)
    ensures Inv(c, Step(c, handle, s, a))
  {
  }

  lemma BindCallKeepsInv(c: Codec, handle: string, s: State, i: nat, generation: int)
    requires c.Sound() && Inv(c, s)
    ensures Inv(c, Step(c, handle, s, BindCall(i, generation)))
  {
  }

  lemma BindStepKeepsInv(c: Codec, s: State, i: nat, onActive: bool)
    requires c.Sound() && Inv(c, s)
    ensures Inv(c, BindStep(c, s, i, onActive))
  {
  }

  lemma DieKeepsInv(c: Codec, s: State, b: nat)
    requires c.Sound() && Inv(c, s)
    ensures Inv(c, DieStep(s, b))
  {
  }

  /** The steps of a refresh. */
  predicate OfTask(a: Action) {
    a.CallRefresh? || a.ReadActiveFile? || a.ReadBackupFile? || a.Exchange? || a.EnterCommit? || a.WriteStep? || a.EndCommit? || a.RunFinally?
  }

  lemma TaskStepKeepsInv(c: Codec, handle: string, s: State, a: Action)
    requires c.Sound() && Inv(c, s) && OfTask(a)
    ensures Inv(c, Step(c, handle, s, a))
  {
    match a
    case CallRefresh(b, t) => CallKeepsInv(c, s, b, t);
    case ReadActiveFile(t) => ReadActiveKeepsInv(c, s, t);
    case ReadBackupFile(t) => ReadBackupKeepsInv(c, s, t);
    case Exchange(t, tokens) => ExchangeKeepsInv(c, s, t, tokens);
    case EnterCommit(t, id) => EnterCommitKeepsInv(c, handle, s, t, id);
    case WriteStep(t) => WriteOneKeepsInv(c, s, t);
    case EndCommit(t) => EndCommitKeepsInv(c, s, t);
    case RunFinally(t) => FinallyKeepsInv(c, s, t);
  }

  lemma CallKeepsInv(c: Codec, s: State, b: nat, t: nat)
    requires Inv(c, s)
    ensures Inv(c, CallStep(s, b, t))
  {
  }

  lemma StepKeepsInv(c: Codec, handle: string, s: State, a: Action)
    requires c.Sound() && Inv(c, s)
    ensures Inv(c, Step(c, handle, s, a))
  {
    match a
    case EnterPurge(listing, quarantined) => PurgeEndsKeepInv(c, handle, s, a);
    case PurgeStep => PurgeOneKeepsInv(c, s);
    case EndPurge => PurgeEndsKeepInv(c, handle, s, a);
    case BindCall(i, generation) => BindCallKeepsInv(c, handle, s, i, generation);
    case BindReadActive(i) => BindStepKeepsInv(c, s, i, true);
    case BindReadBackup(i) => BindStepKeepsInv(c, s, i, false);
    case Die(b) => DieKeepsInv(c, s, b);
    case _ => TaskStepKeepsInv(c, handle, s, a);
  }

  lemma {:induction false} RunKeepsInv(c: Codec, handle: string, s: State, actions: seq<Action>)
    requires c.Sound() && Inv(c, s)
    ensures Inv(c, Execute(c, handle, s, actions))
  {
    if actions != [] {
      var n := |actions| - 1;
      RunKeepsInv(c, handle, s, actions[..n]);
      StepKeepsInv(c, handle, Execute(c, handle, s, actions[..n]), actions[n]);
    }
  }

  // ------------------------------------------------------------ main results

  /**
   * No generation is installed twice and every installation raises the
   * generation by exactly one, over every run; history is only added to.
   */
  lemma InstalledOnce(c: Codec, handle: string, s: State, actions: seq<Action>)
    requires c.Sound() && Inv(c, s)
    ensures var rs := Execute(c, handle, s, actions).installed;
            && s.installed <= rs
            && (forall i :: 0 <= i < |rs| - 1 ==> rs[i + 1].generation == rs[i].generation + 1)
            && (forall i, j :: 0 <= i < |rs| && 0 <= j < |rs| && rs[i].generation == rs[j].generation ==> i == j)
  {
    RunKeepsInv(c, handle, s, actions);
    HistoryGrows(c, handle, s, actions);
  }

  lemma {:induction false} HistoryGrows(c: Codec, handle: string, s: State, actions: seq<Action>)
    ensures s.installed <= Execute(c, handle, s, actions).installed
  {
    if actions != [] {
      var n := |actions| - 1;
      HistoryGrows(c, handle, s, actions[..n]);
      StepGrows(c, handle, Execute(c, handle, s, actions[..n]), actions[n]);
    }
  }

  lemma StepGrows(c: Codec, handle: string, s: State, a: Action)
    ensures s.installed <= Step(c, handle, s, a).installed
  {
    match a
    case WriteStep(t) =>
    case _ =>
  }

  /** The actions that neither write a file nor end or begin a purge. */
  predicate Quiet(a: Action) { !a.WriteStep? && !a.PurgeStep? && !a.EnterPurge? && !a.EndPurge? }

  lemma QuietStep(c: Codec, handle: string, s: State, a: Action)
    requires Quiet(a) && s.installed != [] && LockConsistent(c, s)
    ensures var s' := Step(c, handle, s, a);
            && s'.files == s.files && s'.installed == s.installed && s'.purged == s.purged
            && (s.lock.ByPurge? ==> s'.lock == s.lock)
  {
  }

  /**
   * A completed purge is final: whatever refreshes were in flight, nothing is
   * installed any more, both files stay away, and a bind that had not yet
   * returned never returns a credential.
   */
  lemma {:induction false} PurgeIsFinal(c: Codec, handle: string, s: State, actions: seq<Action>)
    requires c.Sound() && Inv(c, s) && s.purged
    ensures var s' := Execute(c, handle, s, actions);
            && s'.purged && s'.installed == s.installed
            && s'.files.active == None && s'.files.backup == None
            && (forall i :: i in s'.binds && s'.binds[i].Bound? ==> i in s.binds && s.binds[i] == s'.binds[i])
  {
    if actions != [] {
      var n := |actions| - 1;
      RunKeepsInv(c, handle, s, actions[..n]);
      PurgeIsFinal(c, handle, s, actions[..n]);
      PurgedStep(c, handle, Execute(c, handle, s, actions[..n]), actions[n]);
      StepKeepsInv(c, handle, Execute(c, handle, s, actions[..n]), actions[n]);
    }
  }

  lemma PurgedStep(c: Codec, handle: string, s: State, a: Action)
    requires c.Sound() && Inv(c, s) && s.purged
    ensures var s' := Step(c, handle, s, a);
            && s'.purged && s'.installed == s.installed
            && (forall i :: i in s'.binds && s'.binds[i].Bound? ==> i in s.binds && s.binds[i] == s'.binds[i])
  {
    PurgedBinds(c, handle, s, a);
    if Quiet(a) {
      QuietStep(c, handle, s, a);
    } else if a.WriteStep? {
      assert a.task in s.tasks ==> !s.tasks[a.task].phase.Writing?;
    }
  }

  lemma PurgedBinds(c: Codec, handle: string, s: State, a: Action)
    requires s.files.active == None && s.files.backup == None
    ensures var s' := Step(c, handle, s, a);
            forall i :: i in s'.binds && s'.binds[i].Bound? ==> i in s.binds && s.binds[i] == s'.binds[i]
  {
  }

  /**
   * `prepare` names a generation and `bind` asks for it later.  Whatever
   * happened in between, a bind that succeeds yields the very record that had
   * been prepared.
   */
  lemma BindYieldsPrepared(c: Codec, handle: string, s: State, actions: seq<Action>, prepared: Record, i: nat)
    requires c.Sound() && Inv(c, s) && prepared in s.installed
    requires var s' := Execute(c, handle, s, actions);
             i in s'.binds && s'.binds[i].Bound? && s'.binds[i].generation == prepared.generation
    ensures Execute(c, handle, s, actions).binds[i].record == prepared
  {
    var s' := Execute(c, handle, s, actions);
    InstalledOnce(c, handle, s, actions);
    RunKeepsInv(c, handle, s, actions);
    var j :| 0 <= j < |s.installed| && s.installed[j] == prepared;
    var k :| 0 <= k < |s'.installed| && s'.installed[k] == s'.binds[i].record;
    assert s'.installed[j] == prepared;
  }

  /** What a reader without the lock can be handed: only records that were installed. */
  lemma ReadersSeeInstalled(c: Codec, handle: string, s: State, actions: seq<Action>)
    requires c.Sound() && Inv(c, s)
    ensures var s' := Execute(c, handle, s, actions);
            Read(c, s'.files).Some? ==> Read(c, s'.files).value in s'.installed
  {
    RunKeepsInv(c, handle, s, actions);
  }

  /** Every broker has at most one refresh of the handle under way, and its map names it. */
  lemma OneFlightPerBroker(c: Codec, handle: string, s: State, actions: seq<Action>, t: nat, u: nat)
    requires c.Sound() && Inv(c, s)
    requires var s' := Execute(c, handle, s, actions);
             t in s'.tasks && u in s'.tasks && s'.tasks[t].broker == s'.tasks[u].broker
    ensures var s' := Execute(c, handle, s, actions);
            t == u && s'.tasks[t].broker in s'.flights && s'.flights[s'.tasks[t].broker] == t
  {
    RunKeepsInv(c, handle, s, actions);
  }

  /** Every record a refresh works with can be printed and read back. */
  predicate CarriesReadable(c: Codec, phase: Phase) {
    match phase
    case Exchanging(current) => c.Readable(current)
    case Committing(_, next) => c.Readable(next)
    case Writing(next, _, _, _) => c.Readable(next)
    case _ => true
  }

  predicate Fluent(c: Codec, s: State) {
    forall t :: t in s.tasks ==> CarriesReadable(c, s.tasks[t].phase)
  }

  /** The provider's tokens, put in the place of those of a readable record, make a readable record. */
  ghost predicate Printable(c: Codec, a: Action) {
    a.Exchange? && a.tokens.Some? ==>
      forall r: Record :: c.Readable(r) ==> c.Readable(Record(r.handle, r.generation + 1, a.tokens.value))
  }

  ghost predicate AllPrintable(c: Codec, actions: seq<Action>) {
    forall i :: 0 <= i < |actions| ==> Printable(c, actions[i])
  }

  lemma ReadsKeepFluent(c: Codec, s: State, t: nat)
    requires c.Sound() && Fluent(c, s)
    ensures Fluent(c, ReadActiveStep(c, s, t)) && Fluent(c, ReadBackupStep(c, s, t))
  {
  }

  lemma ExchangeKeepsFluent(c: Codec, s: State, t: nat, tokens: Option<string>)
    requires Fluent(c, s) && Printable(c, Exchange(t, tokens))
    ensures Fluent(c, ExchangeStep(s, t, tokens))
  {
  }

  lemma CommitKeepsFluent(c: Codec, handle: string, s: State, t: nat, id: nat)
    requires Fluent(c, s)
    ensures Fluent(c, EnterCommitStep(c, handle, s, t, id)) && Fluent(c, WriteOne(c, s, t)) && Fluent(c, EndCommitStep(c, s, t))
  {
  }

  lemma StepKeepsFluent(c: Codec, handle: string, s: State, a: Action)
    requires c.Sound() && Fluent(c, s) && Printable(c, a)
    ensures Fluent(c, Step(c, handle, s, a))
  {
    match a
    case ReadActiveFile(t) => ReadsKeepFluent(c, s, t);
    case ReadBackupFile(t) => ReadsKeepFluent(c, s, t);
    case Exchange(t, tokens) => ExchangeKeepsFluent(c, s, t, tokens);
    case EnterCommit(t, id) => CommitKeepsFluent(c, handle, s, t, id);
    case WriteStep(t) => CommitKeepsFluent(c, handle, s, t, 0);
    case EndCommit(t) => CommitKeepsFluent(c, handle, s, t, 0);
    case _ =>
  }

  /** Unless a purge has begun, the active file itself holds the newest record. */
  predicate Available(c: Codec, s: State)
    requires s.installed != []
  {
    s.purged || (s.lock.ByPurge? && s.lock.done > 0) || c.ParseFile(s.files.active) == Some(Last(s))
  }

  lemma WriterKeepsActive(c: Codec, files: Files, last: Record, next: Record, base: Files, id: nat, done: nat)
    requires c.Readable(next) && WriterOk(c, files, last, next, base, id, done)
    requires done < |ReplaceEffects(c, base, next, id)|
    requires c.ParseFile(files.active) == Some(last)
    ensures var install := done + 1 == |InstallEffects(c, base, next, id)|;
            c.ParseFile(Apply(files, ReplaceEffects(c, base, next, id)[done]).active) == Some(if install then next else last)
  {
    assert ReplaceEffects(c, base, next, id)[..done + 1][..done] == ReplaceEffects(c, base, next, id)[..done];
    ReplacePrefix(c, base, next, id, done);
    ReplacePrefix(c, base, next, id, done + 1);
  }

  lemma WriteOneKeepsAvailable(c: Codec, s: State, t: nat)
    requires c.Sound() && Inv(c, s) && Fluent(c, s) && Available(c, s)
    ensures WriteOne(c, s, t).installed != [] && Available(c, WriteOne(c, s, t))
  {
    if t in s.tasks && s.tasks[t].phase.Writing? {
      var Writing(next, base, id, done) := s.tasks[t].phase;
      if done < |ReplaceEffects(c, base, next, id)| {
        WriterKeepsActive(c, s.files, Last(s), next, base, id, done);
      }
    }
  }

  lemma StepKeepsAvailable(c: Codec, handle: string, s: State, a: Action)
    requires c.Sound() && Inv(c, s) && Fluent(c, s) && Available(c, s)
    ensures Step(c, handle, s, a).installed != [] && Available(c, Step(c, handle, s, a))
  {
    if Quiet(a) {
      QuietStep(c, handle, s, a);
    } else if a.WriteStep? {
      WriteOneKeepsAvailable(c, s, a.task);
    } else {
      PurgeKeepsAvailable(c, handle, s, a);
    }
  }

  lemma PurgeKeepsAvailable(c: Codec, handle: string, s: State, a: Action)
    requires c.Sound() && Inv(c, s) && Available(c, s) && (a.PurgeStep? || a.EnterPurge? || a.EndPurge?)
    ensures Step(c, handle, s, a).installed != [] && Available(c, Step(c, handle, s, a))
  {
  }

  /**
   * As long as the tokens that come in can be printed, no interleaving of
   * these processes and no death of one makes the credential unreadable, even
   * for a moment, before a purge begins.
   */
  lemma {:induction false} RunKeepsAvailable(c: Codec, handle: string, s: State, actions: seq<Action>)
    requires c.Sound() && Inv(c, s) && Fluent(c, s) && Available(c, s) && AllPrintable(c, actions)
    ensures var last := Execute(c, handle, s, actions); last.installed != [] && Available(c, last) && Fluent(c, last)
  {
    if actions != [] {
      var n := |actions| - 1;
      var before := Execute(c, handle, s, actions[..n]);
      RunKeepsAvailable(c, handle, s, actions[..n]);
      RunKeepsInv(c, handle, s, actions[..n]);
      StepKeepsAvailable(c, handle, before, actions[n]);
      StepKeepsFluent(c, handle, before, actions[n]);
    }
  }

  /** From an idle handle: the input condition alone is enough. */
  lemma StaysAvailable(c: Codec, handle: string, s: State, actions: seq<Action>)
    requires c.Sound() && Init(c, s) && AllPrintable(c, actions)
    ensures var last := Execute(c, handle, s, actions); last.installed != [] && Available(c, last)
  {
    InitInv(c, s);
    RunKeepsAvailable(c, handle, s, actions);
  }

  // ---------------------------------------------------- what refreshes install

  /** Some exchange of the run brought these tokens. */
  predicate Brought(actions: seq<Action>, tokens: string) {
    exists k :: 0 <= k < |actions| && actions[k].Exchange? && actions[k].tokens == Some(tokens)
  }

  lemma BroughtMore(actions: seq<Action>, a: Action, tokens: string)
    ensures Brought(actions, tokens) ==> Brought(actions + [a], tokens)
    ensures a.Exchange? && a.tokens == Some(tokens) ==> Brought(actions + [a], tokens)
  {
    var all := actions + [a];
    assert forall k :: 0 <= k < |actions| ==> all[k] == actions[k];
    assert all[|actions|] == a;
  }

  /** A record on its way to the files belongs to the handle and carries tokens that were brought. */
  predicate OnItsWay(handle: string, actions: seq<Action>, phase: Phase) {
    match phase
    case Exchanging(current) => current.handle == handle
    case Committing(current, next) => next.handle == handle && Brought(actions, next.body)
    case Writing(next, _, _, _) => next.handle == handle && Brought(actions, next.body)
    case _ => true
  }

  predicate AllOnTheirWay(handle: string, actions: seq<Action>, s: State) {
    forall t :: t in s.tasks ==> OnItsWay(handle, actions, s.tasks[t].phase)
  }

  /** Beyond the first `n` records, what is installed carries tokens that were brought. */
  predicate FromTokens(handle: string, actions: seq<Action>, rs: seq<Record>, n: nat) {
    && (forall i :: 0 <= i < |rs| ==> rs[i].handle == handle)
    && (forall i :: n <= i < |rs| ==> Brought(actions, rs[i].body))
  }

  lemma ReadOnTheWay(c: Codec, handle: string, all: seq<Action>, s: State, t: nat)
    requires s.installed != [] && FilesKnown(c, s) && AllOnTheirWay(handle, all, s)
    requires forall r :: r in s.installed ==> r.handle == handle
    ensures AllOnTheirWay(handle, all, ReadActiveStep(c, s, t)) && AllOnTheirWay(handle, all, ReadBackupStep(c, s, t))
  {
  }

  lemma CommitOnTheWay(c: Codec, h: string, handle: string, all: seq<Action>, s: State, t: nat, id: nat)
    requires AllOnTheirWay(handle, all, s)
    ensures AllOnTheirWay(handle, all, EnterCommitStep(c, h, s, t, id))
    ensures AllOnTheirWay(handle, all, WriteOne(c, s, t)) && AllOnTheirWay(handle, all, EndCommitStep(c, s, t))
  {
  }

  lemma ExchangeOnTheWay(handle: string, all: seq<Action>, s: State, t: nat, tokens: Option<string>)
    requires AllOnTheirWay(handle, all, s) && (tokens.Some? ==> Brought(all, tokens.value))
    ensures AllOnTheirWay(handle, all, ExchangeStep(s, t, tokens))
  {
  }

  lemma StepOnTheWay(c: Codec, h: string, handle: string, actions: seq<Action>, s: State, a: Action)
    requires s.installed != [] && FilesKnown(c, s) && AllOnTheirWay(handle, actions, s)
    requires forall r :: r in s.installed ==> r.handle == handle
    ensures AllOnTheirWay(handle, actions + [a], Step(c, h, s, a))
  {
    var all := actions + [a];
    forall tokens
      ensures Brought(actions, tokens) ==> Brought(all, tokens)
      ensures a.Exchange? && a.tokens == Some(tokens) ==> Brought(all, tokens)
    {
      BroughtMore(actions, a, tokens);
    }
    assert AllOnTheirWay(handle, all, s);
    match a
    case ReadActiveFile(t) => ReadOnTheWay(c, handle, all, s, t);
    case ReadBackupFile(t) => ReadOnTheWay(c, handle, all, s, t);
    case Exchange(t, tokens) => ExchangeOnTheWay(handle, all, s, t, tokens);
    case EnterCommit(t, id) => CommitOnTheWay(c, h, handle, all, s, t, id);
    case WriteStep(t) => CommitOnTheWay(c, h, handle, all, s, t, 0);
    case EndCommit(t) => CommitOnTheWay(c, h, handle, all, s, t, 0);
    case _ =>
  }

  lemma StepInstalls(c: Codec, h: string, handle: string, actions: seq<Action>, s: State, a: Action, n: nat)
    requires AllOnTheirWay(handle, actions, s) && FromTokens(handle, actions, s.installed, n)
    ensures FromTokens(handle, actions + [a], Step(c, h, s, a).installed, n)
  {
    assert Step(c, h, s, a).installed == s.installed
           || (a.WriteStep? && a.task in s.tasks && s.tasks[a.task].phase.Writing?
               && Step(c, h, s, a).installed == s.installed + [s.tasks[a.task].phase.next]);
    forall tokens ensures Brought(actions, tokens) ==> Brought(actions + [a], tokens) {
      BroughtMore(actions, a, tokens);
    }
  }

  lemma {:induction false} RunInstalls(c: Codec, h: string, s: State, actions: seq<Action>)
    requires c.Sound() && Init(c, s)
    ensures var last := Execute(c, h, s, actions);
            && AllOnTheirWay(s.installed[0].handle, actions, last)
            && FromTokens(s.installed[0].handle, actions, last.installed, 1)
  {
    InitInv(c, s);
    if actions != [] {
      var before, a := actions[..|actions| - 1], actions[|actions| - 1];
      assert actions == before + [a];
      RunInstalls(c, h, s, before);
      RunKeepsInv(c, h, s, before);
      HistoryGrows(c, h, s, before);
      StepOnTheWay(c, h, s.installed[0].handle, before, Execute(c, h, s, before), a);
      StepInstalls(c, h, s.installed[0].handle, before, Execute(c, h, s, before), a, 1);
    }
  }

  /**
   * Over every run from an idle handle, each record that is installed belongs
   * to the handle and carries the tokens of an exchange of the run, in the next
   * generation: no refresh keeps the tokens it was to replace.
   */
  lemma InstalledCarriesTokens(c: Codec, h: string, s: State, actions: seq<Action>, i: nat)
    requires c.Sound() && Init(c, s) && |s.installed| <= i < |Execute(c, h, s, actions).installed|
    ensures var rs := Execute(c, h, s, actions).installed;
            && rs[i].handle == rs[i - 1].handle && rs[i].generation == rs[i - 1].generation + 1
            && exists k :: 0 <= k < |actions| && actions[k].Exchange? && actions[k].tokens == Some(rs[i].body)
  {
    RunInstalls(c, h, s, actions);
    InitInv(c, s);
    InstalledOnce(c, h, s, actions);
    var rs := Execute(c, h, s, actions).installed;
    assert Brought(actions, rs[i].body);
  }

  /** A commit that ends settles its refresh with the newest record if that could be read back, and else with none. */
  lemma CommitSettles(c: Codec, s: State, t: nat)
    requires c.Sound() && Inv(c, s) && t in s.tasks && s.tasks[t].phase.Writing?
    requires s.tasks[t].phase.done == |ReplaceEffects(c, s.tasks[t].phase.base, s.tasks[t].phase.next, s.tasks[t].phase.id)|
    ensures var q, next := EndCommitStep(c, s, t), s.tasks[t].phase.next;
            && q.lock == Free && t in q.tasks
            && q.tasks[t] == Task(s.tasks[t].broker, Settled(if c.Readable(next) then Some(Last(s)) else None))
            && (c.Readable(next) ==> Last(s) == next)
  {
  }
}

/**
 * The stream pump (src/routes/stream-pump.ts) as a transition system: the
 * generator moves from one suspension to the next, interleaved with the
 * upstream, the timers, the client and the consumer.
 */
module StreamPump {
  import opened Wrappers
  import opened StreamLifecycle

  /** A wire frame and, if formatting it throws, the error. */
  datatype Wire = Wire(text: string, fault: Option<string>)

  datatype Chunk = Data(text: string) | ErrorFrame(error: string) | TimeoutFrame(category: Category)

  /** Why the upstream iterator is being closed. */
  datatype Completion = Break | Return | Throw(error: string)

  /** Where the generator is suspended. */
  datatype Pc =
    | NotStarted
    | AwaitEvent                           // `for await` waits for the upstream
    | AtFrame(rest: seq<Wire>)             // at the yield of a data chunk; `rest` comes next
    | ClosingSource(completion: Completion)
    | AwaitComplete                        // `onComplete` is running
    | AtLastFrame                          // at the yield of the error or timeout chunk
    | Done

  datatype Pump = Pump(
    pc: Pc,
    life: Life,
    cleanEnd: bool,
    out: seq<Chunk>,         // chunks yielded
    encoded: seq<Wire>,      // history: frames the encoder has produced
    sent: nat,               // history: data chunks yielded
    finishes: nat,           // history: runs of the `finally` block
    recorded: Option<Terminal>)  // history: the kind reported to `onFinished`

  datatype Action =
    | Pull                                          // the consumer asks for the next chunk
    | Stop                                          // the consumer calls `return`
    | Fail(error: string)                           // the consumer calls `throw`
    | Event(frames: Result<seq<Wire>, string>)      // an event and what the encoder makes of it
    | SourceEnd(verdict: Option<string>)            // the upstream ends; an error of `encoder.finish`
    | SourceThrow(error: string)
    | SourceClosed(fault: Option<string>)
    | HookDone(fault: Option<string>)
    | SetupTimer
    | IdleTimer
    | ClientAbort

  function Start(clientAborted: bool): Pump {
    Pump(NotStarted, Create(clientAborted), false, [], [], 0, 0, None)
  }

  function Finally(p: Pump): Pump {
    var life := Finish(p.life, if p.cleanEnd then CompletedOutcome else ErrorOutcome, p.cleanEnd);
    p.(pc := Done, life := life, finishes := p.finishes + 1, recorded := life.terminal)
  }

  /** The catch block. */
  function Catch(p: Pump, error: string): Pump {
    var q := p.(cleanEnd := false);
    match p.life.terminal
    case Some(Cancelled) => Finally(q)
    case Some(Timeout(category)) => q.(pc := AtLastFrame, out := p.out + [TimeoutFrame(category)])
    case _ => q.(pc := AtLastFrame, out := p.out + [ErrorFrame(error)])
  }

  /** The rest of the loop over the frames of one event. */
  function NextFrame(p: Pump, frames: seq<Wire>): Pump {
    if frames == [] then p.(pc := AwaitEvent, life := ArmIdle(p.life))
    else if frames[0].fault.Some? then p.(pc := ClosingSource(Throw(frames[0].fault.value)))
    else if Terminated(p.life) then p.(pc := AwaitEvent, life := ArmIdle(p.life))
    else p.(pc := AtFrame(frames[1..]), out := p.out + [Data(frames[0].text)], sent := p.sent + 1)
  }

  function OnEvent(p: Pump, frames: Result<seq<Wire>, string>): Pump {
    if Terminated(p.life) then p.(pc := ClosingSource(Break))
    else
      var q := p.(life := NoteEvent(p.life));
      match frames
      case Err(error) => q.(pc := ClosingSource(Throw(error)))
      case Ok(fs) => NextFrame(q.(encoded := p.encoded + fs), fs)
  }

  /** After the loop, reached by exhaustion or by a break. */
  function AfterLoop(p: Pump, verdict: Option<string>): Pump {
    var q := p.(cleanEnd := p.life.terminal.None?);
    if p.life.terminal.Some? then Finally(q)
    else if verdict.Some? then Catch(q, verdict.value)
    else q.(pc := AwaitComplete)
  }

  function OnClosed(p: Pump, completion: Completion, error: Option<string>): Pump {
    match completion
    case Throw(e) => Catch(p, e)
    case Break => if error.Some? then Catch(p, error.value) else AfterLoop(p, None)
    case Return => if error.Some? then Catch(p, error.value) else Finally(p)
  }

  /** One step; an action that is not possible in `p` leaves it as it is. */
  function Step(p: Pump, a: Action): Pump {
    match a
    case Pull =>
      if p.pc.NotStarted? then p.(pc := AwaitEvent)
      else if p.pc.AtFrame? then NextFrame(p.(life := NoteFrame(p.life)), p.pc.rest)
      else if p.pc.AtLastFrame? then Finally(p)
      else p
    case Stop =>
      if p.pc.NotStarted? then p.(pc := Done)
      else if p.pc.AtFrame? then p.(pc := ClosingSource(Return))
      else if p.pc.AtLastFrame? then Finally(p)
      else p
    case Fail(error) =>
      if p.pc.NotStarted? then p.(pc := Done)
      else if p.pc.AtFrame? then p.(pc := ClosingSource(Throw(error)))
      else if p.pc.AtLastFrame? then Finally(p)
      else p
    case Event(frames) => if p.pc.AwaitEvent? then OnEvent(p, frames) else p
    case SourceEnd(verdict) => if p.pc.AwaitEvent? then AfterLoop(p, verdict) else p
    case SourceThrow(error) => if p.pc.AwaitEvent? then Catch(p, error) else p
    case SourceClosed(error) => if p.pc.ClosingSource? then OnClosed(p, p.pc.completion, error) else p
    case HookDone(error) =>
      if !p.pc.AwaitComplete? then p
      else if error.Some? then Catch(p, error.value)
      else Finally(p)
    case SetupTimer => p.(life := SetupFires(p.life))
    case IdleTimer => p.(life := IdleFires(p.life))
    case ClientAbort => p.(life := ClientAborts(p.life))
  }

  function Execute(p: Pump, actions: seq<Action>): Pump {
    if actions == [] then p else Step(Execute(p, actions[..|actions| - 1]), actions[|actions| - 1])
  }

  // -------------------------------------------------------------- invariants

  function Chunks(wires: seq<Wire>): seq<Chunk> {
    seq(|wires|, i requires 0 <= i < |wires| => Data(wires[i].text))
  }

  /** Data chunks are the encoder's first frames in order; at most one other chunk follows them. */
  predicate InOrder(p: Pump) {
    && p.sent <= |p.encoded|
    && (p.out == Chunks(p.encoded[..p.sent])
        || (|p.out| == p.sent + 1 && p.out[..p.sent] == Chunks(p.encoded[..p.sent]) && !p.out[p.sent].Data?))
    && (|p.out| > p.sent ==> p.pc.AtLastFrame? || p.pc.Done?)
    && (p.pc.AtFrame? ==> p.encoded[p.sent..] == p.pc.rest)
    && (p.pc.NotStarted? ==> p.encoded == [])
    && (p.pc.AwaitEvent? && !Terminated(p.life) ==> p.sent == |p.encoded|)
    && (p.pc.AwaitComplete? ==> p.sent == |p.encoded|)
    && p.life.frameCount <= p.sent <= p.life.frameCount + 1
    && (p.pc.AwaitEvent? || p.pc.NotStarted? ==> p.life.frameCount == p.sent)
    && (p.pc.AtFrame? ==> p.life.frameCount + 1 == p.sent)
  }

  /** The finally block runs when the generator ends after its first step, and only then. */
  predicate FinishedOnce(p: Pump) {
    && (p.life.listening ==> p.life.bound)
    && (p.life.finished <==> p.finishes == 1)
    && p.finishes <= 1
    && (p.finishes == 1 ==> p.pc.Done? && p.recorded == p.life.terminal && p.recorded.Some?
                             && p.life.setup == Unset && p.life.idle == Unset && !p.life.listening)
    && (p.pc.Done? && p.finishes == 0 ==> p.out == [] && p.encoded == [] && p.recorded == None)
    && (p.finishes == 0 ==> p.recorded == None)
    && (p.cleanEnd ==> p.pc.AwaitComplete? || p.pc.Done?)
    && (p.pc.AwaitComplete? ==> p.cleanEnd)
    && (p.life.terminal.Some? && p.finishes == 0 ==> p.life.terminal.value.Timeout? || p.life.terminal.value.Cancelled?)
    && (p.pc == ClosingSource(Break) ==> p.life.terminal.Some?)
  }

  /** Which timer is armed where, for a client that was there at creation. */
  predicate Timed(p: Pump) {
    && (Terminated(p.life) ==> p.life.setup != Pending && p.life.idle != Pending)
    && p.life.setup != Fired && p.life.idle != Fired
    && ((p.pc.NotStarted? || p.pc.AwaitEvent? || p.pc.AwaitComplete?) && !Terminated(p.life) ==>
          && p.life.setup == (if p.life.eventCount == 0 then Pending else Unset)
          && p.life.idle == (if p.life.eventCount == 0 then Unset else Pending))
    && (p.pc.AtFrame? || p.pc.ClosingSource? ==> p.life.setup == Unset && p.life.idle == Unset)
    && (p.pc.AtFrame? ==> p.life.eventCount > 0)
    && (p.pc.NotStarted? ==> p.life.eventCount == 0)
  }

  predicate Inv(p: Pump) {
    InOrder(p) && FinishedOnce(p)
  }

  lemma NextFrameKeepsInv(p: Pump, frames: seq<Wire>)
    requires FinishedOnce(p) && p.finishes == 0 && !p.cleanEnd
    requires p.sent <= |p.encoded| && p.encoded[p.sent..] == frames
    requires p.out == Chunks(p.encoded[..p.sent]) && p.life.frameCount == p.sent
    ensures Inv(NextFrame(p, frames))
  {
    if frames != [] {
      assert p.encoded[p.sent] == frames[0];
      assert p.encoded[..p.sent + 1] == p.encoded[..p.sent] + [frames[0]];
      assert p.encoded[p.sent + 1..] == frames[1..];
    }
  }

  lemma CatchKeepsInv(p: Pump, error: string)
    requires Inv(p) && p.finishes == 0 && !p.pc.Done? && |p.out| == p.sent && !p.pc.NotStarted?
    ensures Inv(Catch(p, error))
  {
  }

  lemma FinallyKeepsInv(p: Pump)
    requires Inv(p) && p.finishes == 0 && !p.pc.NotStarted?
    requires p.cleanEnd ==> p.pc.AwaitComplete?
    ensures Inv(Finally(p))
  {
  }

  lemma ConsumerKeepsInv(p: Pump, a: Action)
    requires Inv(p) && (a.Pull? || a.Stop? || a.Fail?)
    ensures Inv(Step(p, a))
  {
    if a.Pull? && p.pc.AtFrame? {
      NextFrameKeepsInv(p.(life := NoteFrame(p.life)), p.pc.rest);
    }
  }

  lemma EventKeepsInv(p: Pump, frames: Result<seq<Wire>, string>)
    requires Inv(p)
    ensures Inv(Step(p, Event(frames)))
  {
    if p.pc.AwaitEvent? && !Terminated(p.life) && frames.Ok? {
      var encoded := p.encoded + frames.value;
      assert encoded[..p.sent] == p.encoded[..p.sent];
      assert encoded[p.sent..] == frames.value;
      NextFrameKeepsInv(p.(life := NoteEvent(p.life), encoded := encoded), frames.value);
    }
  }

  lemma TimersKeepInv(p: Pump, a: Action)
    requires Inv(p) && (a.SetupTimer? || a.IdleTimer? || a.ClientAbort?)
    ensures Inv(Step(p, a))
  {
  }

  lemma StepKeepsInv(p: Pump, a: Action)
    requires Inv(p)
    ensures Inv(Step(p, a))
  {
    match a
    case Pull => ConsumerKeepsInv(p, a);
    case Stop => ConsumerKeepsInv(p, a);
    case Fail(_) => ConsumerKeepsInv(p, a);
    case Event(frames) => EventKeepsInv(p, frames);
    case SourceEnd(verdict) =>
      if verdict.Some? && p.pc.AwaitEvent? { CatchKeepsInv(p, verdict.value); }
    case SourceThrow(error) =>
      if p.pc.AwaitEvent? { CatchKeepsInv(p, error); }
    case SourceClosed(fault) =>
      if p.pc.ClosingSource? {
        CatchKeepsInv(p, if p.pc.completion.Throw? then p.pc.completion.error else if fault.Some? then fault.value else "");
      }
    case HookDone(fault) =>
      if p.pc.AwaitComplete? && fault.Some? { CatchKeepsInv(p, fault.value); }
    case SetupTimer => TimersKeepInv(p, a);
    case IdleTimer => TimersKeepInv(p, a);
    case ClientAbort => TimersKeepInv(p, a);
  }

  lemma {:induction false} RunKeepsInv(p: Pump, actions: seq<Action>)
    requires Inv(p)
    ensures Inv(Execute(p, actions))
  {
    if actions != [] {
      RunKeepsInv(p, actions[..|actions| - 1]);
      StepKeepsInv(Execute(p, actions[..|actions| - 1]), actions[|actions| - 1]);
    }
  }

  // ------------------------------------------------------------ main results

  /**
   * Over every interleaving the chunks yielded are a prefix of the encoder's
   * frames, in order, followed by at most one error or timeout chunk.
   */
  lemma YieldsPrefix(clientAborted: bool, actions: seq<Action>)
    ensures exists n: nat, last: Option<Chunk> :: FramesThen(Execute(Start(clientAborted), actions), n, last)
  {
    RunKeepsInv(Start(clientAborted), actions);
    var p := Execute(Start(clientAborted), actions);
    var last := if |p.out| > p.sent then Some(p.out[p.sent]) else None;
    assert p.out[..|p.out|] == p.out;
    assert FramesThen(p, p.sent, last);
  }

  /** The output is the first `n` frames and then `last`, an error or timeout chunk if any. */
  ghost predicate FramesThen(p: Pump, n: nat, last: Option<Chunk>) {
    && n <= |p.encoded|
    && (last.Some? ==> !last.value.Data?)
    && p.out == Chunks(p.encoded[..n]) + if last.Some? then [last.value] else []
  }

  /** While nothing has ended the stream, every encoded frame has been handed over when the pump waits. */
  lemma NothingHeldBack(clientAborted: bool, actions: seq<Action>)
    ensures var p := Execute(Start(clientAborted), actions);
            && (p.pc.AwaitEvent? && !Terminated(p.life) ==> p.out == Chunks(p.encoded))
            && (p.finishes == 1 && p.recorded == Some(Completed) ==> p.out == Chunks(p.encoded))
  {
    CompletedSentAll(clientAborted, actions);
    RunKeepsInv(Start(clientAborted), actions);
    var p := Execute(Start(clientAborted), actions);
    assert p.encoded[..|p.encoded|] == p.encoded;
  }

  lemma {:induction false} CompletedSentAll(clientAborted: bool, actions: seq<Action>)
    ensures var p := Execute(Start(clientAborted), actions);
            p.recorded == Some(Completed) ==> p.sent == |p.encoded| && |p.out| == p.sent
  {
    if actions != [] {
      var before := actions[..|actions| - 1];
      CompletedSentAll(clientAborted, before);
      RunKeepsInv(Start(clientAborted), before);
      RunKeepsInv(Start(clientAborted), actions);
      var p := Execute(Start(clientAborted), before);
      if p.finishes == 0 {
        RecordedCompleted(p, actions[|actions| - 1]);
      } else {
        DoneStays(p, [actions[|actions| - 1]]);
      }
    }
  }

  predicate Silent(p: Pump) { p.pc.Done? || p.life.terminal == Some(Cancelled) }

  lemma ConsumerSilent(p: Pump, a: Action)
    requires Inv(p) && Silent(p) && (a.Pull? || a.Stop? || a.Fail?)
    ensures Step(p, a).out == p.out && Silent(Step(p, a))
  {
  }

  lemma UpstreamSilent(p: Pump, a: Action)
    requires Inv(p) && Silent(p) && (a.Event? || a.SourceEnd? || a.SourceThrow? || a.SourceClosed? || a.HookDone?)
    ensures Step(p, a).out == p.out && Silent(Step(p, a))
  {
  }

  lemma StepSilent(p: Pump, a: Action)
    requires Inv(p) && Silent(p)
    ensures Step(p, a).out == p.out && Silent(Step(p, a))
  {
    if a.Pull? || a.Stop? || a.Fail? {
      ConsumerSilent(p, a);
    } else if !(a.SetupTimer? || a.IdleTimer? || a.ClientAbort?) {
      UpstreamSilent(p, a);
    }
  }

  /** Once the client has cancelled nothing is yielded any more. */
  lemma {:induction false} SilentAfterCancel(p: Pump, actions: seq<Action>)
    requires Inv(p) && p.life.terminal == Some(Cancelled)
    ensures Execute(p, actions).out == p.out && Silent(Execute(p, actions))
  {
    if actions != [] {
      SilentAfterCancel(p, actions[..|actions| - 1]);
      RunKeepsInv(p, actions[..|actions| - 1]);
      StepSilent(Execute(p, actions[..|actions| - 1]), actions[|actions| - 1]);
    }
  }

  /** The actions by which an exception enters the pump's catch block. */
  predicate Throws(p: Pump, a: Action) {
    match a
    case SourceThrow(_) => p.pc.AwaitEvent?
    case SourceEnd(verdict) => p.pc.AwaitEvent? && !Terminated(p.life) && verdict.Some?
    case HookDone(fault) => p.pc.AwaitComplete? && fault.Some?
    case SourceClosed(fault) => p.pc.ClosingSource? && (p.pc.completion.Throw? || fault.Some?)
    case _ => false
  }

  /**
   * A timeout chunk is yielded exactly when something throws after the
   * timeout, and it names the timer that fired.
   */
  lemma TimeoutChunkIff(p: Pump, a: Action, category: Category)
    requires Inv(p)
    ensures Step(p, a).out == p.out + [TimeoutFrame(category)]
       <==> Throws(p, a) && p.life.terminal == Some(Timeout(category))
  {
    if Step(p, a).out == p.out + [TimeoutFrame(category)] {
      assert Step(p, a).out[|p.out|] == TimeoutFrame(category);
    }
  }

  /** The same for the error chunk: a throw while nothing had ended the stream. */
  lemma ErrorChunkIff(p: Pump, a: Action)
    requires Inv(p)
    ensures (exists error :: Step(p, a).out == p.out + [ErrorFrame(error)]) <==> Throws(p, a) && !Terminated(p.life)
  {
    if error :| Step(p, a).out == p.out + [ErrorFrame(error)] {
      assert Step(p, a).out[|p.out|] == ErrorFrame(error);
    }
  }

  /**
   * The header promises one in-band error frame on a timeout; an upstream that
   * answers the abort with an ordinary event, or ends, gets none.
   */
  lemma QuietTimeout(p: Pump, category: Category, frames: Result<seq<Wire>, string>, verdict: Option<string>)
    requires Inv(p) && p.pc.AwaitEvent? && p.life.terminal == Some(Timeout(category))
    ensures var q := Step(Step(p, Event(frames)), SourceClosed(None));
            q.pc.Done? && q.out == p.out && q.recorded == Some(Timeout(category))
    ensures var q := Step(p, SourceEnd(verdict));
            q.pc.Done? && q.out == p.out && q.recorded == Some(Timeout(category))
  {
  }

  /**
   * Such a run: pulled, timed out before the first event, and answered by one.
   * Nothing is yielded, though the client is still there.
   */
  lemma QuietTimeoutRun(frames: Result<seq<Wire>, string>)
    ensures var p := Execute(Start(false), [Pull, SetupTimer, Event(frames), SourceClosed(None)]);
            p.pc.Done? && p.out == [] && p.recorded == Some(Timeout(Setup)) && p.finishes == 1
  {
    var a0, a1, a2, a3 := Pull, SetupTimer, Event(frames), SourceClosed(None);
    assert [a0, a1, a2, a3][..3] == [a0, a1, a2] && [a0, a1, a2][..2] == [a0, a1] && [a0, a1][..1] == [a0];
    assert [a0][..0] == [];
    assert Execute(Start(false), [a0]) == Step(Start(false), a0);
    assert Execute(Start(false), [a0, a1]) == Step(Step(Start(false), a0), a1);
    assert Execute(Start(false), [a0, a1, a2]) == Step(Step(Step(Start(false), a0), a1), a2);
    assert Execute(Start(false), [a0, a1, a2, a3]) == Step(Step(Step(Step(Start(false), a0), a1), a2), a3);
  }

  /**
   * A pump that has taken its first step and ended has run its finally block
   * exactly once; no timer is left to fire and no listener is attached, and
   * nothing that happens later changes that.
   */
  lemma FinallyExactlyOnce(clientAborted: bool, actions: seq<Action>, later: seq<Action>)
    ensures var p := Execute(Start(clientAborted), actions);
            && p.finishes <= 1
            && (p.finishes == 1 ==> p.pc.Done? && p.life.setup == Unset && p.life.idle == Unset && !p.life.listening
                                    && p.recorded.Some? && Execute(p, later) == p)
            && (p.pc.Done? && p.finishes == 0 ==> p.out == [])
            && (!p.pc.Done? ==> p.finishes == 0)
  {
    RunKeepsInv(Start(clientAborted), actions);
    var p := Execute(Start(clientAborted), actions);
    if p.finishes == 1 {
      DoneStays(p, later);
    }
  }

  lemma {:induction false} DoneStays(p: Pump, later: seq<Action>)
    requires Inv(p) && p.finishes == 1
    ensures Execute(p, later) == p
  {
    if later != [] {
      DoneStays(p, later[..|later| - 1]);
    }
  }

  /** The consumer pulled before it did anything else to the generator. */
  predicate Opened(actions: seq<Action>) {
    exists k :: 0 <= k < |actions| && actions[k].Pull? && NoConsumer(actions[..k])
  }

  predicate NoConsumer(actions: seq<Action>) {
    forall i :: 0 <= i < |actions| ==> !actions[i].Pull? && !actions[i].Stop? && !actions[i].Fail?
  }

  lemma OpenedMore(actions: seq<Action>, a: Action)
    ensures Opened(actions + [a]) <==> Opened(actions) || (NoConsumer(actions) && a.Pull?)
    ensures NoConsumer(actions + [a]) <==> NoConsumer(actions) && !a.Pull? && !a.Stop? && !a.Fail?
  {
    var all, n := actions + [a], |actions|;
    assert all[..n] == actions && all[n] == a;
    forall k | 0 <= k < n ensures all[k] == actions[k] && all[..k] == actions[..k] {}
    if Opened(all) {
      var k :| 0 <= k < |all| && all[k].Pull? && NoConsumer(all[..k]);
      assert k < n ==> actions[k].Pull? && NoConsumer(actions[..k]);
    }
    if Opened(actions) {
      var k :| 0 <= k < n && actions[k].Pull? && NoConsumer(actions[..k]);
      assert all[k].Pull? && NoConsumer(all[..k]);
    }
  }

  /** One step of a pump that has been started: it ends if and only if the finally block has run. */
  lemma StartedStep(p: Pump, a: Action)
    requires Inv(p) && !p.pc.NotStarted? && (p.pc.Done? <==> p.finishes == 1)
    ensures !Step(p, a).pc.NotStarted? && (Step(p, a).pc.Done? <==> Step(p, a).finishes == 1)
  {
    if p.pc.Done? {
      DoneStays(p, [a]);
      assert Execute(p, [a][..0]) == p;
      assert Execute(p, [a]) == Step(p, a);
    } else {
      StartedEndsWithFinally(p, a);
      StepKeepsInv(p, a);
    }
  }

  /**
   * Over every run: a pump whose consumer has pulled first ends exactly when
   * its finally block has run, and that is once; one that was closed first
   * never runs it.
   */
  lemma {:induction false} EndedIffFinally(clientAborted: bool, actions: seq<Action>)
    ensures var p := Execute(Start(clientAborted), actions);
            && (p.pc.NotStarted? <==> NoConsumer(actions))
            && (p.finishes == 1 <==> p.pc.Done? && Opened(actions))
            && (!Opened(actions) ==> p.finishes == 0 && (p.pc.NotStarted? || p.pc.Done?))
  {
    if actions != [] {
      var n := |actions| - 1;
      var before, a := actions[..n], actions[n];
      assert actions == before + [a];
      EndedIffFinally(clientAborted, before);
      OpenedMore(before, a);
      var p := Execute(Start(clientAborted), before);
      RunKeepsInv(Start(clientAborted), before);
      if Opened(before) {
        NotBoth(before);
        StartedStep(p, a);
      }
    }
  }

  lemma NotBoth(actions: seq<Action>)
    requires Opened(actions)
    ensures !NoConsumer(actions)
  {
    var k :| 0 <= k < |actions| && actions[k].Pull? && NoConsumer(actions[..k]);
  }

  /** In particular for a consumer that starts by pulling. */
  lemma PulledFirst(clientAborted: bool, rest: seq<Action>)
    ensures var p := Execute(Start(clientAborted), [Pull] + rest); p.pc.Done? <==> p.finishes == 1
  {
    var actions := [Pull] + rest;
    assert actions[0].Pull? && NoConsumer(actions[..0]);
    EndedIffFinally(clientAborted, actions);
  }

  /** A generator closed before its first step never runs its finally block and leaves the timer and the listener. */
  lemma ClosedBeforeStart(error: string)
    ensures forall a :: a == Stop || a == Fail(error) ==>
              var p := Step(Start(false), a);
              p.pc.Done? && p.finishes == 0 && p.life.setup == Pending && p.life.listening
  {
  }

  /** A started pump never gets back, so every end of a started pump runs the finally block. */
  lemma StartedEndsWithFinally(p: Pump, a: Action)
    requires Inv(p) && !p.pc.Done?
    ensures Step(p, a).pc.Done? ==> (Step(p, a).finishes == 1 <==> !p.pc.NotStarted?)
    ensures Step(p, a).pc.NotStarted? ==> p.pc.NotStarted?
  {
  }

  /**
   * The recorded kind, decided in the step that ends the pump: completed if
   * and only if both completion hooks have succeeded and no timer fired
   * meanwhile; a client abort after the end of the upstream does not count.
   */
  lemma RecordedCompleted(p: Pump, a: Action)
    requires Inv(p) && p.finishes == 0
    ensures Step(p, a).recorded == Some(Completed)
       <==> p.pc.AwaitComplete? && a == HookDone(None) && (p.life.terminal.None? || p.life.terminal == Some(Cancelled))
    ensures !p.pc.AwaitComplete? && Step(p, a).pc.AwaitComplete?
       <==> p.pc.AwaitEvent? && a == SourceEnd(None) && !Terminated(p.life)
    ensures Step(p, a).recorded.Some? && Step(p, a).recorded != Some(Completed) ==>
              Step(p, a).recorded == Some(if p.life.terminal.Some? then p.life.terminal.value else Error)
  {
  }

  /** An armed timer goes off on a stream that nothing has ended yet. */
  predicate Fires(p: Pump, a: Action) {
    !Terminated(p.life) && ((a.SetupTimer? && p.life.setup == Pending) || (a.IdleTimer? && p.life.idle == Pending))
  }

  /** The upstream has drained, and since then no timer has gone off. */
  predicate Draining(p: Pump) {
    p.pc.AwaitComplete? && (p.life.terminal.None? || p.life.terminal == Some(Cancelled))
  }

  /** In `p` the upstream ends cleanly and nothing has ended the stream. */
  predicate Drains(p: Pump, a: Action) {
    a == SourceEnd(None) && p.pc.AwaitEvent? && !Terminated(p.life)
  }

  predicate DrainsAt(b: bool, actions: seq<Action>, k: int) {
    0 <= k < |actions| && Drains(Execute(Start(b), actions[..k]), actions[k])
  }

  predicate QuietAt(b: bool, actions: seq<Action>, k: int) {
    0 <= k < |actions| && !actions[k].HookDone? && !Fires(Execute(Start(b), actions[..k]), actions[k])
  }

  /** The `i`-th action drains the upstream; after it no completion hook returns and no timer goes off. */
  ghost predicate DrainedAt(b: bool, actions: seq<Action>, i: int) {
    DrainsAt(b, actions, i) && forall k :: i < k < |actions| ==> QuietAt(b, actions, k)
  }

  ghost predicate Drained(b: bool, actions: seq<Action>) {
    exists i :: DrainedAt(b, actions, i)
  }

  lemma StepDrains(p: Pump, a: Action)
    requires Inv(p)
    ensures Draining(Step(p, a)) <==> (Draining(p) && !a.HookDone? && !Fires(p, a)) || Drains(p, a)
  {
  }

  lemma SameBefore(b: bool, actions: seq<Action>, a: Action, k: int)
    requires k < |actions|
    ensures DrainsAt(b, actions + [a], k) <==> DrainsAt(b, actions, k)
    ensures QuietAt(b, actions + [a], k) <==> QuietAt(b, actions, k)
  {
    if 0 <= k {
      assert (actions + [a])[..k] == actions[..k] && (actions + [a])[k] == actions[k];
    }
  }

  lemma AtTheEnd(b: bool, actions: seq<Action>, a: Action)
    ensures var p := Execute(Start(b), actions);
            && (DrainsAt(b, actions + [a], |actions|) <==> Drains(p, a))
            && (QuietAt(b, actions + [a], |actions|) <==> !a.HookDone? && !Fires(p, a))
  {
    assert (actions + [a])[..|actions|] == actions;
  }

  lemma DrainedAtMore(b: bool, actions: seq<Action>, a: Action, i: int)
    ensures DrainedAt(b, actions + [a], i) <==>
            if i == |actions| then DrainsAt(b, actions + [a], i)
            else DrainedAt(b, actions, i) && QuietAt(b, actions + [a], |actions|)
  {
    forall k | k < |actions|
      ensures DrainsAt(b, actions + [a], k) <==> DrainsAt(b, actions, k)
      ensures QuietAt(b, actions + [a], k) <==> QuietAt(b, actions, k)
    {
      SameBefore(b, actions, a, k);
    }
  }

  lemma DrainedMore(b: bool, actions: seq<Action>, a: Action)
    ensures var p := Execute(Start(b), actions);
            Drained(b, actions + [a]) <==> (Drained(b, actions) && !a.HookDone? && !Fires(p, a)) || Drains(p, a)
  {
    AtTheEnd(b, actions, a);
    forall i ensures DrainedAt(b, actions + [a], i) <==>
                     if i == |actions| then DrainsAt(b, actions + [a], i)
                     else DrainedAt(b, actions, i) && QuietAt(b, actions + [a], |actions|)
    {
      DrainedAtMore(b, actions, a, i);
    }
    assert DrainedAt(b, actions + [a], |actions|) <==> DrainsAt(b, actions + [a], |actions|);
  }

  lemma {:induction false} DrainingIff(b: bool, actions: seq<Action>)
    ensures Draining(Execute(Start(b), actions)) <==> Drained(b, actions)
  {
    if actions != [] {
      var before, a := actions[..|actions| - 1], actions[|actions| - 1];
      assert actions == before + [a];
      DrainingIff(b, before);
      RunKeepsInv(Start(b), before);
      StepDrains(Execute(Start(b), before), a);
      DrainedMore(b, before, a);
    }
  }

  /** The completion hook succeeds at the `j`-th action, after the upstream has drained. */
  ghost predicate CompletedAt(b: bool, actions: seq<Action>, j: int) {
    0 <= j < |actions| && actions[j] == HookDone(None) && Drained(b, actions[..j])
  }

  ghost predicate CompletedRun(b: bool, actions: seq<Action>) {
    exists j :: CompletedAt(b, actions, j)
  }

  lemma CompletedMore(b: bool, actions: seq<Action>, a: Action)
    ensures CompletedRun(b, actions + [a]) <==> CompletedRun(b, actions) || (a == HookDone(None) && Drained(b, actions))
  {
    var all, n := actions + [a], |actions|;
    assert all[..n] == actions && all[n] == a;
    forall j | 0 <= j < n ensures CompletedAt(b, all, j) <==> CompletedAt(b, actions, j) {
      assert all[..j] == actions[..j];
    }
    assert CompletedAt(b, all, n) <==> a == HookDone(None) && Drained(b, actions);
  }

  lemma CompletedStep(p: Pump, a: Action)
    requires Inv(p)
    ensures Step(p, a).recorded == Some(Completed) <==> p.recorded == Some(Completed) || (Draining(p) && a == HookDone(None))
  {
    if p.finishes == 1 {
      DoneStays(p, [a]);
      assert Execute(p, [a][..0]) == p && Execute(p, [a]) == Step(p, a);
    } else {
      RecordedCompleted(p, a);
    }
  }

  /**
   * Over every run: the stream is recorded as completed if and only if the
   * upstream drained with nothing terminal and then the completion hook
   * succeeded with no timer going off in between; client aborts in between do
   * not count.
   */
  lemma {:induction false} CompletedIff(b: bool, actions: seq<Action>)
    ensures Execute(Start(b), actions).recorded == Some(Completed) <==> CompletedRun(b, actions)
  {
    if actions != [] {
      var before, a := actions[..|actions| - 1], actions[|actions| - 1];
      assert actions == before + [a];
      CompletedIff(b, before);
      RunKeepsInv(Start(b), before);
      DrainingIff(b, before);
      CompletedStep(Execute(Start(b), before), a);
      CompletedMore(b, before, a);
    }
  }

  predicate ThrowsAt(b: bool, actions: seq<Action>, k: int, category: Category) {
    && 0 <= k < |actions|
    && Throws(Execute(Start(b), actions[..k]), actions[k])
    && Execute(Start(b), actions[..k]).life.terminal == Some(Timeout(category))
  }

  ghost predicate ThrewAfterTimeout(b: bool, actions: seq<Action>, category: Category) {
    exists k :: ThrowsAt(b, actions, k, category)
  }

  lemma ThrowsMore(b: bool, actions: seq<Action>, a: Action, category: Category)
    ensures var p := Execute(Start(b), actions);
            ThrewAfterTimeout(b, actions + [a], category) <==>
            ThrewAfterTimeout(b, actions, category) || (Throws(p, a) && p.life.terminal == Some(Timeout(category)))
  {
    var all, n := actions + [a], |actions|;
    assert all[..n] == actions && all[n] == a;
    forall k | k < n ensures ThrowsAt(b, all, k, category) <==> ThrowsAt(b, actions, k, category) {
      if 0 <= k { assert all[k] == actions[k] && all[..k] == actions[..k]; }
    }
    var p := Execute(Start(b), actions);
    assert ThrowsAt(b, all, n, category) <==> Throws(p, a) && p.life.terminal == Some(Timeout(category));
  }

  lemma TimeoutStep(p: Pump, a: Action, category: Category)
    requires Inv(p)
    ensures TimeoutFrame(category) in Step(p, a).out <==>
            TimeoutFrame(category) in p.out || (Throws(p, a) && p.life.terminal == Some(Timeout(category)))
  {
    TimeoutChunkIff(p, a, category);
    StepYields(p, a);
  }

  /** A timeout chunk comes out of a run exactly when something throws in it after the timeout. */
  lemma {:induction false} TimeoutChunkInRunIff(b: bool, actions: seq<Action>, category: Category)
    ensures TimeoutFrame(category) in Execute(Start(b), actions).out <==> ThrewAfterTimeout(b, actions, category)
  {
    if actions != [] {
      var before, a := actions[..|actions| - 1], actions[|actions| - 1];
      assert actions == before + [a];
      TimeoutChunkInRunIff(b, before, category);
      RunKeepsInv(Start(b), before);
      TimeoutStep(Execute(Start(b), before), a, category);
      ThrowsMore(b, before, a, category);
    }
  }

  /** A step yields at most one chunk. */
  lemma StepYields(p: Pump, a: Action)
    ensures Step(p, a).out == p.out || (|Step(p, a).out| == |p.out| + 1 && Step(p, a).out[..|p.out|] == p.out)
  {
  }

  lemma ConsumerKeepsTimed(p: Pump, a: Action)
    requires Inv(p) && Timed(p) && (a.Pull? || a.Stop? || a.Fail?)
    ensures Timed(Step(p, a))
  {
  }

  lemma EventKeepsTimed(p: Pump, a: Action)
    requires Inv(p) && Timed(p) && a.Event?
    ensures Timed(Step(p, a))
  {
  }

  lemma UpstreamKeepsTimed(p: Pump, a: Action)
    requires Inv(p) && Timed(p) && (a.SourceEnd? || a.SourceThrow? || a.SourceClosed? || a.HookDone?)
    ensures Timed(Step(p, a))
  {
  }

  lemma TimersKeepTimed(p: Pump, a: Action)
    requires Inv(p) && Timed(p) && (a.SetupTimer? || a.IdleTimer? || a.ClientAbort?)
    ensures Timed(Step(p, a))
  {
  }

  lemma StepKeepsTimed(p: Pump, a: Action)
    requires Inv(p) && Timed(p)
    ensures Timed(Step(p, a))
  {
    if a.Pull? || a.Stop? || a.Fail? {
      ConsumerKeepsTimed(p, a);
    } else if a.Event? {
      EventKeepsTimed(p, a);
    } else if a.SetupTimer? || a.IdleTimer? || a.ClientAbort? {
      TimersKeepTimed(p, a);
    } else {
      UpstreamKeepsTimed(p, a);
    }
  }

  lemma {:induction false} RunKeepsTimed(actions: seq<Action>)
    ensures Timed(Execute(Start(false), actions))
  {
    if actions != [] {
      RunKeepsTimed(actions[..|actions| - 1]);
      RunKeepsInv(Start(false), actions[..|actions| - 1]);
      StepKeepsTimed(Execute(Start(false), actions[..|actions| - 1]), actions[|actions| - 1]);
    }
  }

  /**
   * With a client that was there at creation: while the pump waits for the
   * upstream and nothing has ended the stream exactly one timer is armed, the
   * setup timer before the first event and the idle timer after it; while it
   * is suspended at a data chunk none is, so a slow consumer never causes a
   * timeout.
   */
  lemma TimerDiscipline(actions: seq<Action>)
    ensures var p := Execute(Start(false), actions);
            && (p.pc.AwaitEvent? && !Terminated(p.life) ==>
                  && (p.life.setup == Pending <==> p.life.eventCount == 0)
                  && (p.life.idle == Pending <==> p.life.eventCount > 0))
            && (p.pc.AtFrame? ==> Step(p, SetupTimer) == p && Step(p, IdleTimer) == p)
            && (Terminated(p.life) ==> Step(p, SetupTimer) == p && Step(p, IdleTimer) == p)
  {
    RunKeepsTimed(actions);
  }

  /**
   * Both limits of that discipline: a client that was gone at creation leaves
   * the setup timer armed, and a timer can fire while the error chunk waits to
   * be taken, which turns the recorded kind into a timeout.
   */
  lemma TimerGaps(error: string)
    ensures Terminated(Start(true).life) && Start(true).life.setup == Pending
    ensures var p := Step(Step(Step(Start(false), Pull), SourceThrow(error)), SetupTimer);
            && p.pc.AtLastFrame? && p.out == [ErrorFrame(error)]
            && Step(p, Pull).recorded == Some(Timeout(Setup))
  {
  }
}

/**
 * The per-stream lifecycle (src/routes/stream-lifecycle.ts): the terminal
 * record, the setup and idle timers and the client abort listener.  The class
 * is the closure's variables; the functions over `Life` specify its methods.
 */
module StreamLifecycle {
  import opened Wrappers

  datatype Category = Setup | Idle

  datatype Terminal = Completed | Error | Cancelled | Timeout(category: Category)

  datatype Outcome = CompletedOutcome | ErrorOutcome

  /** A timer variable: undefined, waiting to fire, or still holding a timer that has fired. */
  datatype Timer = Unset | Pending | Fired

  datatype Life = Life(
    terminal: Option<Terminal>,
    eventCount: nat,
    frameCount: nat,
    finished: bool,
    setup: Timer,
    idle: Timer,
    listening: bool,  // the listener is attached to the client signal
    bound: bool,      // `unbindClient` is defined
    aborted: bool)    // the merged signal

  predicate Terminated(l: Life) {
    l.terminal.Some?
  }

  function ClearTimers(l: Life): Life {
    l.(setup := Unset, idle := Unset)
  }

  function Terminate(l: Life, t: Terminal): Life {
    if l.terminal.Some? then l else ClearTimers(l).(terminal := Some(t), aborted := true)
  }

  /** The setup timer is set even when the client is gone already. */
  function Create(clientAborted: bool): Life {
    var l := Life(None, 0, 0, false, Unset, Unset, !clientAborted, !clientAborted, false);
    (if clientAborted then Terminate(l, Cancelled) else l).(setup := Pending)
  }

  function ArmIdle(l: Life): Life {
    if l.terminal.Some? || l.idle != Unset then l else l.(idle := Pending)
  }

  function NoteEvent(l: Life): Life {
    ClearTimers(l.(eventCount := l.eventCount + 1))
  }

  function NoteFrame(l: Life): Life {
    l.(frameCount := l.frameCount + 1)
  }

  function FinalTerminal(terminal: Option<Terminal>, outcome: Outcome, cleanEnd: bool): Terminal {
    match terminal
    case None => if cleanEnd then Completed else if outcome == ErrorOutcome then Error else Cancelled
    case Some(t) => if cleanEnd && t == Cancelled then Completed else t
  }

  function Finish(l: Life, outcome: Outcome, cleanEnd: bool): Life {
    if l.finished then l
    else ClearTimers(l).(finished := true, listening := l.listening && !l.bound, bound := false,
                         terminal := Some(FinalTerminal(l.terminal, outcome, cleanEnd)), aborted := true)
  }

  function SetupFires(l: Life): Life {
    if l.setup == Pending then Terminate(l.(setup := Fired), Timeout(Setup)) else l
  }

  function IdleFires(l: Life): Life {
    if l.idle == Pending then Terminate(l.(idle := Fired), Timeout(Idle)) else l
  }

  /** The listener is attached with `once`. */
  function ClientAborts(l: Life): Life {
    if l.listening then Terminate(l.(listening := false), Cancelled) else l
  }

  class Lifecycle {
    var terminal: Option<Terminal>
    var eventCount: nat
    var frameCount: nat
    var finished: bool
    var setup: Timer
    var idle: Timer
    var listening: bool
    var bound: bool
    var aborted: bool

    function State(): Life
      reads this
    {
      Life(terminal, eventCount, frameCount, finished, setup, idle, listening, bound, aborted)
    }

    constructor (clientAborted: bool)
      ensures State() == Create(clientAborted)
      ensures terminal == (if clientAborted then Some(Cancelled) else None) && setup == Pending && idle == Unset
    {
      terminal, eventCount, frameCount, finished := None, 0, 0, false;
      setup, idle, listening, bound, aborted := Unset, Unset, false, false, false;
      new;
      if clientAborted {
        TerminateWith(Cancelled);
      } else {
        bound, listening := true, true;
      }
      setup := Pending;
    }

    method ClearBoth()
      modifies this
      ensures State() == ClearTimers(old(State()))
    {
      if setup != Unset { setup := Unset; }
      if idle != Unset { idle := Unset; }
    }

    method TerminateWith(t: Terminal)
      modifies this
      ensures State() == Terminate(old(State()), t)
      ensures old(terminal).Some? ==> State() == old(State())
      ensures old(terminal).None? ==> terminal == Some(t) && setup == Unset && idle == Unset && aborted
    {
      if terminal.Some? { return; }
      terminal := Some(t);
      ClearBoth();
      if !aborted { aborted := true; }
    }

    method OnEvent()
      modifies this
      ensures State() == NoteEvent(old(State()))
      ensures setup == Unset && idle == Unset && terminal == old(terminal) && listening == old(listening)
    {
      eventCount := eventCount + 1;
      if setup != Unset { setup := Unset; }
      if idle != Unset { idle := Unset; }
    }

    method OnFrame()
      modifies this
      ensures State() == NoteFrame(old(State()))
    {
      frameCount := frameCount + 1;
    }

    method OnEventDone()
      modifies this
      ensures State() == ArmIdle(old(State()))
      ensures idle == Pending <==> old(idle) == Pending || (old(idle) == Unset && terminal.None?)
    {
      if terminal.Some? || idle != Unset { return; }
      idle := Pending;
    }

    method FinishWith(outcome: Outcome, cleanEnd: bool)
      modifies this
      ensures State() == Finish(old(State()), outcome, cleanEnd)
      ensures old(finished) ==> State() == old(State())
      ensures !old(finished) ==> finished && setup == Unset && idle == Unset && aborted && terminal.Some?
      ensures !old(finished) && old(bound) ==> !listening
      ensures !old(finished) ==>
                (terminal == Some(Completed) <==> old(terminal) == Some(Completed) || (cleanEnd && old(terminal) in {None, Some(Cancelled)}))
    {
      if finished { return; }
      finished := true;
      ClearBoth();
      if bound { listening := false; bound := false; }
      if terminal.None? {
        terminal := Some(if cleanEnd then Completed else if outcome == ErrorOutcome then Error else Cancelled);
      } else if cleanEnd && terminal.value == Cancelled {
        terminal := Some(Completed);
      }
      if !aborted { aborted := true; }
    }

    method OnSetupTimer()
      modifies this
      ensures State() == SetupFires(old(State()))
    {
      if setup == Pending { setup := Fired; TerminateWith(Timeout(Setup)); }
    }

    method OnIdleTimer()
      modifies this
      ensures State() == IdleFires(old(State()))
    {
      if idle == Pending { idle := Fired; TerminateWith(Timeout(Idle)); }
    }

    method OnClientAbort()
      modifies this
      ensures State() == ClientAborts(old(State()))
    {
      if listening { listening := false; TerminateWith(Cancelled); }
    }
  }

  /**
   * Whatever has happened before, `finish` leaves no timer to fire and, when
   * every attached listener is one it can remove, no listener; calling it
   * again changes nothing, and no later timer or abort changes the record.
   */
  lemma FinishIsFinal(l: Life, outcome: Outcome, cleanEnd: bool, outcome': Outcome, cleanEnd': bool)
    requires !l.finished && (l.listening ==> l.bound)
    ensures var f := Finish(l, outcome, cleanEnd);
            && f.setup == Unset && f.idle == Unset && !f.listening && !f.bound && f.aborted && f.terminal.Some?
            && Finish(f, outcome', cleanEnd') == f
            && SetupFires(f) == f && IdleFires(f) == f && ClientAborts(f) == f && ArmIdle(f) == f
  {
  }

  // ------------------------------------------------------- what a run records

  datatype Callback =
    | Noted
    | Framed
    | NoteDone
    | FinishCall(outcome: Outcome, cleanEnd: bool)
    | SetupExpires
    | IdleExpires
    | ClientGone

  function Call(l: Life, cb: Callback): Life {
    match cb
    case Noted => NoteEvent(l)
    case Framed => NoteFrame(l)
    case NoteDone => ArmIdle(l)
    case FinishCall(outcome, cleanEnd) => Finish(l, outcome, cleanEnd)
    case SetupExpires => SetupFires(l)
    case IdleExpires => IdleFires(l)
    case ClientGone => ClientAborts(l)
  }

  function After(clientAborted: bool, cbs: seq<Callback>): Life {
    if cbs == [] then Create(clientAborted)
    else Call(After(clientAborted, cbs[..|cbs| - 1]), cbs[|cbs| - 1])
  }

  predicate Finishes(cbs: seq<Callback>) { exists i :: 0 <= i < |cbs| && cbs[i].FinishCall? }

  /** The last event that was noted has been followed by its `noteEventDone`. */
  predicate EventIsDone(cbs: seq<Callback>) {
    exists i :: 0 <= i < |cbs| && cbs[i].NoteDone? && forall j :: i < j < |cbs| ==> !cbs[j].Noted?
  }

  /** `cb` gives a stream that nothing has ended its terminal kind `t`. */
  predicate Ends(clientAborted: bool, before: seq<Callback>, cb: Callback, t: Terminal) {
    match cb
    case SetupExpires => Noted !in before && t == Timeout(Setup)
    case IdleExpires => EventIsDone(before) && t == Timeout(Idle)
    case ClientGone => !clientAborted && t == Cancelled
    case FinishCall(outcome, cleanEnd) => t == if cleanEnd then Completed else if outcome == ErrorOutcome then Error else Cancelled
    case _ => false
  }

  /** What the variables hold, read off the callbacks; only the terminal kind refers to itself. */
  predicate Recorded(clientAborted: bool, cbs: seq<Callback>, l: Life) {
    && l.eventCount == multiset(cbs)[Noted]
    && l.frameCount == multiset(cbs)[Framed]
    && (l.finished <==> Finishes(cbs))
    && (l.bound <==> !clientAborted && !Finishes(cbs))
    && (l.listening <==> !clientAborted && !Finishes(cbs) && ClientGone !in cbs)
    && (l.aborted <==> l.terminal.Some?)
    && (Finishes(cbs) || (ClientGone in cbs && !clientAborted) || clientAborted ==> l.terminal.Some?)
    && (l.setup == Pending <==>
          Noted !in cbs && !Finishes(cbs) && if clientAborted then SetupExpires !in cbs else l.terminal.None?)
    && (l.idle == Pending <==> l.terminal.None? && EventIsDone(cbs))
  }

  lemma EventIsDoneMore(cbs: seq<Callback>, cb: Callback)
    ensures EventIsDone(cbs + [cb]) <==> cb.NoteDone? || (!cb.Noted? && EventIsDone(cbs))
  {
    var all, n := cbs + [cb], |cbs|;
    assert all[n] == cb && forall i :: 0 <= i < n ==> all[i] == cbs[i];
    if cb.NoteDone? { assert all[n].NoteDone?; }
    if EventIsDone(cbs) && !cb.Noted? {
      var i :| 0 <= i < n && cbs[i].NoteDone? && forall j :: i < j < n ==> !cbs[j].Noted?;
      assert all[i].NoteDone?;
    }
    if EventIsDone(all) {
      var i :| 0 <= i <= n && all[i].NoteDone? && forall j :: i < j <= n ==> !all[j].Noted?;
      if i < n { assert cbs[i].NoteDone? && !all[n].Noted?; }
    }
  }

  lemma FinishesMore(cbs: seq<Callback>, cb: Callback)
    ensures Finishes(cbs + [cb]) <==> Finishes(cbs) || cb.FinishCall?
  {
    var all, n := cbs + [cb], |cbs|;
    assert all[n] == cb && forall i :: 0 <= i < n ==> all[i] == cbs[i];
  }

  lemma CallRecords(b: bool, cbs: seq<Callback>, l: Life, cb: Callback)
    requires Recorded(b, cbs, l) && l.idle != Fired && (l.setup == Fired ==> l.terminal.Some?)
    ensures Recorded(b, cbs + [cb], Call(l, cb))
    ensures Call(l, cb).idle != Fired && (Call(l, cb).setup == Fired ==> Call(l, cb).terminal.Some?)
  {
    EventIsDoneMore(cbs, cb);
    FinishesMore(cbs, cb);
    assert forall x :: x in cbs + [cb] <==> x in cbs || x == cb;
  }

  lemma {:induction false} RunRecordsAll(b: bool, cbs: seq<Callback>)
    ensures var l := After(b, cbs); Recorded(b, cbs, l) && l.idle != Fired && (l.setup == Fired ==> l.terminal.Some?)
  {
    if cbs != [] {
      var before, cb := cbs[..|cbs| - 1], cbs[|cbs| - 1];
      assert cbs == before + [cb];
      RunRecordsAll(b, before);
      CallRecords(b, before, After(b, before), cb);
    }
  }

  /**
   * Over every run of callbacks, in any order: counters, timers, listener and
   * signal are what the callbacks say they are.
   */
  lemma RunRecords(b: bool, cbs: seq<Callback>)
    ensures Recorded(b, cbs, After(b, cbs))
  {
    RunRecordsAll(b, cbs);
  }

  /**
   * Over every run the first thing to end the stream gives the terminal kind,
   * and it stays, but for a cancellation that a first, clean `finish` turns
   * into a completion.
   */
  lemma TerminalIff(b: bool, cbs: seq<Callback>, cb: Callback)
    ensures After(b, []).terminal == if b then Some(Cancelled) else None
    ensures var before, l := After(b, cbs).terminal, After(b, cbs + [cb]).terminal;
            if before.None? then (forall t :: l == Some(t) <==> Ends(b, cbs, cb, t))
            else l == if before == Some(Cancelled) && cb.FinishCall? && cb.cleanEnd && !Finishes(cbs)
                      then Some(Completed) else before
  {
    RunRecordsAll(b, cbs);
    assert (cbs + [cb])[..|cbs|] == cbs;
  }
}

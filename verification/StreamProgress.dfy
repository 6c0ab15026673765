/**
 * What the stream pump delivers to a consumer that keeps asking: every frame,
 * then the completion, or the error that came up.
 */
module StreamProgress {
  import opened Wrappers
  import opened StreamLifecycle
  import opened P = StreamPump

  lemma {:induction false} ExecuteConcat(p: Pump, a: seq<P.Action>, b: seq<P.Action>)
    ensures Execute(p, a + b) == Execute(Execute(p, a), b)
  {
    if b == [] {
      assert a + b == a;
    } else {
      assert (a + b)[..|a + b| - 1] == a + b[..|b| - 1];
      ExecuteConcat(p, a, b[..|b| - 1]);
    }
  }

  lemma ExecuteOne(p: Pump, a: P.Action, b: seq<P.Action>)
    ensures Execute(p, [a] + b) == Execute(P.Step(p, a), b)
  {
    assert [a][..0] == [];
    ExecuteConcat(p, [a], b);
  }

  lemma ExecuteTwo(p: Pump, a: P.Action, b: P.Action)
    ensures Execute(p, [a, b]) == P.Step(P.Step(p, a), b)
  {
    assert [a] + [b] == [a, b] && [b] + [] == [b];
    ExecuteOne(p, a, [b]);
    ExecuteOne(P.Step(p, a), b, []);
  }

  function Pulls(n: nat): seq<P.Action> {
    if n == 0 then [] else [Pull] + Pulls(n - 1)
  }

  predicate Sound(fs: seq<Wire>) { forall i :: 0 <= i < |fs| ==> fs[i].fault.None? }

  /** `p` after all of `fs` has been taken, waiting for the next event. */
  predicate Delivered(p: Pump, q: Pump, fs: seq<Wire>) {
    && q.pc.AwaitEvent? && q.out == p.out + Chunks(fs) && q.encoded == p.encoded && q.sent == p.sent + |fs|
    && q.life == ArmIdle(p.life.(frameCount := p.life.frameCount + |fs|))
    && q.cleanEnd == p.cleanEnd && q.finishes == p.finishes && q.recorded == p.recorded
  }

  /** A consumer that keeps asking gets the frames that are left. */
  lemma {:induction false} Drain(p: Pump, fs: seq<Wire>)
    requires !Terminated(p.life) && Sound(fs)
    ensures Delivered(p, Execute(NextFrame(p, fs), Pulls(|fs|)), fs)
    decreases |fs|
  {
    if fs == [] {
      assert p.out + Chunks(fs) == p.out;
    } else {
      var q := NextFrame(p, fs);
      var next := q.(life := NoteFrame(p.life));
      ExecuteOne(q, Pull, Pulls(|fs| - 1));
      Drain(next, fs[1..]);
      assert p.out + [Data(fs[0].text)] + Chunks(fs[1..]) == p.out + Chunks(fs);
      assert P.Step(q, Pull) == NextFrame(next, fs[1..]);
    }
  }

  /** One event and its frames, on a stream that nothing has ended. */
  lemma EventDelivers(p: Pump, fs: seq<Wire>)
    requires p.pc.AwaitEvent? && !Terminated(p.life) && Sound(fs)
    ensures Execute(p, [Event(Ok(fs))] + Pulls(|fs|))
            == p.(out := p.out + Chunks(fs), encoded := p.encoded + fs, sent := p.sent + |fs|, life := Heard(p.life, |fs|))
  {
    ExecuteOne(p, Event(Ok(fs)), Pulls(|fs|));
    Drain(p.(life := NoteEvent(p.life), encoded := p.encoded + fs), fs);
  }

  /** The lifecycle after an event with `n` frames: counted, the setup timer gone and the idle timer armed. */
  function Heard(l: Life, n: nat): Life {
    l.(eventCount := l.eventCount + 1, frameCount := l.frameCount + n, setup := Unset, idle := Pending)
  }

  // ------------------------------------------------------------ whole streams

  function Flat(events: seq<seq<Wire>>): seq<Wire> {
    if events == [] then [] else events[0] + Flat(events[1..])
  }

  /** The upstream sends the events, and the consumer takes every frame as it comes. */
  function Taken(events: seq<seq<Wire>>): seq<P.Action> {
    if events == [] then [] else [Event(Ok(events[0]))] + Pulls(|events[0]|) + Taken(events[1..])
  }

  predicate AllSound(events: seq<seq<Wire>>) { forall i :: 0 <= i < |events| ==> Sound(events[i]) }

  predicate Caught(p: Pump, q: Pump, fs: seq<Wire>, n: nat) {
    && q.pc.AwaitEvent? && !Terminated(q.life) && q.out == p.out + Chunks(fs)
    && q.life.eventCount == p.life.eventCount + n && q.life.frameCount == p.life.frameCount + |fs|
    && q.cleanEnd == p.cleanEnd && q.finishes == p.finishes && q.recorded == p.recorded && q.life.finished == p.life.finished
  }

  lemma {:induction false} EventsDeliver(p: Pump, events: seq<seq<Wire>>)
    requires p.pc.AwaitEvent? && !Terminated(p.life) && AllSound(events)
    ensures Caught(p, Execute(p, Taken(events)), Flat(events), |events|)
    decreases |events|
  {
    if events == [] {
      assert p.out + Chunks([]) == p.out;
    } else {
      var fs := events[0];
      ExecuteConcat(p, [Event(Ok(fs))] + Pulls(|fs|), Taken(events[1..]));
      EventDelivers(p, fs);
      var q := Execute(p, [Event(Ok(fs))] + Pulls(|fs|));
      EventsDeliver(q, events[1..]);
      ChunksConcat(fs, Flat(events[1..]));
      assert p.out + Chunks(fs) + Chunks(Flat(events[1..])) == p.out + Chunks(fs + Flat(events[1..]));
    }
  }

  lemma ChunksConcat(fs: seq<Wire>, gs: seq<Wire>)
    ensures Chunks(fs + gs) == Chunks(fs) + Chunks(gs)
  {
  }

  /**
   * A stream that nothing disturbs yields every frame of every event, in
   * order and nothing else, and is recorded as completed, with its counts.
   */
  lemma WholeStream(events: seq<seq<Wire>>)
    requires AllSound(events)
    ensures var p := Execute(Start(false), [Pull] + (Taken(events) + [SourceEnd(None), HookDone(None)]));
            && p.out == Chunks(Flat(events)) && p.pc.Done? && p.finishes == 1 && p.recorded == Some(Completed)
            && p.life.eventCount == |events| && p.life.frameCount == |Flat(events)|
  {
    var p1 := P.Step(Start(false), Pull);
    ExecuteOne(Start(false), Pull, Taken(events) + [SourceEnd(None), HookDone(None)]);
    ExecuteConcat(p1, Taken(events), [SourceEnd(None), HookDone(None)]);
    EventsDeliver(p1, events);
    var p2 := Execute(p1, Taken(events));
    ExecuteTwo(p2, SourceEnd(None), HookDone(None));
    assert p1.out + Chunks(Flat(events)) == Chunks(Flat(events));
  }

  // ---------------------------------------------------------------- endings

  /** `q` has ended without a further chunk, with this kind recorded. */
  predicate EndsAs(p: Pump, q: Pump, kind: Terminal) {
    q.pc.Done? && q.out == p.out && q.finishes == p.finishes + 1 && q.recorded == Some(kind)
  }

  /** The answer to a throw: silence after a cancellation, else one chunk. */
  predicate Reports(p: Pump, q: Pump, error: string) {
    match p.life.terminal
    case Some(Cancelled) => q.pc.Done? && q.out == p.out
    case Some(Timeout(category)) => q.pc.AtLastFrame? && q.out == p.out + [TimeoutFrame(category)]
    case _ => q.pc.AtLastFrame? && q.out == p.out + [ErrorFrame(error)]
  }

  /** A consumer that closes at a data chunk closes the upstream and ends the stream, without a chunk. */
  lemma StopEnds(p: Pump)
    requires p.pc.AtFrame? && !p.cleanEnd && !p.life.finished
    ensures EndsAs(p, Execute(p, [Stop, SourceClosed(None)]), if p.life.terminal.Some? then p.life.terminal.value else Error)
  {
    ExecuteTwo(p, Stop, SourceClosed(None));
  }

  /** An error thrown in at a data chunk closes the upstream and is reported. */
  lemma FailReports(p: Pump, error: string, fault: Option<string>)
    requires p.pc.AtFrame?
    ensures Reports(p, Execute(p, [Fail(error), SourceClosed(fault)]), error)
  {
    ExecuteTwo(p, Fail(error), SourceClosed(fault));
  }

  /** After the last chunk whatever the consumer does ends the stream. */
  lemma LastChunkEnds(p: Pump, a: P.Action)
    requires p.pc.AtLastFrame? && !p.cleanEnd && !p.life.finished && (a.Pull? || a.Stop? || a.Fail?)
    ensures EndsAs(p, P.Step(p, a), if p.life.terminal.Some? then p.life.terminal.value else Error)
  {
  }

  /** A frame that cannot be formatted: the frames before it are yielded, then the error. */
  lemma FaultReports(p: Pump, fs: seq<Wire>, bad: Wire, rest: seq<Wire>, closing: Option<string>)
    requires p.pc.AwaitEvent? && !Terminated(p.life) && Sound(fs) && bad.fault.Some?
    ensures var q := Execute(p, [Event(Ok(fs + [bad] + rest))] + (Pulls(|fs|) + [SourceClosed(closing)]));
            q.pc.AtLastFrame? && q.out == p.out + Chunks(fs) + [ErrorFrame(bad.fault.value)]
  {
    var all := fs + [bad] + rest;
    var heard := p.(life := NoteEvent(p.life), encoded := p.encoded + all);
    var q := NextFrame(heard, all);
    ExecuteOne(p, Event(Ok(all)), Pulls(|fs|) + [SourceClosed(closing)]);
    ExecuteConcat(q, Pulls(|fs|), [SourceClosed(closing)]);
    DrainToFault(heard, fs, bad, rest);
    var r := Execute(q, Pulls(|fs|));
    ExecuteOne(r, SourceClosed(closing), []);
    assert [SourceClosed(closing)] + [] == [SourceClosed(closing)];
  }

  lemma {:induction false} DrainToFault(p: Pump, fs: seq<Wire>, bad: Wire, rest: seq<Wire>)
    requires !Terminated(p.life) && Sound(fs) && bad.fault.Some?
    ensures var q := Execute(NextFrame(p, fs + [bad] + rest), Pulls(|fs|));
            q.pc == ClosingSource(Throw(bad.fault.value)) && q.out == p.out + Chunks(fs) && !Terminated(q.life)
    decreases |fs|
  {
    var all := fs + [bad] + rest;
    if fs == [] {
      assert all[0] == bad;
      assert p.out + Chunks(fs) == p.out;
    } else {
      var q := NextFrame(p, all);
      var next := q.(life := NoteFrame(p.life));
      assert all[0] == fs[0] && all[1..] == fs[1..] + [bad] + rest;
      ExecuteOne(q, Pull, Pulls(|fs| - 1));
      DrainToFault(next, fs[1..], bad, rest);
      assert p.out + [Data(fs[0].text)] + Chunks(fs[1..]) == p.out + Chunks(fs);
    }
  }

  /** An error of the encoder, the upstream, its end or the completion hook is reported. */
  lemma ErrorsReport(p: Pump, error: string, closing: Option<string>)
    ensures p.pc.AwaitEvent? && !Terminated(p.life) ==> Reports(p, Execute(p, [Event(Err(error)), SourceClosed(closing)]), error)
    ensures p.pc.AwaitEvent? ==> Reports(p, P.Step(p, SourceThrow(error)), error)
    ensures p.pc.AwaitEvent? && !Terminated(p.life) ==> Reports(p, P.Step(p, SourceEnd(Some(error))), error)
    ensures p.pc.AwaitComplete? ==> Reports(p, P.Step(p, HookDone(Some(error))), error)
  {
    ExecuteTwo(p, Event(Err(error)), SourceClosed(closing));
  }
}

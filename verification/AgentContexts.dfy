/**
 * The execution contexts of the agents of a session
 * (src/profiles/agent-contexts.ts): a map with string keys, cleaned lazily,
 * against a list keyed by lease, session and agent that is never cleaned.
 */
module AgentContexts {
  import opened CodeUnits
  import opened Wrappers

  datatype Role = Main | Subagent

  /** `model` is what was resolved for the agent: provider, model, tier, revisions and time. */
  datatype Context = Context(
    claudeSessionId: Text, agentId: Text, parentAgentId: Option<Text>, role: Role,
    leaseId: Text, profileId: Text, profileName: Text, model: Text)

  datatype Session = Session(leaseId: Text, profileId: Text, profileName: Text)

  /** The entries of a JavaScript `Map`, in insertion order. */
  type Entries = seq<(Text, Context)>

  const PIPE: Unit := 124

  function PrefixOf(lease: Text, session: Text): Text { lease + [PIPE] + (session + [PIPE]) }

  function KeyOf(lease: Text, session: Text, agent: Text): Text { PrefixOf(lease, session) + agent }

  function Bind(s: Session, input: Context): Context {
    input.(leaseId := s.leaseId, profileId := s.profileId, profileName := s.profileName)
  }

  predicate Recordable(s: Session, input: Context, active: set<Text>) {
    input.agentId != [] && input.claudeSessionId != [] && s.leaseId in active
  }

  // -------------------------------------------------- a map with string keys

  function Put(es: Entries, key: Text, x: Context): Entries {
    if es == [] then [(key, x)]
    else if es[0].0 == key then [(key, x)] + es[1..]
    else [es[0]] + Put(es[1..], key, x)
  }

  function Get(es: Entries, key: Text): Option<Context> {
    if es == [] then None else if es[0].0 == key then Some(es[0].1) else Get(es[1..], key)
  }

  function Delete(es: Entries, key: Text): Entries {
    if es == [] then [] else if es[0].0 == key then Delete(es[1..], key) else [es[0]] + Delete(es[1..], key)
  }

  predicate StartsWith(t: Text, prefix: Text) { |prefix| <= |t| && t[..|prefix|] == prefix }

  /** The contexts whose key has the prefix and whose lease is active. */
  function Matching(es: Entries, prefix: Text, active: set<Text>): seq<Context> {
    if es == [] then []
    else if StartsWith(es[0].0, prefix) && es[0].1.leaseId in active then [es[0].1] + Matching(es[1..], prefix, active)
    else Matching(es[1..], prefix, active)
  }

  /** What is left after a scan deleted the dead entries with the prefix. */
  function Swept(es: Entries, prefix: Text, active: set<Text>): Entries {
    if es == [] then []
    else if StartsWith(es[0].0, prefix) && es[0].1.leaseId !in active then Swept(es[1..], prefix, active)
    else [es[0]] + Swept(es[1..], prefix, active)
  }

  lemma ScanHead(e: (Text, Context), rest: Entries, prefix: Text, active: set<Text>)
    ensures Matching([e] + rest, prefix, active)
            == (if StartsWith(e.0, prefix) && e.1.leaseId in active then [e.1] else []) + Matching(rest, prefix, active)
    ensures Swept([e] + rest, prefix, active)
            == (if StartsWith(e.0, prefix) && e.1.leaseId !in active then [] else [e]) + Swept(rest, prefix, active)
  {
    assert ([e] + rest)[1..] == rest;
  }

  function Dropped(es: Entries, lease: Text): Entries {
    if es == [] then []
    else if es[0].1.leaseId == lease then Dropped(es[1..], lease)
    else [es[0]] + Dropped(es[1..], lease)
  }

  function FirstMain(xs: seq<Context>): Option<Context> {
    if xs == [] then None else if xs[0].role == Main then Some(xs[0]) else FirstMain(xs[1..])
  }

  /** A map has one entry for a key. */
  ghost predicate Unique(es: Entries) {
    forall i, j :: 0 <= i < j < |es| ==> es[i].0 != es[j].0
  }

  lemma {:induction false} DeleteSplits(before: Entries, e: (Text, Context), after: Entries)
    requires Unique(before + [e] + after)
    ensures Delete(before + [e] + after, e.0) == before + after
  {
    var es := before + [e] + after;
    if before == [] {
      DeleteAbsent(after, e.0);
      assert es[1..] == after;
    } else {
      assert es[0].0 != es[|before|].0;
      assert es[1..] == before[1..] + [e] + after;
      assert Unique(before[1..] + [e] + after) by { assert forall i :: 0 <= i < |es| - 1 ==> es[1..][i] == es[i + 1]; }
      DeleteSplits(before[1..], e, after);
      assert before + after == [before[0]] + (before[1..] + after);
    }
  }

  lemma DeleteAt(before: Entries, e: (Text, Context), after: Entries)
    requires Unique(before + [e] + after)
    ensures Delete(before + [e] + after, e.0) == before + after && Unique(before + after)
  {
    DeleteSplits(before, e, after);
    UniqueWithout(before, e, after);
  }

  lemma {:induction false} DeleteAbsent(es: Entries, key: Text)
    requires forall e :: e in es ==> e.0 != key
    ensures Delete(es, key) == es
  {
    if es != [] {
      assert es[0] in es;
      DeleteAbsent(es[1..], key);
    }
  }

  predicate KeyIn(es: Entries, key: Text) {
    exists i :: 0 <= i < |es| && es[i].0 == key
  }

  lemma UniqueCons(e: (Text, Context), rest: Entries)
    ensures Unique([e] + rest) <==> Unique(rest) && !KeyIn(rest, e.0)
  {
    var es := [e] + rest;
    assert forall i :: 0 <= i < |rest| ==> es[i + 1] == rest[i];
    if Unique(es) {
      forall i | 0 <= i < |rest| ensures rest[i].0 != e.0 {
        assert es[0].0 != es[i + 1].0;
      }
    }
  }

  lemma Unfold(es: Entries)
    requires es != []
    ensures es == [es[0]] + es[1..] && (Unique(es) ==> Unique(es[1..]) && !KeyIn(es[1..], es[0].0))
    ensures forall key :: KeyIn(es, key) <==> es[0].0 == key || KeyIn(es[1..], key)
  {
    UniqueCons(es[0], es[1..]);
    assert es == [es[0]] + es[1..];
    forall key ensures KeyIn(es, key) <==> es[0].0 == key || KeyIn(es[1..], key) {
      if KeyIn(es[1..], key) {
        var i :| 0 <= i < |es[1..]| && es[1..][i].0 == key;
        assert es[i + 1].0 == key;
      }
      if KeyIn(es, key) {
        var i :| 0 <= i < |es| && es[i].0 == key;
        assert i > 0 ==> es[1..][i - 1] == es[i];
      }
    }
  }

  lemma {:induction false} PutUnique(es: Entries, key: Text, x: Context)
    requires Unique(es)
    ensures Unique(Put(es, key, x)) && forall k :: KeyIn(Put(es, key, x), k) <==> k == key || KeyIn(es, k)
  {
    Unfold(Put(es, key, x));
    if es != [] {
      Unfold(es);
      if es[0].0 == key {
        UniqueCons((key, x), es[1..]);
      } else {
        PutUnique(es[1..], key, x);
        UniqueCons(es[0], Put(es[1..], key, x));
      }
    }
  }

  /** Leaving entries out keeps the keys distinct. */
  lemma {:induction false} DeleteUnique(es: Entries, key: Text)
    requires Unique(es)
    ensures Unique(Delete(es, key)) && forall k :: KeyIn(Delete(es, key), k) ==> KeyIn(es, k)
  {
    if es != [] {
      Unfold(es);
      DeleteUnique(es[1..], key);
      if es[0].0 != key {
        Unfold(Delete(es, key));
        UniqueCons(es[0], Delete(es[1..], key));
      }
    }
  }

  /** A scan of `all` has kept `kept` and found `entries`; `rest` is still to come. */
  ghost predicate Scanned(all: Entries, kept: Entries, rest: Entries, entries: seq<Context>, prefix: Text, active: set<Text>) {
    && entries + Matching(rest, prefix, active) == Matching(all, prefix, active)
    && kept + Swept(rest, prefix, active) == Swept(all, prefix, active)
    && Unique(kept + rest)
  }

  lemma ScanNext(all: Entries, kept: Entries, e: (Text, Context), rest: Entries, entries: seq<Context>, prefix: Text, active: set<Text>)
    requires Scanned(all, kept, [e] + rest, entries, prefix, active)
    ensures kept + ([e] + rest) == (kept + [e]) + rest
    ensures if !StartsWith(e.0, prefix) then Scanned(all, kept + [e], rest, entries, prefix, active)
            else if e.1.leaseId in active then Scanned(all, kept + [e], rest, entries + [e.1], prefix, active)
            else Scanned(all, kept, rest, entries, prefix, active) && Delete(kept + ([e] + rest), e.0) == kept + rest
  {
    ScanHead(e, rest, prefix, active);
    assert kept + ([e] + rest) == kept + [e] + rest;
    if StartsWith(e.0, prefix) && e.1.leaseId !in active {
      DeleteAt(kept, e, rest);
    }
  }

  // ----------------------------------------------------------- the registry

  class Registry {
    var contexts: Entries

    /** Every method needs and keeps that a key occurs once. */
    ghost predicate Valid()
      reads this
    {
      Unique(contexts)
    }

    constructor ()
      ensures contexts == [] && Valid()
    {
      contexts := [];
    }

    method Record(active: set<Text>, s: Session, input: Context)
      requires Valid()
      modifies this
      ensures Valid()
      ensures contexts == if Recordable(s, input, active)
                          then Put(old(contexts), KeyOf(s.leaseId, input.claudeSessionId, input.agentId), Bind(s, input))
                          else old(contexts)
    {
      if input.agentId == [] || input.claudeSessionId == [] { return; }
      if s.leaseId !in active { return; }
      PutUnique(contexts, KeyOf(s.leaseId, input.claudeSessionId, input.agentId), Bind(s, input));
      contexts := Put(contexts, KeyOf(s.leaseId, input.claudeSessionId, input.agentId), Bind(s, input));
    }

    method Resolve(active: set<Text>, s: Session, session: Text, agent: Text) returns (r: Option<Context>)
      requires Valid()
      modifies this
      ensures Valid()
      ensures (contexts, r) == Resolved(old(contexts), active, KeyOf(s.leaseId, session, agent))
    {
      var key := KeyOf(s.leaseId, session, agent);
      var found := Get(contexts, key);
      if found.None? { return None; }
      if found.value.leaseId in active { return found; }
      DeleteUnique(contexts, key);
      contexts := Delete(contexts, key);
      r := None;
    }

    /** Deletes dead entries while it iterates over the map. */
    method ContextsForSession(active: set<Text>, s: Session, session: Text) returns (entries: seq<Context>)
      requires Valid()
      modifies this
      ensures Valid()
      ensures contexts == Swept(old(contexts), PrefixOf(s.leaseId, session), active)
      ensures entries == Matching(old(contexts), PrefixOf(s.leaseId, session), active)
    {
      var prefix := PrefixOf(s.leaseId, session);
      entries := [];
      var all, i := contexts, 0;
      ghost var kept: Entries, rest: Entries := [], contexts;
      assert all[0..] == all;
      while i < |all|
        invariant i <= |all| && rest == all[i..] && contexts == kept + rest
        invariant Scanned(all, kept, rest, entries, prefix, active)
      {
        var e := all[i];
        i := i + 1;
        rest := all[i..];
        assert all[i - 1..] == [e] + rest;
        ScanNext(all, kept, e, rest, entries, prefix, active);
        if !StartsWith(e.0, prefix) {
          kept := kept + [e];
          continue;
        }
        if e.1.leaseId !in active {
          contexts := Delete(contexts, e.0);
          continue;
        }
        kept := kept + [e];
        entries := entries + [e.1];
      }
      assert kept + [] == kept && entries + [] == entries;
    }

    method MainContext(active: set<Text>, s: Session, session: Text) returns (r: Option<Context>)
      requires Valid()
      modifies this
      ensures Valid()
      ensures contexts == Swept(old(contexts), PrefixOf(s.leaseId, session), active)
      ensures r == FirstMain(Matching(old(contexts), PrefixOf(s.leaseId, session), active))
    {
      var entries := ContextsForSession(active, s, session);
      assert entries[0..] == entries;
      for i := 0 to |entries|
        invariant FirstMain(entries[i..]) == FirstMain(entries)
      {
        assert entries[i..] == [entries[i]] + entries[i + 1..];
        if entries[i].role == Main { return Some(entries[i]); }
      }
      r := None;
    }

    method DropLease(lease: Text)
      requires Valid()
      modifies this
      ensures Valid()
      ensures contexts == Dropped(old(contexts), lease)
    {
      var all, i := contexts, 0;
      ghost var kept: Entries := [];
      assert all[0..] == all;
      while i < |all|
        invariant i <= |all|
        invariant kept + Dropped(all[i..], lease) == Dropped(all, lease)
        invariant contexts == kept + all[i..] && Unique(contexts)
      {
        var e := all[i];
        ghost var rest := all[i + 1..];
        assert all[i..] == [e] + rest && kept + all[i..] == kept + [e] + rest;
        i := i + 1;
        if e.1.leaseId == lease {
          DeleteAt(kept, e, rest);
          contexts := Delete(contexts, e.0);
        } else {
          kept := kept + [e];
        }
      }
      assert kept + [] == kept && all[i..] == [];
    }
  }

  lemma UniqueWithout(before: Entries, e: (Text, Context), after: Entries)
    requires Unique(before + [e] + after)
    ensures Unique(before + after)
  {
    var all, less := before + [e] + after, before + after;
    assert forall i :: 0 <= i < |less| ==> less[i] == all[if i < |before| then i else i + 1];
  }

  function Resolved(es: Entries, active: set<Text>, key: Text): (Entries, Option<Context>) {
    var found := Get(es, key);
    if found.None? then (es, None)
    else if found.value.leaseId in active then (es, found)
    else (Delete(es, key), None)
  }

  // ----------------------------------------------------- parent of a request

  /** What a request says about its agent. */
  datatype Agent = Agent(claudeSessionId: Option<Text>, parentAgentId: Option<Text>)

  datatype Source = ParentAgent | SessionDefault

  /** The context a request inherits from: the named parent, else the main agent of the session. */
  function ParentOf(es: Entries, active: set<Text>, s: Session, agent: Agent): (Entries, Option<(Context, Source)>) {
    if agent.claudeSessionId.None? || agent.parentAgentId.None? then (es, None)
    else
      var session := agent.claudeSessionId.value;
      var exact := Resolved(es, active, KeyOf(s.leaseId, session, agent.parentAgentId.value));
      if exact.1.Some? then (exact.0, Some((exact.1.value, ParentAgent)))
      else
        var main := FirstMain(Matching(exact.0, PrefixOf(s.leaseId, session), active));
        (Swept(exact.0, PrefixOf(s.leaseId, session), active),
         if main.Some? then Some((main.value, SessionDefault)) else None)
  }

  // -------------------------------------------------------- runs of the registry

  datatype Event =
    | Open(lease: Text)
    | Close(lease: Text)
    | Record(s: Session, input: Context)
    | Lookup(s: Session, session: Text, agent: Text)
    | List(s: Session, session: Text)
    | FindMain(s: Session, session: Text)
    | Inherit(s: Session, request: Agent)
    | Drop(lease: Text)

  datatype Seen =
    | Nothing
    | One(found: Option<Context>)
    | Many(list: seq<Context>)
    | Inherited(parent: Option<(Context, Source)>)

  /** Leases become active once and are retired for good. */
  datatype Leases = Leases(active: set<Text>, retired: set<Text>)

  function AfterLeases(l: Leases, ev: Event): Leases {
    match ev
    case Open(lease) => if lease in l.retired then l else l.(active := l.active + {lease})
    case Close(lease) => Leases(l.active - {lease}, l.retired + {lease})
    case _ => l
  }

  function Step(es: Entries, active: set<Text>, ev: Event): (Entries, Seen) {
    match ev
    case Open(_) => (es, Nothing)
    case Close(_) => (es, Nothing)
    case Record(s, input) =>
      (if Recordable(s, input, active) then Put(es, KeyOf(s.leaseId, input.claudeSessionId, input.agentId), Bind(s, input)) else es, Nothing)
    case Lookup(s, session, agent) =>
      var r := Resolved(es, active, KeyOf(s.leaseId, session, agent));
      (r.0, One(r.1))
    case List(s, session) =>
      (Swept(es, PrefixOf(s.leaseId, session), active), Many(Matching(es, PrefixOf(s.leaseId, session), active)))
    case FindMain(s, session) =>
      (Swept(es, PrefixOf(s.leaseId, session), active), One(FirstMain(Matching(es, PrefixOf(s.leaseId, session), active))))
    case Inherit(s, agent) =>
      var r := ParentOf(es, active, s, agent);
      (r.0, Inherited(r.1))
    case Drop(lease) => (Dropped(es, lease), Nothing)
  }

  /** What a run shows, event by event. */
  function Run(es: Entries, l: Leases, evs: seq<Event>): seq<Seen>
    decreases |evs|
  {
    if evs == [] then []
    else
      var r := Step(es, l.active, evs[0]);
      [r.1] + Run(r.0, AfterLeases(l, evs[0]), evs[1..])
  }

  // -------------------------------------------- the reference: keyed by triples

  predicate At(x: Context, lease: Text, session: Text, agent: Text) {
    x.leaseId == lease && x.claudeSessionId == session && x.agentId == agent
  }

  function RefPut(xs: seq<Context>, x: Context): seq<Context> {
    if xs == [] then [x]
    else if At(xs[0], x.leaseId, x.claudeSessionId, x.agentId) then [x] + xs[1..]
    else [xs[0]] + RefPut(xs[1..], x)
  }

  function RefGet(xs: seq<Context>, lease: Text, session: Text, agent: Text): Option<Context> {
    if xs == [] then None
    else if At(xs[0], lease, session, agent) then Some(xs[0])
    else RefGet(xs[1..], lease, session, agent)
  }

  function RefList(xs: seq<Context>, lease: Text, session: Text): seq<Context> {
    if xs == [] then []
    else if xs[0].leaseId == lease && xs[0].claudeSessionId == session then [xs[0]] + RefList(xs[1..], lease, session)
    else RefList(xs[1..], lease, session)
  }

  function RefDrop(xs: seq<Context>, lease: Text): seq<Context> {
    if xs == [] then []
    else if xs[0].leaseId == lease then RefDrop(xs[1..], lease)
    else [xs[0]] + RefDrop(xs[1..], lease)
  }

  function RefParent(xs: seq<Context>, active: set<Text>, s: Session, agent: Agent): Option<(Context, Source)> {
    if agent.claudeSessionId.None? || agent.parentAgentId.None? || s.leaseId !in active then None
    else
      var session := agent.claudeSessionId.value;
      var exact := RefGet(xs, s.leaseId, session, agent.parentAgentId.value);
      var main := FirstMain(RefList(xs, s.leaseId, session));
      if exact.Some? then Some((exact.value, ParentAgent))
      else if main.Some? then Some((main.value, SessionDefault))
      else None
  }

  /** Never deletes but on `Drop`, and shows nothing of a lease that is not active. */
  function RefStep(xs: seq<Context>, active: set<Text>, ev: Event): (seq<Context>, Seen) {
    match ev
    case Open(_) => (xs, Nothing)
    case Close(_) => (xs, Nothing)
    case Record(s, input) => (if Recordable(s, input, active) then RefPut(xs, Bind(s, input)) else xs, Nothing)
    case Lookup(s, session, agent) =>
      (xs, One(if s.leaseId in active then RefGet(xs, s.leaseId, session, agent) else None))
    case List(s, session) =>
      (xs, Many(if s.leaseId in active then RefList(xs, s.leaseId, session) else []))
    case FindMain(s, session) =>
      (xs, One(if s.leaseId in active then FirstMain(RefList(xs, s.leaseId, session)) else None))
    case Inherit(s, agent) => (xs, Inherited(RefParent(xs, active, s, agent)))
    case Drop(lease) => (RefDrop(xs, lease), Nothing)
  }

  function RefRun(xs: seq<Context>, l: Leases, evs: seq<Event>): seq<Seen>
    decreases |evs|
  {
    if evs == [] then []
    else
      var r := RefStep(xs, l.active, evs[0]);
      [r.1] + RefRun(r.0, AfterLeases(l, evs[0]), evs[1..])
  }

  // -------------------------------------------------------------------- keys

  /** With no separator in lease and session, a key has the prefix of its own session only. */
  lemma PrefixMeans(l: Text, s: Text, a: Text, lease: Text, session: Text)
    requires PIPE !in l && PIPE !in s && PIPE !in lease && PIPE !in session
    ensures StartsWith(KeyOf(l, s, a), PrefixOf(lease, session)) <==> l == lease && s == session
  {
    var key, prefix := KeyOf(l, s, a), PrefixOf(lease, session);
    if StartsWith(key, prefix) {
      var rest := key[|prefix|..];
      assert key == l + [PIPE] + (s + [PIPE] + a);
      assert key == prefix + rest == lease + [PIPE] + (session + [PIPE] + rest);
      SplitAtFirst(PIPE, l, s + [PIPE] + a, lease, session + [PIPE] + rest);
      SplitAtFirst(PIPE, s, a, session, rest);
    }
  }

  lemma KeyMeans(l: Text, s: Text, a: Text, lease: Text, session: Text, agent: Text)
    requires PIPE !in l && PIPE !in s && PIPE !in lease && PIPE !in session
    ensures KeyOf(l, s, a) == KeyOf(lease, session, agent) <==> l == lease && s == session && a == agent
  {
    if KeyOf(l, s, a) == KeyOf(lease, session, agent) {
      assert KeyOf(l, s, a)[..|PrefixOf(lease, session)|] == PrefixOf(lease, session);
      PrefixMeans(l, s, a, lease, session);
      Cancel(PrefixOf(lease, session), a, agent);
    }
  }

  // --------------------------------------------------------------- refinement

  function Values(es: Entries): seq<Context> {
    if es == [] then [] else [es[0].1] + Values(es[1..])
  }

  function Live(xs: seq<Context>, active: set<Text>): seq<Context> {
    if xs == [] then []
    else if xs[0].leaseId in active then [xs[0]] + Live(xs[1..], active)
    else Live(xs[1..], active)
  }

  ghost predicate GoodEntry(e: (Text, Context)) {
    e.0 == KeyOf(e.1.leaseId, e.1.claudeSessionId, e.1.agentId) && PIPE !in e.1.leaseId && PIPE !in e.1.claudeSessionId
  }

  ghost predicate GoodEntries(es: Entries) {
    forall e :: e in es ==> GoodEntry(e)
  }

  /** The lease and session ids of an event are free of the separator; agent ids may hold it. */
  predicate GoodEvent(ev: Event) {
    match ev
    case Record(s, input) => PIPE !in s.leaseId && PIPE !in input.claudeSessionId
    case Lookup(s, session, _) => PIPE !in s.leaseId && PIPE !in session
    case List(s, session) => PIPE !in s.leaseId && PIPE !in session
    case FindMain(s, session) => PIPE !in s.leaseId && PIPE !in session
    case Inherit(s, agent) => PIPE !in s.leaseId && (agent.claudeSessionId.Some? ==> PIPE !in agent.claudeSessionId.value)
    case _ => true
  }

  ghost predicate GoodEvents(evs: seq<Event>) {
    forall ev :: ev in evs ==> GoodEvent(ev)
  }

  ghost predicate Known(xs: seq<Context>, l: Leases) {
    forall x :: x in xs ==> x.leaseId in l.active || x.leaseId in l.retired
  }

  /** The registry holds the live contexts of the reference, in the same order. */
  ghost predicate Refines(es: Entries, xs: seq<Context>, l: Leases) {
    && GoodEntries(es) && Known(Values(es), l) && Known(xs, l) && l.active !! l.retired
    && Live(Values(es), l.active) == Live(xs, l.active)
  }

  lemma {:induction false} PutValues(es: Entries, x: Context)
    requires GoodEntries(es) && PIPE !in x.leaseId && PIPE !in x.claudeSessionId
    ensures Values(Put(es, KeyOf(x.leaseId, x.claudeSessionId, x.agentId), x)) == RefPut(Values(es), x)
    ensures GoodEntries(Put(es, KeyOf(x.leaseId, x.claudeSessionId, x.agentId), x))
  {
    if es != [] {
      var e := es[0];
      assert e in es;
      KeyMeans(e.1.leaseId, e.1.claudeSessionId, e.1.agentId, x.leaseId, x.claudeSessionId, x.agentId);
      PutValues(es[1..], x);
    }
  }

  lemma {:induction false} GetValues(es: Entries, lease: Text, session: Text, agent: Text)
    requires GoodEntries(es) && PIPE !in lease && PIPE !in session
    ensures Get(es, KeyOf(lease, session, agent)) == RefGet(Values(es), lease, session, agent)
  {
    if es != [] {
      var e := es[0];
      assert e in es;
      KeyMeans(e.1.leaseId, e.1.claudeSessionId, e.1.agentId, lease, session, agent);
      GetValues(es[1..], lease, session, agent);
    }
  }

  lemma {:induction false} LivePut(xs: seq<Context>, x: Context, active: set<Text>)
    requires x.leaseId in active
    ensures Live(RefPut(xs, x), active) == RefPut(Live(xs, active), x)
  {
    if xs != [] {
      LivePut(xs[1..], x, active);
      assert ([x] + xs[1..])[1..] == xs[1..];
    }
  }

  lemma {:induction false} PutMembers(xs: seq<Context>, x: Context)
    ensures forall y :: y in RefPut(xs, x) ==> y == x || y in xs
  {
    if xs != [] { PutMembers(xs[1..], x); }
  }

  lemma {:induction false} LiveGet(xs: seq<Context>, lease: Text, session: Text, agent: Text, active: set<Text>)
    ensures RefGet(Live(xs, active), lease, session, agent) == if lease in active then RefGet(xs, lease, session, agent) else None
  {
    if xs != [] { LiveGet(xs[1..], lease, session, agent, active); }
  }

  lemma {:induction false} LiveList(xs: seq<Context>, lease: Text, session: Text, active: set<Text>)
    ensures RefList(Live(xs, active), lease, session) == if lease in active then RefList(xs, lease, session) else []
  {
    if xs != [] { LiveList(xs[1..], lease, session, active); }
  }

  lemma {:induction false} LiveDrop(xs: seq<Context>, lease: Text, active: set<Text>)
    ensures Live(RefDrop(xs, lease), active) == RefDrop(Live(xs, active), lease)
    ensures forall x :: x in RefDrop(xs, lease) ==> x in xs
  {
    if xs != [] { LiveDrop(xs[1..], lease, active); }
  }

  lemma {:induction false} DropValues(es: Entries, lease: Text)
    ensures Values(Dropped(es, lease)) == RefDrop(Values(es), lease)
    ensures forall e :: e in Dropped(es, lease) ==> e in es
  {
    if es != [] { DropValues(es[1..], lease); }
  }

  /** A scan finds the live contexts of the session and deletes dead ones only. */
  lemma {:induction false} ScanValues(es: Entries, lease: Text, session: Text, active: set<Text>)
    requires GoodEntries(es) && PIPE !in lease && PIPE !in session
    ensures Matching(es, PrefixOf(lease, session), active) == RefList(Live(Values(es), active), lease, session)
    ensures Live(Values(Swept(es, PrefixOf(lease, session), active)), active) == Live(Values(es), active)
    ensures forall e :: e in Swept(es, PrefixOf(lease, session), active) ==> e in es
  {
    if es != [] {
      var e := es[0];
      assert e in es;
      PrefixMeans(e.1.leaseId, e.1.claudeSessionId, e.1.agentId, lease, session);
      ScanValues(es[1..], lease, session, active);
    }
  }

  lemma {:induction false} DeleteValues(es: Entries, lease: Text, session: Text, agent: Text, active: set<Text>)
    requires GoodEntries(es) && PIPE !in lease && PIPE !in session && lease !in active
    ensures Live(Values(Delete(es, KeyOf(lease, session, agent))), active) == Live(Values(es), active)
    ensures forall e :: e in Delete(es, KeyOf(lease, session, agent)) ==> e in es
  {
    if es != [] {
      var e := es[0];
      assert e in es;
      KeyMeans(e.1.leaseId, e.1.claudeSessionId, e.1.agentId, lease, session, agent);
      DeleteValues(es[1..], lease, session, agent, active);
    }
  }

  lemma {:induction false} ValuesMembers(es: Entries, fs: Entries)
    requires forall e :: e in es ==> e in fs
    ensures forall x :: x in Values(es) ==> x in Values(fs)
  {
    forall x | x in Values(es) ensures x in Values(fs) {
      var e := EntryOf(es, x);
      ValueOf(fs, e);
    }
  }

  lemma {:induction false} EntryOf(es: Entries, x: Context) returns (e: (Text, Context))
    requires x in Values(es)
    ensures e in es && e.1 == x
  {
    if es[0].1 == x { return es[0]; }
    e := EntryOf(es[1..], x);
  }

  lemma {:induction false} ValueOf(es: Entries, e: (Text, Context))
    requires e in es
    ensures e.1 in Values(es)
  {
    if es[0] != e { ValueOf(es[1..], e); }
  }

  lemma {:induction false} GetMember(xs: seq<Context>, lease: Text, session: Text, agent: Text)
    ensures var r := RefGet(xs, lease, session, agent); r.Some? ==> r.value in xs && At(r.value, lease, session, agent)
  {
    if xs != [] { GetMember(xs[1..], lease, session, agent); }
  }

  lemma RecordRefines(es: Entries, xs: seq<Context>, l: Leases, s: Session, input: Context)
    requires Refines(es, xs, l) && GoodEvent(Record(s, input))
    ensures Refines(Step(es, l.active, Record(s, input)).0, RefStep(xs, l.active, Record(s, input)).0, l)
  {
    if Recordable(s, input, l.active) {
      var x := Bind(s, input);
      PutValues(es, x);
      LivePut(xs, x, l.active);
      LivePut(Values(es), x, l.active);
      PutMembers(xs, x);
      PutMembers(Values(es), x);
    }
  }

  lemma LookupRefines(es: Entries, xs: seq<Context>, l: Leases, s: Session, session: Text, agent: Text)
    requires Refines(es, xs, l) && PIPE !in s.leaseId && PIPE !in session
    ensures var r := Resolved(es, l.active, KeyOf(s.leaseId, session, agent));
            Refines(r.0, xs, l) && r.1 == if s.leaseId in l.active then RefGet(xs, s.leaseId, session, agent) else None
  {
    GetValues(es, s.leaseId, session, agent);
    LiveGet(Values(es), s.leaseId, session, agent, l.active);
    LiveGet(xs, s.leaseId, session, agent, l.active);
    GetMember(Values(es), s.leaseId, session, agent);
    var r := Resolved(es, l.active, KeyOf(s.leaseId, session, agent));
    if r.0 != es {
      DeleteValues(es, s.leaseId, session, agent, l.active);
      ValuesMembers(r.0, es);
    }
  }

  lemma ScanRefines(es: Entries, xs: seq<Context>, l: Leases, s: Session, session: Text)
    requires Refines(es, xs, l) && PIPE !in s.leaseId && PIPE !in session
    ensures Refines(Swept(es, PrefixOf(s.leaseId, session), l.active), xs, l)
    ensures Matching(es, PrefixOf(s.leaseId, session), l.active) == if s.leaseId in l.active then RefList(xs, s.leaseId, session) else []
  {
    ScanValues(es, s.leaseId, session, l.active);
    LiveList(xs, s.leaseId, session, l.active);
    ValuesMembers(Swept(es, PrefixOf(s.leaseId, session), l.active), es);
  }

  lemma ParentRefines(es: Entries, xs: seq<Context>, l: Leases, s: Session, agent: Agent)
    requires Refines(es, xs, l) && GoodEvent(Inherit(s, agent))
    ensures var r := ParentOf(es, l.active, s, agent); Refines(r.0, xs, l) && r.1 == RefParent(xs, l.active, s, agent)
  {
    if agent.claudeSessionId.Some? && agent.parentAgentId.Some? {
      var session := agent.claudeSessionId.value;
      LookupRefines(es, xs, l, s, session, agent.parentAgentId.value);
      var exact := Resolved(es, l.active, KeyOf(s.leaseId, session, agent.parentAgentId.value));
      ScanRefines(exact.0, xs, l, s, session);
    }
  }

  lemma DropRefines(es: Entries, xs: seq<Context>, l: Leases, lease: Text)
    requires Refines(es, xs, l)
    ensures Refines(Dropped(es, lease), RefDrop(xs, lease), l)
  {
    DropValues(es, lease);
    LiveDrop(xs, lease, l.active);
    LiveDrop(Values(es), lease, l.active);
  }

  lemma {:induction false} LiveFewer(xs: seq<Context>, active: set<Text>, fewer: set<Text>)
    requires fewer <= active
    ensures Live(Live(xs, active), fewer) == Live(xs, fewer)
  {
    if xs != [] { LiveFewer(xs[1..], active, fewer); }
  }

  lemma {:induction false} LiveSame(xs: seq<Context>, active: set<Text>, lease: Text)
    requires forall x :: x in xs ==> x.leaseId in active || x.leaseId != lease
    ensures Live(xs, active + {lease}) == Live(xs, active)
  {
    if xs != [] {
      assert xs[0] in xs;
      LiveSame(xs[1..], active, lease);
    }
  }

  lemma LeasesRefine(es: Entries, xs: seq<Context>, l: Leases, ev: Event)
    requires Refines(es, xs, l)
    ensures Refines(es, xs, AfterLeases(l, ev))
  {
    match ev
    case Open(lease) =>
      if lease !in l.retired {
        LiveSame(Values(es), l.active, lease);
        LiveSame(xs, l.active, lease);
      }
    case Close(lease) =>
      LiveFewer(Values(es), l.active, l.active - {lease});
      LiveFewer(xs, l.active, l.active - {lease});
    case _ =>
  }

  lemma StepRefines(es: Entries, xs: seq<Context>, l: Leases, ev: Event)
    requires Refines(es, xs, l) && GoodEvent(ev)
    ensures Refines(Step(es, l.active, ev).0, RefStep(xs, l.active, ev).0, l)
    ensures Step(es, l.active, ev).1 == RefStep(xs, l.active, ev).1
  {
    match ev
    case Open(_) =>
    case Close(_) =>
    case Record(s, input) => RecordRefines(es, xs, l, s, input);
    case Lookup(s, session, agent) => LookupRefines(es, xs, l, s, session, agent);
    case List(s, session) => ScanRefines(es, xs, l, s, session);
    case FindMain(s, session) => ScanRefines(es, xs, l, s, session);
    case Inherit(s, agent) => ParentRefines(es, xs, l, s, agent);
    case Drop(lease) => DropRefines(es, xs, l, lease);
  }

  // -------------------------------------------------------------- main results

  /**
   * Over every run the registry shows what the reference shows: string keys
   * and lazy deletion cannot be observed.
   */
  lemma {:induction false} RegistryRefines(es: Entries, xs: seq<Context>, l: Leases, evs: seq<Event>)
    requires Refines(es, xs, l) && GoodEvents(evs)
    ensures Run(es, l, evs) == RefRun(xs, l, evs)
    decreases |evs|
  {
    if evs != [] {
      assert evs[0] in evs;
      StepRefines(es, xs, l, evs[0]);
      var es', xs' := Step(es, l.active, evs[0]).0, RefStep(xs, l.active, evs[0]).0;
      LeasesRefine(es', xs', l, evs[0]);
      RegistryRefines(es', xs', AfterLeases(l, evs[0]), evs[1..]);
    }
  }

  lemma RegistryRefinesFromEmpty(evs: seq<Event>)
    requires GoodEvents(evs)
    ensures Run([], Leases({}, {}), evs) == RefRun([], Leases({}, {}), evs)
  {
    RegistryRefines([], [], Leases({}, {}), evs);
  }

  /** The contexts an event shows. */
  function Shown(seen: Seen): seq<Context> {
    match seen
    case Nothing => []
    case One(found) => if found.Some? then [found.value] else []
    case Many(list) => list
    case Inherited(parent) => if parent.Some? then [parent.value.0] else []
  }

  // ------------------------------------------ what a run shows, from its events alone

  /** Opened by one of the events and closed by none. */
  predicate LeaseOpen(past: seq<Event>, lease: Text) {
    Open(lease) in past && Close(lease) !in past
  }

  /** The event records `x`: its lease is open by then and both its ids are given. */
  predicate Puts(past: seq<Event>, ev: Event, x: Context) {
    && ev.Record? && ev.input.agentId != [] && ev.input.claudeSessionId != [] && LeaseOpen(past, ev.s.leaseId)
    && x == Context(ev.input.claudeSessionId, ev.input.agentId, ev.input.parentAgentId, ev.input.role,
                    ev.s.leaseId, ev.s.profileId, ev.s.profileName, ev.input.model)
  }

  /** The event drops the lease of `x` or records anew for the same lease, session and agent. */
  predicate Displaces(past: seq<Event>, ev: Event, x: Context) {
    || ev == Drop(x.leaseId)
    || (ev.Record? && ev.s.leaseId == x.leaseId && ev.input.claudeSessionId == x.claudeSessionId
        && ev.input.agentId == x.agentId && LeaseOpen(past, x.leaseId))
  }

  /** `x` was recorded, and nothing since displaced it. */
  ghost predicate Held(past: seq<Event>, x: Context) {
    exists j :: 0 <= j < |past| && Puts(past[..j], past[j], x)
             && forall i :: j < i < |past| ==> !Displaces(past[..i], past[i], x)
  }

  ghost predicate HeldFor(past: seq<Event>, lease: Text, session: Text, x: Context) {
    LeaseOpen(past, lease) && Held(past, x) && x.leaseId == lease && x.claudeSessionId == session
  }

  ghost predicate MainFor(past: seq<Event>, lease: Text, session: Text, x: Context) {
    HeldFor(past, lease, session, x) && x.role == Main
  }

  ghost predicate AgentFor(past: seq<Event>, lease: Text, session: Text, agent: Text, x: Context) {
    HeldFor(past, lease, session, x) && x.agentId == agent
  }

  /** The right answer to an event. */
  ghost predicate Answers(past: seq<Event>, ev: Event, seen: Seen) {
    match ev
    case Lookup(s, session, agent) =>
      seen.One? && forall x :: seen.found == Some(x) <==> AgentFor(past, s.leaseId, session, agent, x)
    case List(s, session) =>
      && seen.Many? && (forall x :: x in seen.list <==> HeldFor(past, s.leaseId, session, x))
      && forall i, j :: 0 <= i < j < |seen.list| ==> seen.list[i].agentId != seen.list[j].agentId
    case FindMain(s, session) =>
      && seen.One? && (seen.found.Some? ==> MainFor(past, s.leaseId, session, seen.found.value))
      && (seen.found.None? ==> forall x :: !MainFor(past, s.leaseId, session, x))
    case Inherit(s, agent) =>
      && seen.Inherited?
      && if agent.claudeSessionId.None? || agent.parentAgentId.None? then seen.parent.None?
         else InheritedRight(past, s.leaseId, agent.claudeSessionId.value, agent.parentAgentId.value, seen.parent)
    case _ => seen == Nothing
  }

  /** The named parent if it is held, else a main agent if there is one, else nothing. */
  ghost predicate InheritedRight(past: seq<Event>, lease: Text, session: Text, agent: Text, parent: Option<(Context, Source)>) {
    && (forall x :: parent == Some((x, ParentAgent)) <==> AgentFor(past, lease, session, agent, x))
    && (parent.Some? && parent.value.1 == SessionDefault ==> MainFor(past, lease, session, parent.value.0))
    && (parent.None? ==> forall x :: !MainFor(past, lease, session, x))
  }

  function LeasesAfter(past: seq<Event>): Leases {
    if past == [] then Leases({}, {}) else AfterLeases(LeasesAfter(past[..|past| - 1]), past[|past| - 1])
  }

  function RefAfter(past: seq<Event>): seq<Context> {
    if past == [] then []
    else RefStep(RefAfter(past[..|past| - 1]), LeasesAfter(past[..|past| - 1]).active, past[|past| - 1]).0
  }

  lemma {:induction false} OpenIff(past: seq<Event>, lease: Text)
    ensures lease in LeasesAfter(past).active <==> LeaseOpen(past, lease)
    ensures lease in LeasesAfter(past).retired <==> Close(lease) in past
  {
    if past != [] {
      var n := |past| - 1;
      OpenIff(past[..n], lease);
      assert past == past[..n] + [past[n]];
    }
  }

  lemma AfterOne(past: seq<Event>, ev: Event)
    ensures LeasesAfter(past + [ev]) == AfterLeases(LeasesAfter(past), ev)
    ensures RefAfter(past + [ev]) == RefStep(RefAfter(past), LeasesAfter(past).active, ev).0
  {
    assert (past + [ev])[..|past|] == past;
  }

  ghost predicate SeenAt(past: seq<Event>, ev: Event, seen: Seen) {
    seen == RefStep(RefAfter(past), LeasesAfter(past).active, ev).1
  }

  lemma {:induction false} RunAt(past: seq<Event>, evs: seq<Event>, k: nat)
    requires k < |evs|
    ensures var seen := RefRun(RefAfter(past), LeasesAfter(past), evs);
            |seen| == |evs| && SeenAt(past + evs[..k], evs[k], seen[k])
    decreases |evs|
  {
    RunLength(RefAfter(past), LeasesAfter(past), evs);
    if k == 0 {
      assert past + evs[..0] == past;
    } else {
      AfterOne(past, evs[0]);
      RunAt(past + [evs[0]], evs[1..], k - 1);
      assert past + [evs[0]] + evs[1..][..k - 1] == past + evs[..k];
    }
  }

  lemma {:induction false} RunLength(xs: seq<Context>, l: Leases, evs: seq<Event>)
    ensures |RefRun(xs, l, evs)| == |evs|
    decreases |evs|
  {
    if evs != [] { RunLength(RefStep(xs, l.active, evs[0]).0, AfterLeases(l, evs[0]), evs[1..]); }
  }

  /** One context for a lease, session and agent. */
  ghost predicate OnePlace(xs: seq<Context>) {
    forall i, j :: 0 <= i < j < |xs| ==> !At(xs[j], xs[i].leaseId, xs[i].claudeSessionId, xs[i].agentId)
  }

  predicate SamePlace(x: Context, y: Context) { At(x, y.leaseId, y.claudeSessionId, y.agentId) }

  lemma {:induction false} RefPutExact(xs: seq<Context>, x: Context)
    requires OnePlace(xs)
    ensures OnePlace(RefPut(xs, x))
    ensures forall y :: y in RefPut(xs, x) <==> y == x || (y in xs && !SamePlace(y, x))
  {
    if xs != [] {
      var rest, r := xs[1..], RefPut(xs, x);
      assert forall y :: y in xs <==> y == xs[0] || y in rest;
      if SamePlace(xs[0], x) {
        forall y | y in rest ensures !SamePlace(y, x) {
          var j :| 1 <= j < |xs| && xs[j] == y;
          assert !SamePlace(xs[j], xs[0]);
        }
      } else {
        RefPutExact(rest, x);
        forall j | 0 < j < |r| ensures !SamePlace(r[j], r[0]) {
          assert r[j] in RefPut(rest, x);
          if r[j] in rest {
            var i :| 1 <= i < |xs| && xs[i] == r[j];
          }
        }
      }
    }
  }

  lemma {:induction false} RefDropExact(xs: seq<Context>, lease: Text)
    requires OnePlace(xs)
    ensures OnePlace(RefDrop(xs, lease))
    ensures forall y :: y in RefDrop(xs, lease) <==> y in xs && y.leaseId != lease
  {
    if xs != [] {
      var rest, r := xs[1..], RefDrop(xs, lease);
      assert forall y :: y in xs <==> y == xs[0] || y in rest;
      RefDropExact(rest, lease);
      if xs[0].leaseId != lease {
        forall j | 0 < j < |r| ensures !SamePlace(r[j], r[0]) {
          assert r[j] in rest;
          var i :| 1 <= i < |xs| && xs[i] == r[j];
        }
      }
    }
  }

  lemma {:induction false} RefListExact(xs: seq<Context>, lease: Text, session: Text)
    requires OnePlace(xs)
    ensures var r := RefList(xs, lease, session);
            && (forall x :: x in r <==> x in xs && x.leaseId == lease && x.claudeSessionId == session)
            && forall i, j :: 0 <= i < j < |r| ==> r[i].agentId != r[j].agentId
  {
    if xs != [] {
      var rest, r := xs[1..], RefList(xs, lease, session);
      assert forall y :: y in xs <==> y == xs[0] || y in rest;
      RefListExact(rest, lease, session);
      if xs[0].leaseId == lease && xs[0].claudeSessionId == session {
        forall j | 0 < j < |r| ensures r[0].agentId != r[j].agentId {
          assert r[j] in RefList(rest, lease, session);
          var i :| 1 <= i < |xs| && xs[i] == r[j];
        }
      }
    }
  }

  lemma {:induction false} RefGetExact(xs: seq<Context>, lease: Text, session: Text, agent: Text)
    requires OnePlace(xs)
    ensures forall x :: RefGet(xs, lease, session, agent) == Some(x) <==> x in xs && At(x, lease, session, agent)
  {
    if xs != [] {
      RefGetExact(xs[1..], lease, session, agent);
      forall x | x in xs[1..] && At(x, lease, session, agent) ensures !At(xs[0], lease, session, agent) {
        var j :| 1 <= j < |xs| && xs[j] == x;
      }
    }
  }

  lemma {:induction false} FirstMainExact(xs: seq<Context>)
    ensures var m := FirstMain(xs);
            && (m.Some? ==> exists i :: FirstMainAt(xs, i, m.value))
            && (m.None? ==> forall x :: x in xs ==> x.role != Main)
  {
    if xs != [] {
      FirstMainExact(xs[1..]);
      if xs[0].role == Main {
        assert FirstMainAt(xs, 0, xs[0]);
      } else if FirstMain(xs).Some? {
        var i :| FirstMainAt(xs[1..], i, FirstMain(xs[1..]).value);
        assert FirstMainAt(xs, i + 1, FirstMain(xs).value);
      }
    }
  }

  ghost predicate FirstMainAt(xs: seq<Context>, i: int, x: Context) {
    0 <= i < |xs| && xs[i] == x && x.role == Main && forall j :: 0 <= j < i ==> xs[j].role != Main
  }

  lemma HeldAfter(past: seq<Event>, ev: Event, x: Context)
    ensures Held(past + [ev], x) <==> Puts(past, ev, x) || (Held(past, x) && !Displaces(past, ev, x))
  {
    var all, n := past + [ev], |past|;
    assert all[..n] == past && all[n] == ev;
    assert forall i :: 0 <= i < n ==> all[..i] == past[..i] && all[i] == past[i];
    if Held(all, x) {
      var j :| 0 <= j <= n && Puts(all[..j], all[j], x) && forall i :: j < i <= n ==> !Displaces(all[..i], all[i], x);
      if j < n { assert Puts(past[..j], past[j], x); }
    }
    if Puts(past, ev, x) { assert Puts(all[..n], all[n], x); }
    if Held(past, x) && !Displaces(past, ev, x) {
      var j :| 0 <= j < n && Puts(past[..j], past[j], x) && forall i :: j < i < n ==> !Displaces(past[..i], past[i], x);
      assert Puts(all[..j], all[j], x);
      forall i | j < i <= n ensures !Displaces(all[..i], all[i], x) { if i < n { assert !Displaces(past[..i], past[i], x); } }
    }
  }

  /** The reference holds what the events say. */
  lemma {:induction false} HeldIff(past: seq<Event>)
    ensures OnePlace(RefAfter(past)) && forall x :: x in RefAfter(past) <==> Held(past, x)
  {
    if past != [] {
      var n := |past| - 1;
      var before, ev := past[..n], past[n];
      HeldIff(before);
      assert past == before + [ev];
      if ev.Record? { OpenIff(before, ev.s.leaseId); }
      EventExact(RefAfter(before), LeasesAfter(before).active, before, ev);
      forall x ensures x in RefAfter(past) <==> Held(past, x) { HeldAfter(before, ev, x); }
    }
  }

  lemma EventExact(xs: seq<Context>, active: set<Text>, past: seq<Event>, ev: Event)
    requires OnePlace(xs) && (ev.Record? ==> (ev.s.leaseId in active <==> LeaseOpen(past, ev.s.leaseId)))
    requires forall x :: x in xs ==> x.agentId != [] && x.claudeSessionId != []
    ensures OnePlace(RefStep(xs, active, ev).0)
    ensures forall x :: x in RefStep(xs, active, ev).0 <==> Puts(past, ev, x) || (x in xs && !Displaces(past, ev, x))
  {
    match ev
    case Record(s, input) => RefPutExact(xs, Bind(s, input));
    case Drop(lease) => RefDropExact(xs, lease);
    case _ =>
  }

  /**
   * Every step of every run is answered exactly from what was recorded, opened,
   * closed and dropped before it: nothing held is kept back and nothing else is shown.
   */
  lemma AnswersExactly(evs: seq<Event>, k: nat)
    requires GoodEvents(evs) && k < |evs|
    ensures var seen := Run([], Leases({}, {}), evs);
            |seen| == |evs| && Answers(evs[..k], evs[k], seen[k])
  {
    RegistryRefinesFromEmpty(evs);
    RunAt([], evs, k);
    var past := evs[..k];
    assert [] + past == past;
    HeldIff(past);
    RefAnswers(RefAfter(past), LeasesAfter(past).active, past, evs[k]);
  }

  lemma RefAnswers(xs: seq<Context>, active: set<Text>, past: seq<Event>, ev: Event)
    requires OnePlace(xs) && active == LeasesAfter(past).active && forall x :: x in xs <==> Held(past, x)
    ensures Answers(past, ev, RefStep(xs, active, ev).1)
  {
    match ev
    case Lookup(s, session, agent) =>
      OpenIff(past, s.leaseId);
      RefGetExact(xs, s.leaseId, session, agent);
    case List(s, session) =>
      OpenIff(past, s.leaseId);
      RefListExact(xs, s.leaseId, session);
    case FindMain(s, session) =>
      OpenIff(past, s.leaseId);
      RefListExact(xs, s.leaseId, session);
      FirstMainExact(RefList(xs, s.leaseId, session));
    case Inherit(s, agent) =>
      if agent.claudeSessionId.Some? && agent.parentAgentId.Some? {
        OpenIff(past, s.leaseId);
        RefGetExact(xs, s.leaseId, agent.claudeSessionId.value, agent.parentAgentId.value);
        RefListExact(xs, s.leaseId, agent.claudeSessionId.value);
        FirstMainExact(RefList(xs, s.leaseId, agent.claudeSessionId.value));
      }
    case _ =>
  }

  ghost predicate RecordedBefore(evs: seq<Event>, k: nat, x: Context)
    requires k <= |evs|
  {
    exists j :: 0 <= j < k && Puts(evs[..j], evs[j], x)
  }

  /** The lease and session an event asks about. */
  predicate AsksFor(ev: Event, lease: Text, session: Text) {
    match ev
    case Lookup(s, id, _) => s.leaseId == lease && id == session
    case List(s, id) => s.leaseId == lease && id == session
    case FindMain(s, id) => s.leaseId == lease && id == session
    case Inherit(s, agent) => s.leaseId == lease && agent.claudeSessionId == Some(session)
    case _ => false
  }

  /**
   * Whatever the registry shows at a step of a run was recorded before it in
   * the lease and session that asks, and its lease is open.
   */
  lemma ShowsOwnContextsOnly(evs: seq<Event>, k: nat, x: Context)
    requires GoodEvents(evs) && k < |evs|
    ensures var seen := Run([], Leases({}, {}), evs);
            && |seen| == |evs|
            && (x in Shown(seen[k]) ==>
                  RecordedBefore(evs, k, x) && AsksFor(evs[k], x.leaseId, x.claudeSessionId) && LeaseOpen(evs[..k], x.leaseId))
  {
    AnswersExactly(evs, k);
    var past, seen := evs[..k], Run([], Leases({}, {}), evs)[k];
    if x in Shown(seen) {
      assert Held(past, x) && LeaseOpen(past, x.leaseId) && AsksFor(evs[k], x.leaseId, x.claudeSessionId) by {
        ShownIsHeld(past, evs[k], seen, x);
      }
      var j :| 0 <= j < |past| && Puts(past[..j], past[j], x) && forall i :: j < i < |past| ==> !Displaces(past[..i], past[i], x);
      assert past[..j] == evs[..j] && past[j] == evs[j];
    }
  }

  lemma ShownIsHeld(past: seq<Event>, ev: Event, seen: Seen, x: Context)
    requires Answers(past, ev, seen) && x in Shown(seen)
    ensures HeldFor(past, x.leaseId, x.claudeSessionId, x) && AsksFor(ev, x.leaseId, x.claudeSessionId)
  {
    match ev
    case Lookup(s, session, agent) => assert AgentFor(past, s.leaseId, session, agent, x);
    case Inherit(s, agent) =>
      if seen.parent.value.1 == ParentAgent {
        assert AgentFor(past, s.leaseId, agent.claudeSessionId.value, agent.parentAgentId.value, x);
      }
    case _ =>
  }

  /**
   * Two sessions of a lease can be mixed up by some agent id exactly when one
   * session id continues the other after a separator.
   */
  lemma SessionsCollideIff(lease: Text, s: Text, session: Text)
    requires s != session
    ensures (exists a :: StartsWith(KeyOf(lease, s, a), PrefixOf(lease, session)))
            <==> StartsWith(s, session + [PIPE]) || StartsWith(session, s + [PIPE])
  {
    forall a ensures StartsWith(KeyOf(lease, s, a), PrefixOf(lease, session)) <==> StartsWith(s + [PIPE] + a, session + [PIPE]) {
      assert KeyOf(lease, s, a) == lease + [PIPE] + (s + [PIPE] + a);
      UnderPrefix(lease + [PIPE], s + [PIPE] + a, session + [PIPE]);
    }
    if StartsWith(s, session + [PIPE]) {
      assert StartsWith(s + [PIPE] + [], session + [PIPE]);
      assert StartsWith(KeyOf(lease, s, []), PrefixOf(lease, session));
    } else if StartsWith(session, s + [PIPE]) {
      var x := session[|s| + 1..];
      assert session == s + [PIPE] + x;
      assert s + [PIPE] + (x + [PIPE]) == session + [PIPE];
      assert StartsWith(KeyOf(lease, s, x + [PIPE]), PrefixOf(lease, session));
    } else {
      forall a ensures !StartsWith(s + [PIPE] + a, session + [PIPE]) {
        NoOverlap(s, session, a);
      }
    }
  }

  lemma UnderPrefix(p: Text, t: Text, u: Text)
    ensures StartsWith(p + t, p + u) <==> StartsWith(t, u)
  {
    if |u| <= |t| {
      assert (p + t)[..|p + u|] == p + t[..|u|];
      if p + t[..|u|] == p + u { Cancel(p, t[..|u|], u); }
    }
  }

  lemma NoOverlap(s: Text, session: Text, a: Text)
    requires s != session && !StartsWith(s, session + [PIPE]) && !StartsWith(session, s + [PIPE])
    ensures !StartsWith(s + [PIPE] + a, session + [PIPE])
  {
    var t, u := s + [PIPE] + a, session + [PIPE];
    if |session| < |s| {
      assert |u| <= |t| ==> t[..|u|] == s[..|u|];
    } else if |s| < |session| {
      assert t[..|s| + 1] == s + [PIPE] && u[..|s| + 1] == session[..|s| + 1];
      assert |u| <= |t| ==> t[..|u|][..|s| + 1] == t[..|s| + 1];
    } else {
      assert t[..|s|] == s && u[..|s|] == session;
      assert |u| <= |t| ==> t[..|u|][..|s|] == t[..|s|];
    }
  }
}

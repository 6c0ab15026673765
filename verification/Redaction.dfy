/**
 * Redaction of values before they are logged (src/observability/redaction.ts):
 * a recursion over a graph of objects that may be shared or cyclic.
 */
module Redaction {

  type Ref = nat

  /** `Plain` is anything that is not an object: a string, number, boolean, null or undefined. */
  datatype Value = Plain(text: string) | Object(ref: Ref)

  datatype Obj = Arr(items: seq<Value>) | Rec(fields: seq<(string, Value)>)

  type Heap = map<Ref, Obj>

  datatype Out = Same(text: string) | Circular | Redacted | OutArr(items: seq<Out>) | OutRec(fields: seq<OutField>)

  datatype OutField = OutField(key: string, value: Out)

  // ------------------------------------------------------------ sensitive keys

  const WORDS: seq<string> := [
    "authorization", "apikey", "api-key", "api_key", "token", "secret", "password", "credential", "prompt",
    "response", "email", "account", "system", "input", "content", "body", "payload", "text", "data",
    "partialjson", "partial-json", "partial_json", "message", "signature", "value"]

  function Lower(c: char): char {
    if 'A' <= c <= 'Z' then c - 'A' + 'a' else c
  }

  predicate WordAt(key: string, word: string, i: nat) {
    i + |word| <= |key| && forall j :: 0 <= j < |word| ==> Lower(key[i + j]) == word[j]
  }

  /** The key holds one of the words somewhere, in upper or lower case. */
  predicate Sensitive(key: string) {
    exists w, i :: 0 <= w < |WORDS| && 0 <= i <= |key| && WordAt(key, WORDS[w], i)
  }

  /** The words of the pattern; two of them may hold a dash or an underscore. */
  ghost predicate Word(w: string) {
    || w in {"authorization", "token", "secret", "password", "credential", "prompt", "response", "email", "account",
             "system", "input", "content", "body", "payload", "text", "data", "message", "signature", "value"}
    || exists joint :: joint in ["", "-", "_"] && (w == "api" + joint + "key" || w == "partial" + joint + "json")
  }

  /** The same letters, each in lower or upper case. */
  predicate AnyCase(found: string, w: string) {
    && |found| == |w|
    && forall j :: 0 <= j < |w| ==> found[j] == w[j] || ('a' <= w[j] <= 'z' && found[j] as int + 32 == w[j] as int)
  }

  ghost predicate Contains(key: string, before: string, found: string, after: string) {
    key == before + found + after && exists w :: Word(w) && AnyCase(found, w)
  }

  lemma WordsAreListed(w: string)
    ensures Word(w) <==> w in WORDS
  {
    assert "api" + "" + "key" == WORDS[1] && "api" + "-" + "key" == WORDS[2] && "api" + "_" + "key" == WORDS[3];
    assert "partial" + "" + "json" == WORDS[19] && "partial" + "-" + "json" == WORDS[20] && "partial" + "_" + "json" == WORDS[21];
    var joints := ["", "-", "_"];
    assert joints[0] in joints && joints[1] in joints && joints[2] in joints;
  }

  lemma LowerIff(c: char, l: char)
    requires l == '-' || l == '_' || 'a' <= l <= 'z'
    ensures Lower(c) == l <==> c == l || ('a' <= l <= 'z' && c as int + 32 == l as int)
  {
  }

  lemma {:induction false} WordsAreLower()
    ensures forall w, j :: 0 <= w < |WORDS| && 0 <= j < |WORDS[w]| ==> WORDS[w][j] == '-' || WORDS[w][j] == '_' || 'a' <= WORDS[w][j] <= 'z'
  {
  }

  /** A key is sensitive exactly if a word of the pattern stands in it somewhere, in any case. */
  lemma SensitiveIff(key: string)
    ensures Sensitive(key) <==> exists before, found, after :: Contains(key, before, found, after)
  {
    WordsAreLower();
    if Sensitive(key) {
      var w, i :| 0 <= w < |WORDS| && 0 <= i <= |key| && WordAt(key, WORDS[w], i);
      var n := i + |WORDS[w]|;
      assert key == key[..i] + key[i..n] + key[n..];
      forall j | 0 <= j < |WORDS[w]| { LowerIff(key[i + j], WORDS[w][j]); }
      WordsAreListed(WORDS[w]);
      assert AnyCase(key[i..n], WORDS[w]);
      assert Contains(key, key[..i], key[i..n], key[n..]);
    }
    if before, found, after :| Contains(key, before, found, after) {
      var word :| Word(word) && AnyCase(found, word);
      WordsAreListed(word);
      var w :| 0 <= w < |WORDS| && WORDS[w] == word;
      forall j | 0 <= j < |word| ensures Lower(key[|before| + j]) == word[j] {
        assert key[|before| + j] == found[j];
        LowerIff(found[j], WORDS[w][j]);
      }
      assert WordAt(key, WORDS[w], |before|);
    }
  }

  // ----------------------------------------------------------------- redaction

  predicate Known(heap: Heap, v: Value) { v.Object? ==> v.ref in heap }

  predicate KnownObj(heap: Heap, o: Obj) {
    match o
    case Arr(items) => forall i :: 0 <= i < |items| ==> Known(heap, items[i])
    case Rec(fields) => forall i :: 0 <= i < |fields| ==> Known(heap, fields[i].1)
  }

  /** Every object mentioned is there. */
  ghost predicate Closed(heap: Heap) {
    forall r {:trigger KnownObj(heap, heap[r])} :: r in heap ==> KnownObj(heap, heap[r])
  }

  ghost function Unseen(heap: Heap, seen: set<Ref>): set<Ref> { heap.Keys - seen }

  lemma UnseenFewer(heap: Heap, seen: set<Ref>, more: set<Ref>)
    requires seen <= more
    ensures |Unseen(heap, more)| <= |Unseen(heap, seen)|
  {
    assert Unseen(heap, seen) == Unseen(heap, more) + (Unseen(heap, seen) - Unseen(heap, more));
  }

  lemma UnseenShrinks(heap: Heap, seen: set<Ref>, r: Ref)
    requires r in heap && r !in seen
    ensures |Unseen(heap, seen + {r})| < |Unseen(heap, seen)|
  {
    assert Unseen(heap, seen) == Unseen(heap, seen + {r}) + {r};
  }

  function Redact(heap: Heap, v: Value, seen: set<Ref>): (r: (Out, set<Ref>))
    requires Closed(heap) && Known(heap, v)
    ensures seen <= r.1
    decreases |Unseen(heap, seen)|, 1, 0
  {
    if v.Plain? then (Same(v.text), seen)
    else if v.ref in seen then (Circular, seen)
    else
      UnseenShrinks(heap, seen, v.ref);
      assert KnownObj(heap, heap[v.ref]);
      match heap[v.ref]
      case Arr(items) =>
        var r := RedactItems(heap, items, seen + {v.ref});
        (OutArr(r.0), r.1)
      case Rec(fields) =>
        var r := RedactFields(heap, fields, seen + {v.ref});
        (OutRec(r.0), r.1)
  }

  /** Left to right; what one item has seen, the next one has. */
  function RedactItems(heap: Heap, items: seq<Value>, seen: set<Ref>): (r: (seq<Out>, set<Ref>))
    requires Closed(heap) && forall i :: 0 <= i < |items| ==> Known(heap, items[i])
    ensures seen <= r.1 && |r.0| == |items|
    decreases |Unseen(heap, seen)|, 2, |items|
  {
    if items == [] then ([], seen)
    else
      var n := |items| - 1;
      var before := RedactItems(heap, items[..n], seen);
      UnseenFewer(heap, seen, before.1);
      var last := Redact(heap, items[n], before.1);
      (before.0 + [last.0], last.1)
  }

  function RedactFields(heap: Heap, fields: seq<(string, Value)>, seen: set<Ref>): (r: (seq<OutField>, set<Ref>))
    requires Closed(heap) && forall i :: 0 <= i < |fields| ==> Known(heap, fields[i].1)
    ensures seen <= r.1 && |r.0| == |fields|
    decreases |Unseen(heap, seen)|, 2, |fields|
  {
    if fields == [] then ([], seen)
    else
      var n := |fields| - 1;
      var before := RedactFields(heap, fields[..n], seen);
      UnseenFewer(heap, seen, before.1);
      var last := if Sensitive(fields[n].0) then (Redacted, before.1) else Redact(heap, fields[n].1, before.1);
      (before.0 + [OutField(fields[n].0, last.0)], last.1)
  }

  /** The recursion of the program, with the set of seen objects in place. */
  class Redactor {
    const heap: Heap
    var seen: set<Ref>

    constructor (heap: Heap)
      ensures this.heap == heap && seen == {}
    {
      this.heap := heap;
      seen := {};
    }

    method Run(v: Value) returns (out: Out)
      requires Closed(heap) && Known(heap, v)
      modifies this
      ensures (out, seen) == Redact(heap, v, old(seen))
      decreases |Unseen(heap, seen)|, 1
    {
      if v.Plain? { return Same(v.text); }
      if v.ref in seen { return Circular; }
      UnseenShrinks(heap, seen, v.ref);
      assert KnownObj(heap, heap[v.ref]);
      seen := seen + {v.ref};
      ghost var start := seen;
      match heap[v.ref]
      case Arr(items) =>
        var done: seq<Out> := [];
        for i := 0 to |items|
          invariant start <= seen && (done, seen) == RedactItems(heap, items[..i], start)
        {
          assert items[..i + 1][..i] == items[..i];
          UnseenFewer(heap, start, seen);
          var child := Run(items[i]);
          done := done + [child];
        }
        assert items[..|items|] == items;
        out := OutArr(done);
      case Rec(fields) =>
        var done: seq<OutField> := [];
        for i := 0 to |fields|
          invariant start <= seen && (done, seen) == RedactFields(heap, fields[..i], start)
        {
          assert fields[..i + 1][..i] == fields[..i];
          UnseenFewer(heap, start, seen);
          var child := Redacted;
          if !Sensitive(fields[i].0) {
            child := Run(fields[i].1);
          }
          done := done + [OutField(fields[i].0, child)];
        }
        assert fields[..|fields|] == fields;
        out := OutRec(done);
    }
  }

  // ------------------------------------------------ every object, exactly once

  /** The arrays and records of an output. */
  function Nodes(o: Out): nat {
    match o
    case OutArr(items) => 1 + NodesIn(items)
    case OutRec(fields) => 1 + NodesUnder(fields)
    case _ => 0
  }

  function NodesIn(os: seq<Out>): nat {
    if os == [] then 0 else NodesIn(os[..|os| - 1]) + Nodes(os[|os| - 1])
  }

  function NodesUnder(fs: seq<OutField>): nat {
    if fs == [] then 0
    else NodesUnder(fs[..|fs| - 1]) + Nodes(fs[|fs| - 1].value)
  }

  function Mentioned(v: Value): set<Ref> { if v.Object? then {v.ref} else {} }

  function MentionedIn(items: seq<Value>): set<Ref> {
    if items == [] then {} else MentionedIn(items[..|items| - 1]) + Mentioned(items[|items| - 1])
  }

  function MentionedUnder(fields: seq<(string, Value)>): set<Ref> {
    if fields == [] then {}
    else
      var last := fields[|fields| - 1];
      MentionedUnder(fields[..|fields| - 1]) + if Sensitive(last.0) then {} else Mentioned(last.1)
  }

  lemma NodesMore(os: seq<Out>, o: Out)
    ensures NodesIn(os + [o]) == NodesIn(os) + Nodes(o)
  {
    assert (os + [o])[..|os|] == os;
  }

  lemma NodesMoreFields(fs: seq<OutField>, f: OutField)
    ensures NodesUnder(fs + [f]) == NodesUnder(fs) + Nodes(f.value)
  {
    assert (fs + [f])[..|fs|] == fs;
  }

  /** The objects an object leads to, other than under sensitive keys. */
  function Kids(o: Obj): set<Ref> {
    match o
    case Arr(items) => MentionedIn(items)
    case Rec(fields) => MentionedUnder(fields)
  }

  ghost predicate ClosedUnderKids(heap: Heap, refs: set<Ref>) {
    forall r :: r in refs && r in heap ==> Kids(heap[r]) <= refs
  }

  lemma CountThen(seen: set<Ref>, middle: set<Ref>, after: set<Ref>)
    requires seen <= middle <= after
    ensures |after - seen| == |middle - seen| + |after - middle|
  {
    assert after - seen == (middle - seen) + (after - middle);
  }

  lemma CountObject(r: Ref, seen: set<Ref>, after: set<Ref>)
    requires r !in seen && seen + {r} <= after
    ensures |after - seen| == |after - (seen + {r})| + 1
  {
    assert after - seen == (after - (seen + {r})) + {r};
  }

  /** As many arrays and records come out as objects are newly seen. */
  lemma {:induction false} RedactCounts(heap: Heap, v: Value, seen: set<Ref>)
    requires Closed(heap) && Known(heap, v)
    ensures var r := Redact(heap, v, seen); Nodes(r.0) == |r.1 - seen|
    decreases |Unseen(heap, seen)|, 1, 0
  {
    assert seen - seen == {};
    if v.Object? && v.ref !in seen {
      UnseenShrinks(heap, seen, v.ref);
      assert KnownObj(heap, heap[v.ref]);
      CountObject(v.ref, seen, Redact(heap, v, seen).1);
      match heap[v.ref]
      case Arr(items) => ItemsCount(heap, items, seen + {v.ref});
      case Rec(fields) => FieldsCount(heap, fields, seen + {v.ref});
    }
  }

  lemma {:induction false} ItemsCount(heap: Heap, items: seq<Value>, seen: set<Ref>)
    requires Closed(heap) && forall i :: 0 <= i < |items| ==> Known(heap, items[i])
    ensures var r := RedactItems(heap, items, seen); NodesIn(r.0) == |r.1 - seen|
    decreases |Unseen(heap, seen)|, 2, |items|
  {
    assert seen - seen == {};
    if items != [] {
      var n := |items| - 1;
      var before := RedactItems(heap, items[..n], seen);
      UnseenFewer(heap, seen, before.1);
      ItemsCount(heap, items[..n], seen);
      RedactCounts(heap, items[n], before.1);
      var last := Redact(heap, items[n], before.1);
      CountThen(seen, before.1, last.1);
      NodesMore(before.0, last.0);
    }
  }

  lemma {:induction false} FieldsCount(heap: Heap, fields: seq<(string, Value)>, seen: set<Ref>)
    requires Closed(heap) && forall i :: 0 <= i < |fields| ==> Known(heap, fields[i].1)
    ensures var r := RedactFields(heap, fields, seen); NodesUnder(r.0) == |r.1 - seen|
    decreases |Unseen(heap, seen)|, 2, |fields|
  {
    assert seen - seen == {};
    if fields != [] {
      var n := |fields| - 1;
      var before := RedactFields(heap, fields[..n], seen);
      UnseenFewer(heap, seen, before.1);
      FieldsCount(heap, fields[..n], seen);
      if Sensitive(fields[n].0) {
        NodesMoreFields(before.0, OutField(fields[n].0, Redacted));
      } else {
        RedactCounts(heap, fields[n].1, before.1);
        var last := Redact(heap, fields[n].1, before.1);
        CountThen(seen, before.1, last.1);
        NodesMoreFields(before.0, OutField(fields[n].0, last.0));
      }
    }
  }

  /** Everything the newly seen objects lead to is seen. */
  ghost predicate Explored(heap: Heap, mentioned: set<Ref>, seen: set<Ref>, after: set<Ref>) {
    && mentioned <= after
    && forall r :: r in after && r !in seen ==> r in heap && Kids(heap[r]) <= after
  }

  lemma ExploredThen(heap: Heap, m: set<Ref>, m': set<Ref>, seen: set<Ref>, middle: set<Ref>, after: set<Ref>)
    requires middle <= after && Explored(heap, m, seen, middle) && Explored(heap, m', middle, after)
    ensures Explored(heap, m + m', seen, after)
  {
  }

  lemma {:induction false} RedactExplores(heap: Heap, v: Value, seen: set<Ref>)
    requires Closed(heap) && Known(heap, v)
    ensures Explored(heap, Mentioned(v), seen, Redact(heap, v, seen).1)
    decreases |Unseen(heap, seen)|, 1, 0
  {
    if v.Object? && v.ref !in seen {
      UnseenShrinks(heap, seen, v.ref);
      assert KnownObj(heap, heap[v.ref]);
      match heap[v.ref]
      case Arr(items) => ItemsExplore(heap, items, seen + {v.ref});
      case Rec(fields) => FieldsExplore(heap, fields, seen + {v.ref});
    }
  }

  lemma {:induction false} ItemsExplore(heap: Heap, items: seq<Value>, seen: set<Ref>)
    requires Closed(heap) && forall i :: 0 <= i < |items| ==> Known(heap, items[i])
    ensures Explored(heap, MentionedIn(items), seen, RedactItems(heap, items, seen).1)
    decreases |Unseen(heap, seen)|, 2, |items|
  {
    if items != [] {
      var n := |items| - 1;
      var before := RedactItems(heap, items[..n], seen);
      UnseenFewer(heap, seen, before.1);
      ItemsExplore(heap, items[..n], seen);
      RedactExplores(heap, items[n], before.1);
      ExploredThen(heap, MentionedIn(items[..n]), Mentioned(items[n]), seen, before.1, Redact(heap, items[n], before.1).1);
    }
  }

  lemma {:induction false} FieldsExplore(heap: Heap, fields: seq<(string, Value)>, seen: set<Ref>)
    requires Closed(heap) && forall i :: 0 <= i < |fields| ==> Known(heap, fields[i].1)
    ensures Explored(heap, MentionedUnder(fields), seen, RedactFields(heap, fields, seen).1)
    decreases |Unseen(heap, seen)|, 2, |fields|
  {
    if fields != [] {
      var n := |fields| - 1;
      var (key, v) := fields[n];
      var before := RedactFields(heap, fields[..n], seen);
      UnseenFewer(heap, seen, before.1);
      FieldsExplore(heap, fields[..n], seen);
      if !Sensitive(key) {
        RedactExplores(heap, v, before.1);
        ExploredThen(heap, MentionedUnder(fields[..n]), Mentioned(v), seen, before.1, Redact(heap, v, before.1).1);
      }
    }
  }

  lemma {:induction false} VisitsReachableOnly(heap: Heap, v: Value, seen: set<Ref>, reach: set<Ref>)
    requires Closed(heap) && Known(heap, v) && ClosedUnderKids(heap, reach) && Mentioned(v) <= reach
    ensures Redact(heap, v, seen).1 <= seen + reach
    decreases |Unseen(heap, seen)|, 1, 0
  {
    if v.Object? && v.ref !in seen {
      UnseenShrinks(heap, seen, v.ref);
      assert KnownObj(heap, heap[v.ref]);
      assert Kids(heap[v.ref]) <= reach;
      match heap[v.ref]
      case Arr(items) => ItemsReachableOnly(heap, items, seen + {v.ref}, reach);
      case Rec(fields) => FieldsReachableOnly(heap, fields, seen + {v.ref}, reach);
    }
  }

  lemma {:induction false} ItemsReachableOnly(heap: Heap, items: seq<Value>, seen: set<Ref>, reach: set<Ref>)
    requires Closed(heap) && forall i :: 0 <= i < |items| ==> Known(heap, items[i])
    requires ClosedUnderKids(heap, reach) && MentionedIn(items) <= reach
    ensures RedactItems(heap, items, seen).1 <= seen + reach
    decreases |Unseen(heap, seen)|, 2, |items|
  {
    if items != [] {
      var n := |items| - 1;
      var before := RedactItems(heap, items[..n], seen);
      UnseenFewer(heap, seen, before.1);
      ItemsReachableOnly(heap, items[..n], seen, reach);
      VisitsReachableOnly(heap, items[n], before.1, reach);
    }
  }

  lemma {:induction false} FieldsReachableOnly(heap: Heap, fields: seq<(string, Value)>, seen: set<Ref>, reach: set<Ref>)
    requires Closed(heap) && forall i :: 0 <= i < |fields| ==> Known(heap, fields[i].1)
    requires ClosedUnderKids(heap, reach) && MentionedUnder(fields) <= reach
    ensures RedactFields(heap, fields, seen).1 <= seen + reach
    decreases |Unseen(heap, seen)|, 2, |fields|
  {
    if fields != [] {
      var n := |fields| - 1;
      var before := RedactFields(heap, fields[..n], seen);
      UnseenFewer(heap, seen, before.1);
      FieldsReachableOnly(heap, fields[..n], seen, reach);
      if !Sensitive(fields[n].0) {
        VisitsReachableOnly(heap, fields[n].1, before.1, reach);
      }
    }
  }

  /**
   * The objects expanded are exactly those reachable other than through
   * sensitive keys (the least closed set that holds the value), and each one is
   * expanded once: the output has as many arrays and records.
   */
  lemma ReachableExactlyOnce(heap: Heap, v: Value, reach: set<Ref>)
    requires Closed(heap) && Known(heap, v)
    ensures var (out, visited) := Redact(heap, v, {});
            && Nodes(out) == |visited| && Mentioned(v) <= visited && ClosedUnderKids(heap, visited)
            && (ClosedUnderKids(heap, reach) && Mentioned(v) <= reach ==> visited <= reach)
  {
    RedactCounts(heap, v, {});
    RedactExplores(heap, v, {});
    var visited := Redact(heap, v, {}).1;
    assert visited - {} == visited;
    if ClosedUnderKids(heap, reach) && Mentioned(v) <= reach {
      VisitsReachableOnly(heap, v, {}, reach);
    }
  }

  // ----------------------------------------------------- when markers appear

  /** The circular markers of an output. */
  function Marks(o: Out): nat {
    match o
    case Circular => 1
    case OutArr(items) => MarksIn(items)
    case OutRec(fields) => MarksUnder(fields)
    case _ => 0
  }

  function MarksIn(os: seq<Out>): nat {
    if os == [] then 0 else MarksIn(os[..|os| - 1]) + Marks(os[|os| - 1])
  }

  function MarksUnder(fs: seq<OutField>): nat {
    if fs == [] then 0 else MarksUnder(fs[..|fs| - 1]) + Marks(fs[|fs| - 1].value)
  }

  lemma MarksMore(os: seq<Out>, o: Out)
    ensures MarksIn(os + [o]) == MarksIn(os) + Marks(o)
  {
    assert (os + [o])[..|os|] == os;
  }

  lemma MarksMoreFields(fs: seq<OutField>, f: OutField)
    ensures MarksUnder(fs + [f]) == MarksUnder(fs) + Marks(f.value)
  {
    assert (fs + [f])[..|fs|] == fs;
  }

  /** The `i`-th part of an object is an object, and not under a sensitive key. */
  predicate Points(o: Obj, i: nat) {
    match o
    case Arr(items) => i < |items| && items[i].Object?
    case Rec(fields) => i < |fields| && !Sensitive(fields[i].0) && fields[i].1.Object?
  }

  function Target(o: Obj, i: nat): Ref
    requires Points(o, i)
  {
    match o
    case Arr(items) => items[i].ref
    case Rec(fields) => fields[i].1.ref
  }

  function Size(o: Obj): nat {
    match o
    case Arr(items) => |items|
    case Rec(fields) => |fields|
  }

  /** The places in `refs` that mention an object. */
  ghost function Places(heap: Heap, refs: set<Ref>): set<(Ref, nat)> {
    set r, i: nat | r in refs && r in heap && i < Size(heap[r]) && Points(heap[r], i) :: (r, i)
  }

  ghost function PlacesIn(o: Obj): set<nat> {
    set i: nat | i < Size(o) && Points(o, i)
  }

  lemma PlacesSplit(heap: Heap, a: set<Ref>, b: set<Ref>)
    requires a !! b
    ensures |Places(heap, a + b)| == |Places(heap, a)| + |Places(heap, b)|
  {
    assert Places(heap, a + b) == Places(heap, a) + Places(heap, b);
    assert Places(heap, a) !! Places(heap, b);
  }

  ghost function PairedWith(r: Ref, s: set<nat>): set<(Ref, nat)> {
    set i | i in s :: (r, i)
  }

  lemma {:induction false} PairedCount(r: Ref, s: set<nat>)
    ensures |PairedWith(r, s)| == |s|
  {
    if s != {} {
      var x :| x in s;
      PairedCount(r, s - {x});
      assert PairedWith(r, s) == PairedWith(r, s - {x}) + {(r, x)};
      assert (r, x) !in PairedWith(r, s - {x});
    } else {
      assert PairedWith(r, s) == {};
    }
  }

  lemma PlacesOne(heap: Heap, r: Ref)
    requires r in heap
    ensures |Places(heap, {r})| == |PlacesIn(heap[r])|
  {
    PairedCount(r, PlacesIn(heap[r]));
    assert Places(heap, {r}) == PairedWith(r, PlacesIn(heap[r]));
  }

  lemma PlacesOfItems(items: seq<Value>, v: Value)
    ensures |PlacesIn(Arr(items + [v]))| == |PlacesIn(Arr(items))| + |Mentioned(v)|
  {
    var all := Arr(items + [v]);
    forall i: nat ensures Points(all, i) <==> if i == |items| then v.Object? else Points(Arr(items), i) {
      if i < |items| { assert (items + [v])[i] == items[i]; }
    }
    assert PlacesIn(all) == PlacesIn(Arr(items)) + if v.Object? then {|items|} else {};
  }

  lemma PlacesOfFields(fields: seq<(string, Value)>, key: string, v: Value)
    ensures |PlacesIn(Rec(fields + [(key, v)]))| == |PlacesIn(Rec(fields))| + if Sensitive(key) then 0 else |Mentioned(v)|
  {
    var all := Rec(fields + [(key, v)]);
    forall i: nat ensures Points(all, i) <==> if i == |fields| then v.Object? && !Sensitive(key) else Points(Rec(fields), i) {
      if i < |fields| { assert (fields + [(key, v)])[i] == fields[i]; }
    }
    assert PlacesIn(all) == PlacesIn(Rec(fields)) + if v.Object? && !Sensitive(key) then {|fields|} else {};
  }

  /** Every mention comes out as a node or as a marker: those of `n` values, and those in the newly seen objects. */
  ghost predicate Accounted(heap: Heap, n: nat, seen: set<Ref>, after: set<Ref>, marks: nat) {
    seen <= after && marks + |after - seen| == n + |Places(heap, after - seen)|
  }

  lemma AccountedThen(heap: Heap, n: nat, n': nat, seen: set<Ref>, middle: set<Ref>, after: set<Ref>, m: nat, m': nat)
    requires Accounted(heap, n, seen, middle, m) && Accounted(heap, n', middle, after, m')
    ensures Accounted(heap, n + n', seen, after, m + m')
  {
    CountThen(seen, middle, after);
    PlacesSplit(heap, middle - seen, after - middle);
    assert after - seen == (middle - seen) + (after - middle);
  }

  lemma AccountedObject(heap: Heap, r: Ref, seen: set<Ref>, after: set<Ref>, m: nat)
    requires r in heap && r !in seen && Accounted(heap, |PlacesIn(heap[r])|, seen + {r}, after, m)
    ensures Accounted(heap, 1, seen, after, m)
  {
    CountObject(r, seen, after);
    PlacesSplit(heap, after - (seen + {r}), {r});
    PlacesOne(heap, r);
    assert after - seen == (after - (seen + {r})) + {r};
  }

  lemma AccountedItem(heap: Heap, items: seq<Value>, v: Value, seen: set<Ref>, before: (seq<Out>, set<Ref>), last: (Out, set<Ref>))
    requires Accounted(heap, |PlacesIn(Arr(items))|, seen, before.1, MarksIn(before.0))
    requires Accounted(heap, |Mentioned(v)|, before.1, last.1, Marks(last.0))
    ensures Accounted(heap, |PlacesIn(Arr(items + [v]))|, seen, last.1, MarksIn(before.0 + [last.0]))
  {
    AccountedThen(heap, |PlacesIn(Arr(items))|, |Mentioned(v)|, seen, before.1, last.1, MarksIn(before.0), Marks(last.0));
    MarksMore(before.0, last.0);
    PlacesOfItems(items, v);
  }

  lemma AccountedField(heap: Heap, fields: seq<(string, Value)>, key: string, v: Value, seen: set<Ref>,
                       before: (seq<OutField>, set<Ref>), last: (Out, set<Ref>))
    requires Accounted(heap, |PlacesIn(Rec(fields))|, seen, before.1, MarksUnder(before.0))
    requires if Sensitive(key) then last == (Redacted, before.1) else Accounted(heap, |Mentioned(v)|, before.1, last.1, Marks(last.0))
    ensures Accounted(heap, |PlacesIn(Rec(fields + [(key, v)]))|, seen, last.1, MarksUnder(before.0 + [OutField(key, last.0)]))
  {
    if !Sensitive(key) {
      AccountedThen(heap, |PlacesIn(Rec(fields))|, |Mentioned(v)|, seen, before.1, last.1, MarksUnder(before.0), Marks(last.0));
    }
    MarksMoreFields(before.0, OutField(key, last.0));
    PlacesOfFields(fields, key, v);
  }

  lemma AccountedNothing(heap: Heap, seen: set<Ref>)
    ensures Accounted(heap, 0, seen, seen, 0) && Accounted(heap, 1, seen, seen, 1)
    ensures PlacesIn(Arr([])) == {} && PlacesIn(Rec([])) == {}
  {
    assert seen - seen == {};
    assert Places(heap, {}) == {};
  }

  lemma {:induction false} RedactAccounts(heap: Heap, v: Value, seen: set<Ref>)
    requires Closed(heap) && Known(heap, v)
    ensures var r := Redact(heap, v, seen); Accounted(heap, |Mentioned(v)|, seen, r.1, Marks(r.0))
    decreases |Unseen(heap, seen)|, 1, 0
  {
    AccountedNothing(heap, seen);
    if v.Object? && v.ref !in seen {
      UnseenShrinks(heap, seen, v.ref);
      assert KnownObj(heap, heap[v.ref]);
      var r := Redact(heap, v, seen);
      match heap[v.ref]
      case Arr(items) =>
        ItemsAccount(heap, items, seen + {v.ref});
        AccountedObject(heap, v.ref, seen, r.1, Marks(r.0));
      case Rec(fields) =>
        FieldsAccount(heap, fields, seen + {v.ref});
        AccountedObject(heap, v.ref, seen, r.1, Marks(r.0));
    }
  }

  lemma {:induction false} ItemsAccount(heap: Heap, items: seq<Value>, seen: set<Ref>)
    requires Closed(heap) && forall i :: 0 <= i < |items| ==> Known(heap, items[i])
    ensures var r := RedactItems(heap, items, seen); Accounted(heap, |PlacesIn(Arr(items))|, seen, r.1, MarksIn(r.0))
    decreases |Unseen(heap, seen)|, 2, |items|
  {
    if items == [] {
      AccountedNothing(heap, seen);
    } else {
      var n := |items| - 1;
      var before := RedactItems(heap, items[..n], seen);
      UnseenFewer(heap, seen, before.1);
      ItemsAccount(heap, items[..n], seen);
      RedactAccounts(heap, items[n], before.1);
      var last := Redact(heap, items[n], before.1);
      assert RedactItems(heap, items, seen) == (before.0 + [last.0], last.1);
      assert items[..n] + [items[n]] == items;
      AccountedItem(heap, items[..n], items[n], seen, before, last);
    }
  }

  lemma {:induction false} FieldsAccount(heap: Heap, fields: seq<(string, Value)>, seen: set<Ref>)
    requires Closed(heap) && forall i :: 0 <= i < |fields| ==> Known(heap, fields[i].1)
    ensures var r := RedactFields(heap, fields, seen); Accounted(heap, |PlacesIn(Rec(fields))|, seen, r.1, MarksUnder(r.0))
    decreases |Unseen(heap, seen)|, 2, |fields|
  {
    if fields == [] {
      AccountedNothing(heap, seen);
    } else {
      var n := |fields| - 1;
      var (key, v) := fields[n];
      var before := RedactFields(heap, fields[..n], seen);
      UnseenFewer(heap, seen, before.1);
      FieldsAccount(heap, fields[..n], seen);
      assert fields[..n] + [(key, v)] == fields;
      if Sensitive(key) {
        AccountedField(heap, fields[..n], key, v, seen, before, (Redacted, before.1));
      } else {
        RedactAccounts(heap, v, before.1);
        AccountedField(heap, fields[..n], key, v, seen, before, Redact(heap, v, before.1));
      }
    }
  }

  /** The non-sensitive reach of a value: the least set that holds what it mentions and is closed under mentions. */
  ghost predicate IsReach(heap: Heap, v: Value, reach: set<Ref>) {
    && Mentioned(v) <= reach && ClosedUnderKids(heap, reach)
    && forall other :: ClosedUnderKids(heap, other) && Mentioned(v) <= other ==> reach <= other
  }

  lemma VisitedIsReach(heap: Heap, v: Value, reach: set<Ref>)
    requires Closed(heap) && Known(heap, v) && IsReach(heap, v, reach)
    ensures Redact(heap, v, {}).1 == reach && reach <= heap.Keys
  {
    ReachableExactlyOnce(heap, v, reach);
    RedactExplores(heap, v, {});
  }

  /** Markers count the mentions of reachable objects beyond the first, the mention by the caller included. */
  lemma MarksExact(heap: Heap, v: Value, reach: set<Ref>)
    requires Closed(heap) && Known(heap, v) && IsReach(heap, v, reach)
    ensures Marks(Redact(heap, v, {}).0) + |reach| == |Mentioned(v)| + |Places(heap, reach)|
  {
    VisitedIsReach(heap, v, reach);
    RedactAccounts(heap, v, {});
    assert reach - {} == reach;
  }

  predicate IsPlace(heap: Heap, p: (Ref, nat)) { p.0 in heap && Points(heap[p.0], p.1) }

  function TargetAt(heap: Heap, p: (Ref, nat)): Ref
    requires IsPlace(heap, p)
  {
    Target(heap[p.0], p.1)
  }

  ghost function Targets(heap: Heap, ps: set<(Ref, nat)>): set<Ref>
    requires forall p :: p in ps ==> IsPlace(heap, p)
  {
    set p | p in ps :: TargetAt(heap, p)
  }

  ghost predicate NoTwo(heap: Heap, ps: set<(Ref, nat)>)
    requires forall p :: p in ps ==> IsPlace(heap, p)
  {
    forall p, q :: p in ps && q in ps && TargetAt(heap, p) == TargetAt(heap, q) ==> p == q
  }

  /** No more targets than places, and as many exactly when no two places share one. */
  lemma {:induction false} TargetsCount(heap: Heap, ps: set<(Ref, nat)>)
    requires forall p :: p in ps ==> IsPlace(heap, p)
    ensures |Targets(heap, ps)| <= |ps|
    ensures |Targets(heap, ps)| == |ps| <==> NoTwo(heap, ps)
  {
    if ps != {} {
      var p :| p in ps;
      var rest := ps - {p};
      TargetsCount(heap, rest);
      assert Targets(heap, ps) == Targets(heap, rest) + {TargetAt(heap, p)};
      assert ps == rest + {p};
      if TargetAt(heap, p) in Targets(heap, rest) {
        var q :| q in rest && TargetAt(heap, q) == TargetAt(heap, p);
        assert Targets(heap, ps) == Targets(heap, rest);
      }
    }
  }

  /** The kids of an object are the targets of its places. */
  lemma {:induction false} KidsTargeted(o: Obj, x: Ref)
    ensures x in Kids(o) <==> exists i :: Points(o, i) && Target(o, i) == x
  {
    match o
    case Arr(items) => ItemTargeted(items, x);
    case Rec(fields) => FieldTargeted(fields, x);
  }

  lemma {:induction false} ItemTargeted(items: seq<Value>, x: Ref)
    ensures x in MentionedIn(items) <==> exists i :: Points(Arr(items), i) && Target(Arr(items), i) == x
  {
    if items != [] {
      var n, o := |items| - 1, Arr(items);
      var before := Arr(items[..n]);
      ItemTargeted(items[..n], x);
      forall i: nat | i < n ensures Points(before, i) <==> Points(o, i) {}
      if i: nat :| Points(before, i) && Target(before, i) == x {
        assert Points(o, i) && Target(o, i) == x;
      }
      if i: nat :| Points(o, i) && Target(o, i) == x {
        if i < n { assert Points(before, i) && Target(before, i) == x; }
      }
      assert Mentioned(items[n]) == {x} ==> Points(o, n) && Target(o, n) == x;
    }
  }

  lemma {:induction false} FieldTargeted(fields: seq<(string, Value)>, x: Ref)
    ensures x in MentionedUnder(fields) <==> exists i :: Points(Rec(fields), i) && Target(Rec(fields), i) == x
  {
    if fields != [] {
      var n, o := |fields| - 1, Rec(fields);
      var before := Rec(fields[..n]);
      FieldTargeted(fields[..n], x);
      forall i: nat | i < n ensures Points(before, i) <==> Points(o, i) {}
      if i: nat :| Points(before, i) && Target(before, i) == x {
        assert Points(o, i) && Target(o, i) == x;
      }
      if i: nat :| Points(o, i) && Target(o, i) == x {
        if i < n { assert Points(before, i) && Target(before, i) == x; }
      }
      assert !Sensitive(fields[n].0) && Mentioned(fields[n].1) == {x} ==> Points(o, n) && Target(o, n) == x;
    }
  }

  /** What is reachable is what is mentioned: by the caller or at a place of a reachable object. */
  lemma ReachIsMentioned(heap: Heap, v: Value, reach: set<Ref>)
    requires Closed(heap) && Known(heap, v) && IsReach(heap, v, reach)
    ensures reach == Targets(heap, Places(heap, reach)) + Mentioned(v)
  {
    VisitedIsReach(heap, v, reach);
    var ps := Places(heap, reach);
    var named := Targets(heap, ps) + Mentioned(v);
    forall x | x in Targets(heap, ps) ensures x in reach {
      var p :| p in ps && TargetAt(heap, p) == x;
      KidsTargeted(heap[p.0], x);
      assert x in Kids(heap[p.0]);
    }
    forall r | r in named && r in heap ensures Kids(heap[r]) <= named {
      forall x | x in Kids(heap[r]) ensures x in named {
        KidsTargeted(heap[r], x);
        var i: nat :| Points(heap[r], i) && Target(heap[r], i) == x;
        assert (r, i) in ps && TargetAt(heap, (r, i)) == x;
      }
    }
    assert ClosedUnderKids(heap, named);
  }

  /** Outside sensitive keys every reachable object is mentioned once, the mention by the caller included. */
  ghost predicate MentionedOnce(heap: Heap, v: Value, reach: set<Ref>) {
    && NoTwo(heap, Places(heap, reach))
    && Mentioned(v) !! Targets(heap, Places(heap, reach))
  }

  /**
   * When an output is free of circular markers: not if there is no cycle, as
   * the marker says, but if and only if no reachable object is mentioned twice
   * outside sensitive keys.
   */
  lemma NoMarksIff(heap: Heap, v: Value, reach: set<Ref>)
    requires Closed(heap) && Known(heap, v) && IsReach(heap, v, reach)
    ensures Marks(Redact(heap, v, {}).0) == 0 <==> MentionedOnce(heap, v, reach)
  {
    var ps := Places(heap, reach);
    var ts := Targets(heap, ps);
    MarksExact(heap, v, reach);
    ReachIsMentioned(heap, v, reach);
    TargetsCount(heap, ps);
    if Mentioned(v) !! ts {
      assert |ts + Mentioned(v)| == |ts| + |Mentioned(v)|;
    } else {
      assert ts + Mentioned(v) == ts;
    }
    if v.Plain? {
      assert ClosedUnderKids(heap, {});
      assert reach == {};
    }
  }

  // -------------------------------------------------- nothing sensitive gets out

  /** Under a sensitive key there is the marker and nothing else. */
  predicate Clean(o: Out) {
    match o
    case OutArr(items) => CleanItems(items)
    case OutRec(fields) => CleanFields(fields)
    case _ => true
  }

  predicate CleanItems(os: seq<Out>) {
    forall i :: 0 <= i < |os| ==> Clean(os[i])
  }

  predicate CleanFields(fs: seq<OutField>) {
    forall i :: 0 <= i < |fs| ==> Clean(fs[i].value) && (Sensitive(fs[i].key) ==> fs[i].value == Redacted)
  }

  lemma {:induction false} OutputClean(heap: Heap, v: Value, seen: set<Ref>)
    requires Closed(heap) && Known(heap, v)
    ensures Clean(Redact(heap, v, seen).0)
    decreases |Unseen(heap, seen)|, 1, 0
  {
    if v.Object? && v.ref !in seen {
      UnseenShrinks(heap, seen, v.ref);
      assert KnownObj(heap, heap[v.ref]);
      match heap[v.ref]
      case Arr(items) => ItemsClean(heap, items, seen + {v.ref});
      case Rec(fields) => FieldsClean(heap, fields, seen + {v.ref});
    }
  }

  lemma {:induction false} ItemsClean(heap: Heap, items: seq<Value>, seen: set<Ref>)
    requires Closed(heap) && forall i :: 0 <= i < |items| ==> Known(heap, items[i])
    ensures CleanItems(RedactItems(heap, items, seen).0)
    decreases |Unseen(heap, seen)|, 2, |items|
  {
    if items != [] {
      var n := |items| - 1;
      var before := RedactItems(heap, items[..n], seen);
      UnseenFewer(heap, seen, before.1);
      ItemsClean(heap, items[..n], seen);
      OutputClean(heap, items[n], before.1);
    }
  }

  lemma {:induction false} FieldsClean(heap: Heap, fields: seq<(string, Value)>, seen: set<Ref>)
    requires Closed(heap) && forall i :: 0 <= i < |fields| ==> Known(heap, fields[i].1)
    ensures CleanFields(RedactFields(heap, fields, seen).0)
    decreases |Unseen(heap, seen)|, 2, |fields|
  {
    if fields != [] {
      var n := |fields| - 1;
      var before := RedactFields(heap, fields[..n], seen);
      UnseenFewer(heap, seen, before.1);
      FieldsClean(heap, fields[..n], seen);
      if !Sensitive(fields[n].0) { OutputClean(heap, fields[n].1, before.1); }
    }
  }

  /** The same object but for what stands under sensitive keys. */
  ghost predicate SameButSecrets(o: Obj, p: Obj) {
    match (o, p)
    case (Arr(xs), Arr(ys)) => xs == ys
    case (Rec(fs), Rec(gs)) => SameFields(fs, gs)
    case _ => false
  }

  ghost predicate SameFields(fs: seq<(string, Value)>, gs: seq<(string, Value)>) {
    |fs| == |gs| && forall i :: 0 <= i < |fs| ==> fs[i].0 == gs[i].0 && (!Sensitive(fs[i].0) ==> fs[i].1 == gs[i].1)
  }

  ghost predicate Alike(heap: Heap, other: Heap) {
    heap.Keys == other.Keys && forall r :: r in heap ==> SameButSecrets(heap[r], other[r])
  }

  /** The output does not depend on anything stored under a sensitive key. */
  lemma {:induction false} SecretsDoNotShow(heap: Heap, other: Heap, v: Value, seen: set<Ref>)
    requires Closed(heap) && Closed(other) && Known(heap, v) && Known(other, v) && Alike(heap, other)
    ensures Redact(heap, v, seen) == Redact(other, v, seen)
    decreases |Unseen(heap, seen)|, 1, 0
  {
    if v.Object? && v.ref !in seen {
      UnseenShrinks(heap, seen, v.ref);
      assert KnownObj(heap, heap[v.ref]);
      assert SameButSecrets(heap[v.ref], other[v.ref]) && KnownObj(other, other[v.ref]);
      match heap[v.ref]
      case Arr(items) => SecretsNotInItems(heap, other, items, seen + {v.ref});
      case Rec(fields) => SecretsNotInFields(heap, other, fields, other[v.ref].fields, seen + {v.ref});
    }
  }

  lemma {:induction false} SecretsNotInItems(heap: Heap, other: Heap, items: seq<Value>, seen: set<Ref>)
    requires Closed(heap) && Closed(other) && Alike(heap, other)
    requires forall i :: 0 <= i < |items| ==> Known(heap, items[i]) && Known(other, items[i])
    ensures RedactItems(heap, items, seen) == RedactItems(other, items, seen)
    decreases |Unseen(heap, seen)|, 2, |items|
  {
    if items != [] {
      var n := |items| - 1;
      var before := RedactItems(heap, items[..n], seen);
      UnseenFewer(heap, seen, before.1);
      SecretsNotInItems(heap, other, items[..n], seen);
      SecretsDoNotShow(heap, other, items[n], before.1);
    }
  }

  lemma {:induction false} SecretsNotInFields(
      heap: Heap, other: Heap, fields: seq<(string, Value)>, others: seq<(string, Value)>, seen: set<Ref>)
    requires Closed(heap) && Closed(other) && Alike(heap, other) && SameFields(fields, others)
    requires forall i :: 0 <= i < |fields| ==> Known(heap, fields[i].1) && Known(other, others[i].1)
    ensures RedactFields(heap, fields, seen) == RedactFields(other, others, seen)
    decreases |Unseen(heap, seen)|, 2, |fields|
  {
    if fields != [] {
      var n := |fields| - 1;
      var before := RedactFields(heap, fields[..n], seen);
      UnseenFewer(heap, seen, before.1);
      SecretsNotInFields(heap, other, fields[..n], others[..n], seen);
      if !Sensitive(fields[n].0) { SecretsDoNotShow(heap, other, fields[n].1, before.1); }
    }
  }

  // --------------------------------------------------- values without sharing

  /** A value as a tree; each array and record carries its identity. */
  datatype Tree = Leaf(text: string) | ArrNode(ref: Ref, items: seq<Tree>) | RecNode(ref: Ref, fields: seq<TreeField>)

  datatype TreeField = TreeField(key: string, value: Tree)

  function ValueOf(t: Tree): Value { if t.Leaf? then Plain(t.text) else Object(t.ref) }

  function ItemValues(ts: seq<Tree>): seq<Value> {
    if ts == [] then [] else ItemValues(ts[..|ts| - 1]) + [ValueOf(ts[|ts| - 1])]
  }

  function FieldValues(fs: seq<TreeField>): seq<(string, Value)> {
    if fs == [] then [] else FieldValues(fs[..|fs| - 1]) + [(fs[|fs| - 1].key, ValueOf(fs[|fs| - 1].value))]
  }

  function Refs(t: Tree): set<Ref> {
    match t
    case Leaf(_) => {}
    case ArrNode(ref, items) => {ref} + ItemRefs(items)
    case RecNode(ref, fields) => {ref} + FieldRefs(fields)
  }

  function ItemRefs(ts: seq<Tree>): set<Ref> {
    if ts == [] then {} else ItemRefs(ts[..|ts| - 1]) + Refs(ts[|ts| - 1])
  }

  /** What stands under a sensitive key is not looked at. */
  function FieldRefs(fs: seq<TreeField>): set<Ref> {
    if fs == [] then {}
    else FieldRefs(fs[..|fs| - 1]) + if Sensitive(fs[|fs| - 1].key) then {} else Refs(fs[|fs| - 1].value)
  }

  /** The heap holds the tree, and no object occurs in it twice; what stands under a sensitive key may be anything. */
  ghost predicate Holds(heap: Heap, t: Tree) {
    match t
    case Leaf(_) => true
    case ArrNode(ref, items) => ref in heap && heap[ref] == Arr(ItemValues(items)) && ref !in ItemRefs(items) && HoldsItems(heap, items)
    case RecNode(ref, fields) => ref in heap && heap[ref] == Rec(FieldValues(fields)) && ref !in FieldRefs(fields) && HoldsFields(heap, fields)
  }

  ghost predicate HoldsItems(heap: Heap, ts: seq<Tree>) {
    ts == [] ||
    (HoldsItems(heap, ts[..|ts| - 1]) && Holds(heap, ts[|ts| - 1]) && ItemRefs(ts[..|ts| - 1]) !! Refs(ts[|ts| - 1]))
  }

  ghost predicate HoldsFields(heap: Heap, fs: seq<TreeField>) {
    fs == [] ||
    (HoldsFields(heap, fs[..|fs| - 1])
     && (Sensitive(fs[|fs| - 1].key) ||
         (Holds(heap, fs[|fs| - 1].value) && FieldRefs(fs[..|fs| - 1]) !! Refs(fs[|fs| - 1].value))))
  }

  /** Redaction as one would write it for trees. */
  function RedactTree(t: Tree): Out {
    match t
    case Leaf(text) => Same(text)
    case ArrNode(_, items) => OutArr(RedactTrees(items))
    case RecNode(_, fields) => OutRec(RedactTreeFields(fields))
  }

  function RedactTrees(ts: seq<Tree>): seq<Out> {
    if ts == [] then [] else RedactTrees(ts[..|ts| - 1]) + [RedactTree(ts[|ts| - 1])]
  }

  function RedactTreeFields(fs: seq<TreeField>): seq<OutField> {
    if fs == [] then []
    else
      var last := fs[|fs| - 1];
      RedactTreeFields(fs[..|fs| - 1]) + [OutField(last.key, if Sensitive(last.key) then Redacted else RedactTree(last.value))]
  }

  /** Without sharing nothing is taken for circular: every part outside sensitive keys comes out as it is. */
  lemma {:induction false} TreesKept(heap: Heap, t: Tree, seen: set<Ref>)
    requires Closed(heap) && Holds(heap, t) && seen !! Refs(t)
    ensures Known(heap, ValueOf(t))
    ensures var r := Redact(heap, ValueOf(t), seen); r.0 == RedactTree(t) && r.1 <= seen + Refs(t)
    decreases t
  {
    if !t.Leaf? {
      assert KnownObj(heap, heap[t.ref]);
    }
    match t
    case Leaf(_) =>
    case ArrNode(ref, items) => TreeItemsKept(heap, items, seen + {ref});
    case RecNode(ref, fields) => TreeFieldsKept(heap, fields, seen + {ref});
  }

  lemma {:induction false} TreeItemsKept(heap: Heap, ts: seq<Tree>, seen: set<Ref>)
    requires Closed(heap) && HoldsItems(heap, ts) && seen !! ItemRefs(ts)
    requires forall i :: 0 <= i < |ItemValues(ts)| ==> Known(heap, ItemValues(ts)[i])
    ensures var r := RedactItems(heap, ItemValues(ts), seen); r.0 == RedactTrees(ts) && r.1 <= seen + ItemRefs(ts)
    decreases ts
  {
    if ts != [] {
      var n, all := |ts| - 1, ItemValues(ts);
      var values := ItemValues(ts[..n]);
      assert all[..|values|] == values && all[|values|] == ValueOf(ts[n]);
      TreeItemsKept(heap, ts[..n], seen);
      TreesKept(heap, ts[n], RedactItems(heap, values, seen).1);
    }
  }

  lemma {:induction false} TreeFieldsKept(heap: Heap, fs: seq<TreeField>, seen: set<Ref>)
    requires Closed(heap) && HoldsFields(heap, fs) && seen !! FieldRefs(fs)
    requires forall i :: 0 <= i < |FieldValues(fs)| ==> Known(heap, FieldValues(fs)[i].1)
    ensures var r := RedactFields(heap, FieldValues(fs), seen); r.0 == RedactTreeFields(fs) && r.1 <= seen + FieldRefs(fs)
    decreases fs
  {
    if fs != [] {
      var n, all := |fs| - 1, FieldValues(fs);
      var values := FieldValues(fs[..n]);
      assert all[..|values|] == values && all[|values|] == (fs[n].key, ValueOf(fs[n].value));
      TreeFieldsKept(heap, fs[..n], seen);
      if !Sensitive(fs[n].key) {
        TreesKept(heap, fs[n].value, RedactFields(heap, values, seen).1);
      }
    }
  }

  /** An object met a second time is marked circular even when there is no cycle. */
  lemma SharedIsMarkedCircular(heap: Heap, a: Ref, b: Ref)
    requires Closed(heap) && a != b && a in heap && b in heap
    requires heap[a] == Arr([Object(b), Object(b)]) && heap[b] == Arr([])
    ensures Redact(heap, Object(a), {}).0 == OutArr([OutArr([]), Circular])
  {
    var items := [Object(b), Object(b)];
    assert KnownObj(heap, heap[a]) && Known(heap, items[0]);
    var none: seq<Value> := [];
    assert items[..1][..0] == none && items[..1][0] == Object(b);
    assert {} + {a} == {a};
    assert RedactItems(heap, none, {a}) == ([], {a});
    assert Redact(heap, Object(b), {a}) == (OutArr([]), {a} + {b});
    assert RedactItems(heap, items[..1], {a}) == ([] + [OutArr([])], {a} + {b});
    assert Redact(heap, Object(b), {a} + {b}).0 == Circular;
    assert RedactItems(heap, items, {a}).0 == [OutArr([])] + [Circular];
  }
}

/**
 * A strict reader of the layout of canonical JSON: no blanks, no trailing
 * commas, decimal integers without leading zeros.  The signer's printer
 * (src/installer/signing.ts) is held against it.
 */
module CanonicalReader {
  import opened CanonicalJson
  import opened CodeUnits
  import opened Wrappers

  const NULL: Text := [110, 117, 108, 108]
  const TRUE: Text := [116, 114, 117, 101]
  const FALSE: Text := [102, 97, 108, 115, 101]
  const UNDEFINED: Text := [117, 110, 100, 101, 102, 105, 110, 101, 100]

  predicate Starts(t: Text, prefix: Text) { |prefix| <= |t| && t[..|prefix|] == prefix }

  predicate Begins(t: Text, u: Unit) { t != [] && t[0] == u }

  /** The length of the run of digits at the start. */
  function Run(t: Text): (n: nat)
    ensures n <= |t|
  {
    if t == [] || !IsDigit(t[0]) then 0 else 1 + Run(t[1..])
  }

  function ReadNat(t: Text): (r: Option<(int, Text)>)
    ensures r.Some? ==> |r.value.1| < |t|
  {
    var n := Run(t);
    if n == 0 || (n > 1 && t[0] == 48) then None else Some((ReadDigits(t[..n]), t[n..]))
  }

  function ReadNum(t: Text): (r: Option<(Json, Text)>)
    ensures r.Some? ==> |r.value.1| < |t|
  {
    var negative := Begins(t, 45);
    var n := ReadNat(if negative then t[1..] else t);
    if n.None? || (negative && n.value.0 == 0) then None
    else Some((Num(if negative then -n.value.0 else n.value.0), n.value.1))
  }

  /** The value at the start of a text, and what follows it; fields in the order of the text. */
  function Read(t: Text): (r: Option<(Json, Text)>)
    ensures r.Some? ==> |r.value.1| < |t|
    decreases |t|, 0
  {
    if Starts(t, UNDEFINED) then Some((Undefined, t[9..]))
    else if Starts(t, NULL) then Some((Null, t[4..]))
    else if Starts(t, TRUE) then Some((Bool(true), t[4..]))
    else if Starts(t, FALSE) then Some((Bool(false), t[5..]))
    else if Begins(t, QUOTE) then
      var s := ReadString(t[1..]);
      if s.None? then None else Some((Str(s.value.0), s.value.1))
    else if Begins(t, 91) then
      var xs := ReadItems(t[1..], true);
      if xs.None? then None else Some((Arr(xs.value.0), xs.value.1))
    else if Begins(t, 123) then
      var es := ReadFields(t[1..], true);
      if es.None? then None else Some((Obj(es.value.0), es.value.1))
    else ReadNum(t)
  }

  /** The items of an array from after the opening bracket, or after an item. */
  function ReadItems(t: Text, first: bool): (r: Option<(seq<Json>, Text)>)
    ensures r.Some? ==> |r.value.1| < |t|
    decreases |t|, 1
  {
    if Begins(t, 93) then Some(([], t[1..]))
    else if !first && !Begins(t, COMMA) then None
    else
      var x := Read(if first then t else t[1..]);
      if x.None? then None
      else
        var xs := ReadItems(x.value.1, false);
        if xs.None? then None else Some(([x.value.0] + xs.value.0, xs.value.1))
  }

  function ReadField(t: Text): (r: Option<((Text, Json), Text)>)
    ensures r.Some? ==> |r.value.1| < |t|
    decreases |t|, 1
  {
    if !Begins(t, QUOTE) then None
    else
      var k := ReadString(t[1..]);
      if k.None? || !Begins(k.value.1, COLON) then None
      else
        var x := Read(k.value.1[1..]);
        if x.None? then None else Some(((k.value.0, x.value.0), x.value.1))
  }

  function ReadFields(t: Text, first: bool): (r: Option<(seq<(Text, Json)>, Text)>)
    ensures r.Some? ==> |r.value.1| < |t|
    decreases |t|, 2
  {
    if Begins(t, 125) then Some(([], t[1..]))
    else if !first && !Begins(t, COMMA) then None
    else
      var e := ReadField(if first then t else t[1..]);
      if e.None? then None
      else
        var es := ReadFields(e.value.1, false);
        if es.None? then None else Some(([e.value.0] + es.value.0, es.value.1))
  }

  /** Every object in it has its keys in ascending order of code units and no undefined field. */
  ghost predicate Ordered(v: Json) {
    match v
    case Arr(items) => forall i :: 0 <= i < |items| ==> Ordered(items[i])
    case Obj(fields) =>
      && Sorted(fields)
      && forall i :: 0 <= i < |fields| ==> fields[i].1 != Undefined && Ordered(fields[i].1)
    case _ => true
  }

  // ------------------------------------------------------------------ pieces

  lemma StartsOf(p: Text, r: Text)
    ensures Starts(p + r, p) && (p + r)[|p|..] == r
  {
  }

  lemma {:induction false} RunOf(x: Text, r: Text)
    requires (forall i :: 0 <= i < |x| ==> IsDigit(x[i])) && (r != [] ==> !IsDigit(r[0]))
    ensures Run(x + r) == |x|
  {
    if x == [] {
      assert x + r == r;
    } else {
      assert (x + r)[0] == x[0] && (x + r)[1..] == x[1..] + r;
      RunOf(x[1..], r);
    }
  }

  lemma NatReads(n: nat, r: Text)
    requires Delimited(r)
    ensures ReadNat(Digits(n) + r) == Some((n, r))
  {
    DigitsAreDigits(n);
    DigitsReadBack(n);
    RunOf(Digits(n), r);
    StartsOf(Digits(n), r);
    assert (Digits(n) + r)[0] == Digits(n)[0];
  }

  lemma NumReads(n: int, r: Text)
    requires Delimited(r)
    ensures ReadNum(PrintNum(n) + r) == Some((Num(n), r))
  {
    var m := if n < 0 then -n else n;
    NatReads(m, r);
    DigitFirst(m, r);
    if n < 0 {
      Prepend([45], Digits(m), r);
      AfterMinus(Digits(m) + r);
    }
  }

  lemma DigitFirst(m: nat, r: Text)
    ensures Digits(m) + r != [] && IsDigit((Digits(m) + r)[0])
  {
    DigitsAreDigits(m);
    assert (Digits(m) + r)[0] == Digits(m)[0];
  }

  lemma AfterMinus(t: Text)
    ensures Begins([45] + t, 45) && ([45] + t)[1..] == t
  {
  }

  /** The words are told apart by their first units. */
  lemma ByFirst(t: Text)
    requires t != []
    ensures Starts(t, UNDEFINED) ==> t[0] == 117
    ensures Starts(t, NULL) ==> t[0] == 110
    ensures Starts(t, TRUE) ==> t[0] == 116
    ensures Starts(t, FALSE) ==> t[0] == 102
  {
    forall p | Starts(t, p) && p != [] ensures p[0] == t[0] { assert t[..|p|][0] == t[0]; }
  }

  /** What the reader makes of one more item. */
  lemma ItemStep(t: Text, first: bool, body: Text)
    requires t == (if first then [] else [COMMA]) + body && body != [] && body[0] != 93
    ensures var x := Read(body);
            var xs := if x.None? then None else ReadItems(x.value.1, false);
            ReadItems(t, first) == if xs.None? then None else Some(([x.value.0] + xs.value.0, xs.value.1))
  {
    assert (if first then t else t[1..]) == body;
  }

  lemma FieldStep(t: Text, first: bool, body: Text)
    requires t == (if first then [] else [COMMA]) + body && body != [] && body[0] != 125
    ensures var e := ReadField(body);
            var es := if e.None? then None else ReadFields(e.value.1, false);
            ReadFields(t, first) == if es.None? then None else Some(([e.value.0] + es.value.0, es.value.1))
  {
    assert (if first then t else t[1..]) == body;
  }

  // ------------------------------------------------------------ main results

  /** What was read is `v` with its objects put in order. */
  ghost predicate ReadsAs(x: Option<(Json, Text)>, v: Json, r: Text) {
    x.Some? && x.value.1 == r && Meaning(x.value.0) == Meaning(v) && Ordered(x.value.0)
  }

  /**
   * The canonical text of a value is read back to its meaning, with the keys
   * in ascending order, and the reader stops where the value ends.
   */
  lemma {:induction false} CanonicalReadsBack(v: Json, r: Text)
    requires WellFormed(v) && Delimited(r)
    ensures ReadsAs(Read(Canonical(v) + r), v, r)
    decreases v, 2, 0
  {
    FirstUnit(v);
    assert (Canonical(v) + r)[0] == Canonical(v)[0];
    ByFirst(Canonical(v) + r);
    match v
    case Num(n) => NumReads(n, r);
    case Str(s) => StringReads(s, r);
    case Arr(items) => ArrayReadsBack(v, r);
    case Obj(fields) => ObjectReadsBack(v, r);
    case _ => StartsOf(Canonical(v), r);
  }

  lemma StringReads(s: Text, r: Text)
    ensures Read(Quote(s) + r) == Some((Str(s), r))
  {
    ByFirst(Quote(s) + r);
    KeyReads(s, r);
  }

  lemma ReadsBrackets(more: Text)
    ensures var xs := ReadItems(more, true);
            Read([91] + more) == if xs.None? then None else Some((Arr(xs.value.0), xs.value.1))
    ensures var es := ReadFields(more, true);
            Read([123] + more) == if es.None? then None else Some((Obj(es.value.0), es.value.1))
  {
    ByFirst([91] + more);
    ByFirst([123] + more);
    assert ([91] + more)[1..] == more && ([123] + more)[1..] == more;
  }

  lemma {:induction false} ArrayReadsBack(v: Json, r: Text)
    requires v.Arr? && WellFormed(v) && Delimited(r)
    ensures ReadsAs(Read(Canonical(v) + r), v, r)
    decreases v, 1, 0
  {
    var more := PrintItems(v, v.items, true) + r;
    Prepend([91], PrintItems(v, v.items, true), r);
    ReadsBrackets(more);
    ItemsReadBack(v, v.items, true, r);
    assert Meaning(Arr(ReadItems(more, true).value.0)).items == Meaning(v).items;
  }

  lemma {:induction false} ObjectReadsBack(v: Json, r: Text)
    requires v.Obj? && WellFormed(v) && Delimited(r)
    ensures ReadsAs(Read(Canonical(v) + r), v, r)
    decreases v, 1, 0
  {
    var es := SortByKey(Defined(v.fields));
    var more := PrintEntries(v, es, true) + r;
    ObjectHead(v, r);
    ReadsBrackets(more);
    EntriesOf(v);
    FieldsReadBack(v, es, true, r);
    FieldsInOrder(v, es, ReadFields(more, true).value.0);
    MeaningOfObject(v);
  }

  lemma FieldsInOrder(v: Json, es: seq<(Text, Json)>, fs: seq<(Text, Json)>)
    requires v.Obj? && Sorted(es) && forall e :: e in es ==> e in v.fields && e.1 != Undefined
    requires |es| == |fs| && forall i :: 0 <= i < |es| ==> SameField(fs[i], es[i])
    ensures Ordered(Obj(fs)) && MeaningOf(Obj(fs), fs) == MeaningOf(v, es)
  {
    forall i | 0 <= i < |fs| ensures fs[i].1 != Undefined && Ordered(fs[i].1) && fs[i].0 == es[i].0 {
      assert SameField(fs[i], es[i]) && es[i] in es;
    }
    SameMap(v, es, Obj(fs), fs);
  }

  lemma {:induction false} ItemsReadBack(v: Json, xs: seq<Json>, first: bool, r: Text)
    requires v.Arr? && WellFormed(v) && forall x :: x in xs ==> x in v.items
    ensures var ys := ReadItems(PrintItems(v, xs, first) + r, first);
            && ys.Some? && ys.value.1 == r && |ys.value.0| == |xs|
            && forall i :: 0 <= i < |xs| ==> Meaning(ys.value.0[i]) == Meaning(xs[i]) && Ordered(ys.value.0[i])
    decreases v, 0, |xs|
  {
    ItemsHead(v, xs, first, r);
    if xs == [] {
      assert ([93] + r)[1..] == r;
    } else {
      assert xs[0] in v.items;
      var more := PrintItems(v, xs[1..], false) + r;
      FirstOfItem(xs[0], more);
      ItemStep(PrintItems(v, xs, first) + r, first, Canonical(xs[0]) + more);
      ItemsDelimited(v, xs[1..], r);
      CanonicalReadsBack(xs[0], more);
      ItemsReadBack(v, xs[1..], false, r);
    }
  }

  lemma FirstOfItem(v: Json, more: Text)
    ensures Canonical(v) + more != [] && (Canonical(v) + more)[0] != 93
  {
    FirstUnit(v);
  }

  lemma {:induction false} FieldsReadBack(v: Json, es: seq<(Text, Json)>, first: bool, r: Text)
    requires v.Obj? && WellFormed(v) && forall e :: e in es ==> e in v.fields
    ensures var fs := ReadFields(PrintEntries(v, es, first) + r, first);
            && fs.Some? && fs.value.1 == r && |fs.value.0| == |es|
            && forall i :: 0 <= i < |es| ==> SameField(fs.value.0[i], es[i])
    decreases v, 0, |es|
  {
    EntriesHead(v, es, first, r);
    if es == [] {
      assert ([125] + r)[1..] == r;
    } else {
      assert es[0] in v.fields;
      var more := PrintEntries(v, es[1..], false) + r;
      assert (PrintField(es[0]) + more)[0] == QUOTE;
      FieldStep(PrintEntries(v, es, first) + r, first, PrintField(es[0]) + more);
      EntriesDelimited(v, es[1..], r);
      CanonicalReadsBack(es[0].1, more);
      FieldReads(es[0], more);
      FieldsReadBack(v, es[1..], false, r);
    }
  }

  ghost predicate SameField(f: (Text, Json), e: (Text, Json)) {
    f.0 == e.0 && Meaning(f.1) == Meaning(e.1) && Ordered(f.1)
  }

  lemma FieldReads(e: (Text, Json), r: Text)
    requires ReadsAs(Read(Canonical(e.1) + r), e.1, r)
    ensures var f := ReadField(PrintField(e) + r);
            f.Some? && f.value.1 == r && SameField(f.value.0, e)
  {
    var body := Canonical(e.1) + r;
    Regroup(Quote(e.0), [COLON], Canonical(e.1), r);
    KeyReads(e.0, [COLON] + body);
    StartsOf([COLON], body);
  }

  lemma KeyReads(k: Text, r: Text)
    ensures var t := Quote(k) + r;
            Begins(t, QUOTE) && ReadString(t[1..]) == Some((k, r))
  {
    assert Quote(k) + r == [QUOTE] + (PrintFrom(k, 0) + r);
    StartsOf([QUOTE], PrintFrom(k, 0) + r);
    QuoteReadsBack(k, 0, r);
    assert k[0..] == k;
  }

  lemma {:induction false} SameMap(v: Json, es: seq<(Text, Json)>, w: Json, fs: seq<(Text, Json)>)
    requires v.Obj? && w.Obj? && (forall e :: e in es ==> e in v.fields) && (forall f :: f in fs ==> f in w.fields)
    requires |es| == |fs| && forall i :: 0 <= i < |es| ==> SameField(fs[i], es[i])
    ensures MeaningOf(v, es) == MeaningOf(w, fs)
  {
    if es != [] {
      assert SameField(fs[0], es[0]);
      forall i | 0 <= i < |es[1..]| ensures SameField(fs[1..][i], es[1..][i]) { assert SameField(fs[i + 1], es[i + 1]); }
      SameMap(v, es[1..], w, fs[1..]);
    }
  }
}

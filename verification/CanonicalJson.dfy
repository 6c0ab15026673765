/**
 * Canonical JSON (src/installer/signing.ts): the text that release signatures
 * cover.  Strings are sequences of UTF-16 code units; escapes follow section 7
 * of RFC 8259, layout and key order sections 3.2.1 and 3.2.3 of RFC 8785.
 */
module CanonicalJson {
  import opened CodeUnits
  import opened Wrappers

  /** A value as the program holds it; an object's fields are in insertion order. */
  datatype Json =
    | Undefined
    | Null
    | Bool(b: bool)
    | Num(n: int)
    | Str(s: Text)
    | Arr(items: seq<Json>)
    | Obj(fields: seq<(Text, Json)>)

  /** The keys of an object are distinct. */
  ghost predicate WellFormed(v: Json) {
    match v
    case Arr(items) => forall i :: 0 <= i < |items| ==> WellFormed(items[i])
    case Obj(fields) =>
      && Distinct(fields)
      && forall i :: 0 <= i < |fields| ==> WellFormed(fields[i].1)
    case _ => true
  }

  function Defined(fields: seq<(Text, Json)>): (r: seq<(Text, Json)>)
    ensures forall x :: x in r <==> x in fields && x.1 != Undefined
  {
    if fields == [] then []
    else
      assert fields == [fields[0]] + fields[1..];
      (if fields[0].1 == Undefined then [] else [fields[0]]) + Defined(fields[1..])
  }

  // ---------------------------------------------------------------- strings

  const QUOTE: Unit := 34
  const BACKSLASH: Unit := 92
  const COMMA: Unit := 44
  const COLON: Unit := 58

  predicate High(u: Unit) { 0xD800 <= u < 0xDC00 }

  predicate Low(u: Unit) { 0xDC00 <= u < 0xE000 }

  /** A surrogate that has its other half next to it. */
  predicate Paired(s: Text, i: nat)
    requires i < |s|
  {
    || (High(s[i]) && i + 1 < |s| && Low(s[i + 1]))
    || (Low(s[i]) && i > 0 && High(s[i - 1]))
  }

  function Hex(d: int): Unit
    requires 0 <= d < 16
  {
    if d < 10 then 48 + d else 87 + d
  }

  function UnicodeEscape(u: Unit): Text {
    [BACKSLASH, 117, Hex(u / 16 / 16 / 16), Hex(u / 16 / 16 % 16), Hex(u / 16 % 16), Hex(u % 16)]
  }

  function PrintUnit(u: Unit, paired: bool): Text {
    if u == QUOTE || u == BACKSLASH then [BACKSLASH, u]
    else if u == 8 then [BACKSLASH, 98]
    else if u == 12 then [BACKSLASH, 102]
    else if u == 10 then [BACKSLASH, 110]
    else if u == 13 then [BACKSLASH, 114]
    else if u == 9 then [BACKSLASH, 116]
    else if u < 32 || ((High(u) || Low(u)) && !paired) then UnicodeEscape(u)
    else [u]
  }

  /** The units from `i` on, and the closing quote. */
  function PrintFrom(s: Text, i: nat): Text
    requires i <= |s|
    decreases |s| - i
  {
    if i == |s| then [QUOTE] else PrintUnit(s[i], Paired(s, i)) + PrintFrom(s, i + 1)
  }

  function Quote(s: Text): Text {
    [QUOTE] + PrintFrom(s, 0)
  }

  // ---------------------------------------------------------------- printing

  function Digits(n: nat): Text {
    if n < 10 then [48 + n] else Digits(n / 10) + [48 + n % 10]
  }

  function PrintNum(n: int): Text {
    if n < 0 then [45] + Digits(-n) else Digits(n)
  }

  function Canonical(v: Json): Text
    decreases v, 1, 0
  {
    match v
    case Undefined => [117, 110, 100, 101, 102, 105, 110, 101, 100]
    case Null => [110, 117, 108, 108]
    case Bool(b) => if b then [116, 114, 117, 101] else [102, 97, 108, 115, 101]
    case Num(n) => PrintNum(n)
    case Str(s) => Quote(s)
    case Arr(items) => [91] + PrintItems(v, items, true)
    case Obj(fields) => [123] + PrintEntries(v, SortByKey(Defined(fields)), true)
  }

  /** The items with commas between them, and the closing bracket. */
  function PrintItems(v: Json, items: seq<Json>, first: bool): Text
    requires v.Arr? && forall x :: x in items ==> x in v.items
    decreases v, 0, |items|
  {
    if items == [] then [93]
    else
      assert items[0] in v.items;
      (if first then [] else [COMMA]) + Canonical(items[0]) + PrintItems(v, items[1..], false)
  }

  function PrintEntries(v: Json, es: seq<(Text, Json)>, first: bool): Text
    requires v.Obj? && forall e :: e in es ==> e in v.fields
    decreases v, 0, |es|
  {
    if es == [] then [125]
    else
      assert es[0] in v.fields;
      (if first then [] else [COMMA]) + Quote(es[0].0) + [COLON] + Canonical(es[0].1) + PrintEntries(v, es[1..], false)
  }

  // ----------------------------------------------------------------- meaning

  /** What a value stands for: objects are finite maps without the undefined fields. */
  datatype Value =
    | VUndefined
    | VNull
    | VBool(b: bool)
    | VNum(n: int)
    | VStr(s: Text)
    | VArr(items: seq<Value>)
    | VObj(fields: map<Text, Value>)

  function Meaning(v: Json): Value
    decreases v, 1, 0
  {
    match v
    case Undefined => VUndefined
    case Null => VNull
    case Bool(b) => VBool(b)
    case Num(n) => VNum(n)
    case Str(s) => VStr(s)
    case Arr(items) => VArr(seq(|items|, i requires 0 <= i < |items| => Meaning(items[i])))
    case Obj(fields) => VObj(MeaningOf(v, fields))
  }

  function MeaningOf(v: Json, es: seq<(Text, Json)>): map<Text, Value>
    requires v.Obj? && forall e :: e in es ==> e in v.fields
    decreases v, 0, |es|
  {
    if es == [] then map[]
    else
      assert es[0] in v.fields;
      var rest := MeaningOf(v, es[1..]);
      if es[0].1 == Undefined then rest else rest[es[0].0 := Meaning(es[0].1)]
  }

  // ------------------------------------------------------- sorted field lists

  lemma {:induction false} DefinedDistinct(fields: seq<(Text, Json)>)
    requires Distinct(fields)
    ensures Distinct(Defined(fields))
  {
    if fields != [] {
      DefinedDistinct(fields[1..]);
      var r := Defined(fields);
      if fields[0].1 != Undefined {
        forall j | 0 < j < |r| ensures r[0].0 != r[j].0 {
          assert r[j] in Defined(fields[1..]);
        }
      }
    }
  }

  /** The entries printed for an object: sorted, distinct, defined, and fields of it. */
  lemma EntriesOf(v: Json)
    requires v.Obj? && Distinct(v.fields)
    ensures var es := SortByKey(Defined(v.fields));
            && Sorted(es) && Distinct(es)
            && (forall e :: e in es <==> e in v.fields && e.1 != Undefined)
  {
    DefinedDistinct(v.fields);
    SortSorts(Defined(v.fields));
    var es := SortByKey(Defined(v.fields));
    forall i, j | 0 <= i < j < |es| ensures es[i].0 != es[j].0 {
      LessTotal(es[i].0, es[i].0);
    }
  }

  /** The map of an entry list holds exactly its defined entries. */
  lemma {:induction false} MeaningOfEntries(v: Json, es: seq<(Text, Json)>)
    requires v.Obj? && Distinct(es) && forall e :: e in es ==> e in v.fields
    ensures forall e :: e in es && e.1 != Undefined ==> e.0 in MeaningOf(v, es) && MeaningOf(v, es)[e.0] == Meaning(e.1)
    ensures forall k :: k in MeaningOf(v, es) ==> exists i :: 0 <= i < |es| && es[i].0 == k && es[i].1 != Undefined
  {
    if es != [] {
      MeaningOfEntries(v, es[1..]);
      forall e | e in es && e.1 != Undefined
        ensures e.0 in MeaningOf(v, es) && MeaningOf(v, es)[e.0] == Meaning(e.1)
      {
        if e in es[1..] {
          var j :| 1 <= j < |es| && es[j] == e;
        }
      }
      forall k | k in MeaningOf(v, es)
        ensures exists i :: 0 <= i < |es| && es[i].0 == k && es[i].1 != Undefined
      {
        if k in MeaningOf(v, es[1..]) {
          var i :| 0 <= i < |es[1..]| && es[1..][i].0 == k && es[1..][i].1 != Undefined;
          assert es[i + 1].0 == k;
        } else {
          assert es[0].0 == k;
        }
      }
    }
  }

  lemma MeaningIncluded(v: Json, es: seq<(Text, Json)>, fs: seq<(Text, Json)>)
    requires v.Obj? && Distinct(es) && Distinct(fs)
    requires (forall e :: e in es ==> e in v.fields) && (forall f :: f in fs ==> f in v.fields)
    requires forall e :: e in es && e.1 != Undefined ==> e in fs
    ensures forall k :: k in MeaningOf(v, es) ==> k in MeaningOf(v, fs) && MeaningOf(v, es)[k] == MeaningOf(v, fs)[k]
  {
    MeaningOfEntries(v, es);
    MeaningOfEntries(v, fs);
    forall k | k in MeaningOf(v, es) ensures k in MeaningOf(v, fs) && MeaningOf(v, es)[k] == MeaningOf(v, fs)[k] {
      var i :| 0 <= i < |es| && es[i].0 == k && es[i].1 != Undefined;
      assert es[i] in es && es[i] in fs;
    }
  }

  /** Printing order and undefined fields do not matter to the meaning. */
  lemma MeaningOfObject(v: Json)
    requires v.Obj? && Distinct(v.fields)
    ensures MeaningOf(v, SortByKey(Defined(v.fields))) == MeaningOf(v, v.fields)
  {
    var es := SortByKey(Defined(v.fields));
    EntriesOf(v);
    MeaningIncluded(v, es, v.fields);
    MeaningIncluded(v, v.fields, es);
  }

  // ------------------------------------------------------- unambiguous pieces

  /** Nothing, or a text that starts with a comma or a closing bracket. */
  predicate Delimited(r: Text) {
    r == [] || r[0] == COMMA || r[0] == 93 || r[0] == 125
  }

  predicate IsDigit(u: Unit) { 48 <= u < 58 }

  lemma {:induction false} DigitsAreDigits(n: nat)
    ensures Digits(n) != [] && forall i :: 0 <= i < |Digits(n)| ==> IsDigit(Digits(n)[i])
  {
    if n >= 10 { DigitsAreDigits(n / 10); }
  }

  lemma {:induction false} DigitsInjective(m: nat, n: nat)
    requires Digits(m) == Digits(n)
    ensures m == n
  {
    DigitsAreDigits(m / 10);
    DigitsAreDigits(n / 10);
    assert Digits(m)[|Digits(m)| - 1] == 48 + m % 10;
    assert Digits(n)[|Digits(n)| - 1] == 48 + n % 10;
    if m >= 10 && n >= 10 {
      assert Digits(m)[..|Digits(m)| - 1] == Digits(m / 10);
      assert Digits(n)[..|Digits(n)| - 1] == Digits(n / 10);
      DigitsInjective(m / 10, n / 10);
    }
  }

  /** A run of digits that is followed by no digit ends where any other such run does. */
  lemma RunLength(x: Text, r: Text, y: Text, r': Text)
    requires forall i :: 0 <= i < |x| ==> IsDigit(x[i])
    requires Delimited(r') && x + r == y + r'
    ensures |x| <= |y|
  {
    assert forall k :: 0 <= k < |x| ==> (x + r)[k] == x[k];
    assert r' != [] ==> (y + r')[|y|] == r'[0];
    assert |x| + |r| == |x + r| == |y| + |r'|;
  }

  lemma DigitsUnambiguous(m: nat, n: nat, r: Text, r': Text)
    requires Delimited(r) && Delimited(r') && Digits(m) + r == Digits(n) + r'
    ensures m == n && r == r'
  {
    DigitsAreDigits(m);
    DigitsAreDigits(n);
    RunLength(Digits(m), r, Digits(n), r');
    RunLength(Digits(n), r', Digits(m), r);
    var x := |Digits(m)|;
    assert (Digits(m) + r)[..x] == Digits(m) && (Digits(n) + r')[..x] == Digits(n);
    assert (Digits(m) + r)[x..] == r && (Digits(n) + r')[x..] == r';
    DigitsInjective(m, n);
  }

  /** A printed unit is never cut short or continued by what follows it. */
  lemma UnitUnambiguous(u: Unit, paired: bool, v: Unit, paired': bool, r: Text, r': Text)
    requires PrintUnit(u, paired) + r == PrintUnit(v, paired') + r'
    ensures u == v && r == r'
  {
    var p, q := PrintUnit(u, paired), PrintUnit(v, paired');
    var all := p + r;
    assert all[0] == p[0] == q[0];
    if p[0] == BACKSLASH {
      assert all[1] == p[1] == q[1];
      assert |p| == |q|;
      if |p| == 6 {
        assert all[2] == p[2] == q[2] && all[3] == p[3] == q[3] && all[4] == p[4] == q[4] && all[5] == p[5] == q[5];
        HexInjective(u, v);
      }
    }
    assert |p| == |q|;
    assert all[|p|..] == r && all[|q|..] == r';
  }

  lemma HexInjective(u: Unit, v: Unit)
    requires UnicodeEscape(u) == UnicodeEscape(v)
    ensures u == v
  {
    var x, y := UnicodeEscape(u), UnicodeEscape(v);
    assert x[2] == y[2] && x[3] == y[3] && x[4] == y[4] && x[5] == y[5];
    Nibble(u / 16 / 16, v / 16 / 16);
    Nibble(u / 16, v / 16);
    Nibble(u, v);
  }

  lemma Nibble(u: nat, v: nat)
    requires u / 16 == v / 16 && u % 16 == v % 16
    ensures u == v
  {
  }

  lemma UnitIsNoQuote(u: Unit, paired: bool, r: Text, r': Text)
    ensures PrintUnit(u, paired) + r != [QUOTE] + r'
  {
    assert (PrintUnit(u, paired) + r)[0] != QUOTE;
  }

  lemma PrintFromUnit(s: Text, i: nat, r: Text)
    requires i < |s|
    ensures PrintFrom(s, i) + r == PrintUnit(s[i], Paired(s, i)) + (PrintFrom(s, i + 1) + r)
  {
  }

  lemma {:induction false} StringUnambiguous(s: Text, i: nat, t: Text, j: nat, r: Text, r': Text)
    requires i <= |s| && j <= |t|
    requires PrintFrom(s, i) + r == PrintFrom(t, j) + r'
    ensures s[i..] == t[j..] && r == r'
    decreases |s| - i
  {
    if i < |s| && j < |t| {
      PrintFromUnit(s, i, r);
      PrintFromUnit(t, j, r');
      UnitUnambiguous(s[i], Paired(s, i), t[j], Paired(t, j), PrintFrom(s, i + 1) + r, PrintFrom(t, j + 1) + r');
      StringUnambiguous(s, i + 1, t, j + 1, r, r');
    } else if i < |s| {
      PrintFromUnit(s, i, r);
      UnitIsNoQuote(s[i], Paired(s, i), PrintFrom(s, i + 1) + r, r');
    } else if j < |t| {
      PrintFromUnit(t, j, r');
      UnitIsNoQuote(t[j], Paired(t, j), PrintFrom(t, j + 1) + r', r);
    } else {
      assert ([QUOTE] + r)[1..] == r && ([QUOTE] + r')[1..] == r';
    }
  }

  lemma QuoteUnambiguous(s: Text, t: Text, r: Text, r': Text)
    requires Quote(s) + r == Quote(t) + r'
    ensures s == t && r == r'
  {
    assert (Quote(s) + r)[1..] == PrintFrom(s, 0) + r;
    assert (Quote(t) + r')[1..] == PrintFrom(t, 0) + r';
    StringUnambiguous(s, 0, t, 0, r, r');
    assert s[0..] == s && t[0..] == t;
  }

  // ------------------------------------------------------------ main results

  /** The first unit tells the kind of a value, and is no closing bracket. */
  lemma FirstUnit(v: Json)
    ensures Canonical(v) != []
    ensures var u := Canonical(v)[0];
            match v
            case Undefined => u == 117
            case Null => u == 110
            case Bool(b) => u == if b then 116 else 102
            case Num(_) => u == 45 || IsDigit(u)
            case Str(_) => u == QUOTE
            case Arr(_) => u == 91
            case Obj(_) => u == 123
  {
    if v.Num? {
      DigitsAreDigits(if v.n < 0 then -v.n else v.n);
    }
  }

  lemma ItemsDelimited(v: Json, items: seq<Json>, r: Text)
    requires v.Arr? && forall x :: x in items ==> x in v.items
    ensures Delimited(PrintItems(v, items, false) + r)
  {
  }

  lemma EntriesDelimited(v: Json, es: seq<(Text, Json)>, r: Text)
    requires v.Obj? && forall e :: e in es ==> e in v.fields
    ensures Delimited(PrintEntries(v, es, false) + r)
  {
  }

  lemma Regroup(a: Text, b: Text, c: Text, r: Text)
    ensures (a + b + c) + r == a + (b + (c + r))
  {
  }

  lemma ItemsHead(v: Json, items: seq<Json>, first: bool, r: Text)
    requires v.Arr? && forall x :: x in items ==> x in v.items
    ensures items == [] ==> PrintItems(v, items, first) == [93]
    ensures items != [] ==> PrintItems(v, items, first) != [] && PrintItems(v, items, first)[0] != 93
    ensures items != [] ==> PrintItems(v, items, first) + r
                            == (if first then [] else [COMMA]) + (Canonical(items[0]) + (PrintItems(v, items[1..], false) + r))
  {
    if items != [] {
      FirstUnit(items[0]);
      Regroup(if first then [] else [COMMA], Canonical(items[0]), PrintItems(v, items[1..], false), r);
    }
  }

  /** A field: key, colon, value. */
  function PrintField(e: (Text, Json)): Text {
    Quote(e.0) + [COLON] + Canonical(e.1)
  }

  lemma EntriesHead(v: Json, es: seq<(Text, Json)>, first: bool, r: Text)
    requires v.Obj? && forall e :: e in es ==> e in v.fields
    ensures es == [] ==> PrintEntries(v, es, first) == [125]
    ensures es != [] ==> PrintEntries(v, es, first) != [] && PrintEntries(v, es, first)[0] != 125
    ensures es != [] ==> PrintEntries(v, es, first) + r
                         == (if first then [] else [COMMA]) + (PrintField(es[0]) + (PrintEntries(v, es[1..], false) + r))
  {
    if es != [] {
      var sep := if first then [] else [COMMA];
      var rest := PrintEntries(v, es[1..], false);
      EntriesUnfold(v, es, first);
      Regroup(sep, PrintField(es[0]), rest, r);
    }
  }

  lemma EntriesUnfold(v: Json, es: seq<(Text, Json)>, first: bool)
    requires v.Obj? && es != [] && forall e :: e in es ==> e in v.fields
    ensures PrintEntries(v, es, first)
            == (if first then [] else [COMMA]) + PrintField(es[0]) + PrintEntries(v, es[1..], false)
  {
  }

  /** One text is the print of at most one meaning, and shows where it ends. */
  lemma {:induction false} Unambiguous(v: Json, w: Json, r: Text, r': Text)
    requires WellFormed(v) && WellFormed(w) && Delimited(r) && Delimited(r')
    requires Canonical(v) + r == Canonical(w) + r'
    ensures Meaning(v) == Meaning(w) && r == r'
    decreases v, 2, 0
  {
    FirstUnit(v);
    FirstUnit(w);
    assert (Canonical(v) + r)[0] == Canonical(v)[0] == Canonical(w)[0];
    match v
    case Num(n) => NumUnambiguous(n, w.n, r, r');
    case Str(s) => QuoteUnambiguous(s, w.s, r, r');
    case Arr(items) => ArrayUnambiguous(v, w, r, r');
    case Obj(fields) => ObjectUnambiguous(v, w, r, r');
    case _ => Cancel(Canonical(v), r, r');
  }

  lemma {:induction false} ArrayUnambiguous(v: Json, w: Json, r: Text, r': Text)
    requires v.Arr? && w.Arr? && WellFormed(v) && WellFormed(w)
    requires Canonical(v) + r == Canonical(w) + r'
    ensures Meaning(v) == Meaning(w) && r == r'
    decreases v, 1, 0
  {
    var more, more' := PrintItems(v, v.items, true) + r, PrintItems(w, w.items, true) + r';
    assert Canonical(v) + r == [91] + more && Canonical(w) + r' == [91] + more';
    Cancel([91], more, more');
    ItemsUnambiguous(v, v.items, w, w.items, true, r, r');
    assert Meaning(v).items == Meaning(w).items;
  }

  lemma ObjectHead(v: Json, r: Text)
    requires v.Obj?
    ensures Canonical(v) + r == [123] + (PrintEntries(v, SortByKey(Defined(v.fields)), true) + r)
  {
    Prepend([123], PrintEntries(v, SortByKey(Defined(v.fields)), true), r);
  }

  lemma Prepend(a: Text, b: Text, r: Text)
    ensures a + b + r == a + (b + r)
  {
  }

  lemma {:induction false} ObjectUnambiguous(v: Json, w: Json, r: Text, r': Text)
    requires v.Obj? && w.Obj? && WellFormed(v) && WellFormed(w)
    requires Canonical(v) + r == Canonical(w) + r'
    ensures Meaning(v) == Meaning(w) && r == r'
    decreases v, 1, 0
  {
    var es, fs := SortByKey(Defined(v.fields)), SortByKey(Defined(w.fields));
    var more, more' := PrintEntries(v, es, true) + r, PrintEntries(w, fs, true) + r';
    ObjectHead(v, r);
    ObjectHead(w, r');
    Cancel([123], more, more');
    EntriesOf(v);
    EntriesOf(w);
    EntriesUnambiguous(v, es, w, fs, true, r, r');
    MeaningOfObject(v);
    MeaningOfObject(w);
  }

  lemma NumUnambiguous(m: int, n: int, r: Text, r': Text)
    requires Delimited(r) && Delimited(r') && PrintNum(m) + r == PrintNum(n) + r'
    ensures m == n && r == r'
  {
    var a, b := if m < 0 then -m else m, if n < 0 then -n else n;
    DigitsAreDigits(a);
    DigitsAreDigits(b);
    SameSign(m, a, n, b, r, r');
    DigitsUnambiguous(a, b, r, r');
  }

  lemma SameSign(m: int, a: nat, n: int, b: nat, r: Text, r': Text)
    requires a == (if m < 0 then -m else m) && b == if n < 0 then -n else n
    requires Digits(a) != [] && IsDigit(Digits(a)[0]) && Digits(b) != [] && IsDigit(Digits(b)[0])
    requires PrintNum(m) + r == PrintNum(n) + r'
    ensures (m < 0 <==> n < 0) && Digits(a) + r == Digits(b) + r'
  {
    var x, y := Digits(a), Digits(b);
    assert PrintNum(m) == if m < 0 then [45] + x else x;
    assert PrintNum(n) == if n < 0 then [45] + y else y;
    assert (PrintNum(m) + r)[0] == PrintNum(m)[0] == PrintNum(n)[0];
    if m < 0 {
      assert PrintNum(m) + r == [45] + (x + r) && PrintNum(n) + r' == [45] + (y + r');
      Cancel([45], x + r, y + r');
    }
  }

  lemma {:induction false} ItemsUnambiguous(
    v: Json, xs: seq<Json>, w: Json, ys: seq<Json>, first: bool, r: Text, r': Text)
    requires v.Arr? && w.Arr? && WellFormed(v) && WellFormed(w)
    requires (forall x :: x in xs ==> x in v.items) && (forall y :: y in ys ==> y in w.items)
    requires PrintItems(v, xs, first) + r == PrintItems(w, ys, first) + r'
    ensures |xs| == |ys| && (forall i :: 0 <= i < |xs| ==> Meaning(xs[i]) == Meaning(ys[i])) && r == r'
    decreases v, 0, |xs|
  {
    ItemsHead(v, xs, first, r);
    ItemsHead(w, ys, first, r');
    SameStart(PrintItems(v, xs, first), r, PrintItems(w, ys, first), r');
    if xs == [] {
      Cancel([93], r, r');
    } else {
      assert xs[0] in v.items && ys[0] in w.items;
      var more, more' := PrintItems(v, xs[1..], false) + r, PrintItems(w, ys[1..], false) + r';
      Cancel(if first then [] else [COMMA], Canonical(xs[0]) + more, Canonical(ys[0]) + more');
      ItemsDelimited(v, xs[1..], r);
      ItemsDelimited(w, ys[1..], r');
      Unambiguous(xs[0], ys[0], more, more');
      ItemsUnambiguous(v, xs[1..], w, ys[1..], false, r, r');
      forall i | 0 <= i < |xs| ensures Meaning(xs[i]) == Meaning(ys[i]) {
        if i > 0 { assert xs[i] == xs[1..][i - 1] && ys[i] == ys[1..][i - 1]; }
      }
    }
  }

  lemma SameStart(a: Text, r: Text, b: Text, r': Text)
    requires a != [] && b != [] && a + r == b + r'
    ensures a[0] == b[0]
  {
    assert (a + r)[0] == a[0] && (b + r')[0] == b[0];
  }

  lemma {:induction false} EntriesUnambiguous(
    v: Json, es: seq<(Text, Json)>, w: Json, fs: seq<(Text, Json)>, first: bool, r: Text, r': Text)
    requires v.Obj? && w.Obj? && WellFormed(v) && WellFormed(w)
    requires (forall e :: e in es ==> e in v.fields && e.1 != Undefined)
    requires (forall f :: f in fs ==> f in w.fields && f.1 != Undefined)
    requires PrintEntries(v, es, first) + r == PrintEntries(w, fs, first) + r'
    ensures MeaningOf(v, es) == MeaningOf(w, fs) && r == r'
    decreases v, 0, |es|
  {
    EntriesHead(v, es, first, r);
    EntriesHead(w, fs, first, r');
    SameStart(PrintEntries(v, es, first), r, PrintEntries(w, fs, first), r');
    if es == [] {
      Cancel([125], r, r');
    } else {
      assert es[0] in v.fields && fs[0] in w.fields;
      var more, more' := PrintEntries(v, es[1..], false) + r, PrintEntries(w, fs[1..], false) + r';
      Cancel(if first then [] else [COMMA], PrintField(es[0]) + more, PrintField(fs[0]) + more');
      FieldKey(es[0], more, fs[0], more');
      EntriesDelimited(v, es[1..], r);
      EntriesDelimited(w, fs[1..], r');
      Unambiguous(es[0].1, fs[0].1, more, more');
      EntriesUnambiguous(v, es[1..], w, fs[1..], false, r, r');
    }
  }

  lemma FieldKey(e: (Text, Json), r: Text, f: (Text, Json), r': Text)
    requires PrintField(e) + r == PrintField(f) + r'
    ensures e.0 == f.0 && Canonical(e.1) + r == Canonical(f.1) + r'
  {
    var body, body' := Canonical(e.1) + r, Canonical(f.1) + r';
    Regroup(Quote(e.0), [COLON], Canonical(e.1), r);
    Regroup(Quote(f.0), [COLON], Canonical(f.1), r');
    QuoteUnambiguous(e.0, f.0, [COLON] + body, [COLON] + body');
    Cancel([COLON], body, body');
  }

  // ------------------------------------------------------ equal meanings print alike

  lemma {:induction false} MeaningPrints(v: Json, w: Json)
    requires WellFormed(v) && WellFormed(w) && Meaning(v) == Meaning(w)
    ensures Canonical(v) == Canonical(w)
    decreases v, 1, 0
  {
    match v
    case Arr(items) =>
      assert |items| == |Meaning(v).items| == |w.items|;
      forall i | 0 <= i < |items| ensures Meaning(items[i]) == Meaning(w.items[i]) {
        assert Meaning(v).items[i] == Meaning(w).items[i];
      }
      ItemsPrint(v, items, w, w.items, true);
    case Obj(fields) =>
      var es, fs := SortByKey(Defined(fields)), SortByKey(Defined(w.fields));
      EntriesOf(v);
      EntriesOf(w);
      MeaningOfObject(v);
      MeaningOfObject(w);
      EntriesPrint(v, es, w, fs, true);
    case _ =>
  }

  lemma {:induction false} ItemsPrint(v: Json, xs: seq<Json>, w: Json, ys: seq<Json>, first: bool)
    requires v.Arr? && w.Arr? && WellFormed(v) && WellFormed(w)
    requires (forall x :: x in xs ==> x in v.items) && (forall y :: y in ys ==> y in w.items)
    requires |xs| == |ys| && forall i :: 0 <= i < |xs| ==> Meaning(xs[i]) == Meaning(ys[i])
    ensures PrintItems(v, xs, first) == PrintItems(w, ys, first)
    decreases v, 0, |xs|
  {
    if xs != [] {
      assert xs[0] in v.items && ys[0] in w.items;
      MeaningPrints(xs[0], ys[0]);
      ItemsPrint(v, xs[1..], w, ys[1..], false);
    }
  }

  lemma RestLarger(v: Json, es: seq<(Text, Json)>)
    requires v.Obj? && es != [] && Sorted(es) && Distinct(es)
    requires forall e :: e in es ==> e in v.fields
    ensures forall k :: k in MeaningOf(v, es[1..]) ==> k != es[0].0 && Less(es[0].0, k)
  {
    MeaningOfEntries(v, es[1..]);
    forall k | k in MeaningOf(v, es[1..]) ensures k != es[0].0 && Less(es[0].0, k) {
      var i :| 0 <= i < |es[1..]| && es[1..][i].0 == k;
      assert es[i + 1].0 == k;
    }
  }

  /** What `MeaningOfEntries` gives, with the first entry apart. */
  lemma FirstEntry(v: Json, es: seq<(Text, Json)>)
    requires v.Obj? && es != [] && Sorted(es) && Distinct(es)
    requires forall e :: e in es ==> e in v.fields && e.1 != Undefined
    ensures es[0].0 in MeaningOf(v, es) && MeaningOf(v, es)[es[0].0] == Meaning(es[0].1)
    ensures MeaningOf(v, es[1..]) == MeaningOf(v, es) - {es[0].0}
    ensures forall k :: k in MeaningOf(v, es) ==> k == es[0].0 || Less(es[0].0, k)
  {
    assert es[0] in es;
    RestLarger(v, es);
    PutFresh(MeaningOf(v, es[1..]), es[0].0, Meaning(es[0].1));
  }

  lemma PutFresh(m: map<Text, Value>, k: Text, x: Value)
    requires k !in m
    ensures m[k := x] - {k} == m
  {
  }

  /** Two sorted entry lists with the same map start with the same key, the smallest. */
  lemma SameFirstKey(v: Json, es: seq<(Text, Json)>, w: Json, fs: seq<(Text, Json)>)
    requires v.Obj? && w.Obj? && Sorted(es) && Sorted(fs) && Distinct(es) && Distinct(fs)
    requires (forall e :: e in es ==> e in v.fields && e.1 != Undefined)
    requires (forall f :: f in fs ==> f in w.fields && f.1 != Undefined)
    requires MeaningOf(v, es) == MeaningOf(w, fs) && es != []
    ensures fs != [] && es[0].0 == fs[0].0 && Meaning(es[0].1) == Meaning(fs[0].1)
    ensures MeaningOf(v, es[1..]) == MeaningOf(w, fs[1..])
  {
    FirstEntry(v, es);
    if fs != [] {
      FirstEntry(w, fs);
      LessTotal(es[0].0, fs[0].0);
    }
  }

  lemma {:induction false} EntriesPrint(v: Json, es: seq<(Text, Json)>, w: Json, fs: seq<(Text, Json)>, first: bool)
    requires v.Obj? && w.Obj? && WellFormed(v) && WellFormed(w)
    requires Sorted(es) && Sorted(fs) && Distinct(es) && Distinct(fs)
    requires (forall e :: e in es ==> e in v.fields && e.1 != Undefined)
    requires (forall f :: f in fs ==> f in w.fields && f.1 != Undefined)
    requires MeaningOf(v, es) == MeaningOf(w, fs)
    ensures PrintEntries(v, es, first) == PrintEntries(w, fs, first)
    decreases v, 0, |es|
  {
    if es == [] {
      if fs != [] {
        SameFirstKey(w, fs, v, es);
      }
    } else {
      SameFirstKey(v, es, w, fs);
      assert es[0] in v.fields && fs[0] in w.fields;
      MeaningPrints(es[0].1, fs[0].1);
      EntriesPrint(v, es[1..], w, fs[1..], false);
    }
  }

  /**
   * Two values have the same canonical text if and only if they mean the
   * same: insertion order and undefined fields do not show, everything else does.
   */
  lemma CanonicalIff(v: Json, w: Json)
    requires WellFormed(v) && WellFormed(w)
    ensures Canonical(v) == Canonical(w) <==> Meaning(v) == Meaning(w)
  {
    if Canonical(v) == Canonical(w) {
      Unambiguous(v, w, [], []);
    } else if Meaning(v) == Meaning(w) {
      MeaningPrints(v, w);
    }
  }

  // ------------------------------------------------- reading strings and numbers back

  function HexValue(u: Unit): Option<int> {
    if 48 <= u < 58 then Some(u - 48) else if 97 <= u < 103 then Some(u - 87)
    else if 65 <= u < 71 then Some(u - 55) else None
  }

  function ReadHex(t: Text): Option<Unit>
    requires |t| == 4
  {
    var a, b, c, d := HexValue(t[0]), HexValue(t[1]), HexValue(t[2]), HexValue(t[3]);
    if a.None? || b.None? || c.None? || d.None? then None
    else
      var u := ((a.value * 16 + b.value) * 16 + c.value) * 16 + d.value;
      if 0 <= u < 0x10000 then Some(u) else None
  }

  /** The one-letter escapes of section 7 of RFC 8259. */
  function Escaped(u: Unit): Option<Unit> {
    if u == QUOTE || u == BACKSLASH || u == 47 then Some(u)
    else if u == 98 then Some(8) else if u == 102 then Some(12) else if u == 110 then Some(10)
    else if u == 114 then Some(13) else if u == 116 then Some(9) else None
  }

  function Cons(u: Unit, rest: Option<(Text, Text)>): Option<(Text, Text)> {
    if rest.None? then None else Some(([u] + rest.value.0, rest.value.1))
  }

  /** A reader of string literals from after the opening quote: the string, and what follows it. */
  function ReadString(t: Text): (r: Option<(Text, Text)>)
    ensures r.Some? ==> |r.value.1| < |t|
    decreases |t|
  {
    if t == [] then None
    else if t[0] == QUOTE then Some(([], t[1..]))
    else if t[0] == BACKSLASH then
      if |t| < 2 then None
      else if t[1] == 117 then
        if |t| < 6 || ReadHex(t[2..6]).None? then None else Cons(ReadHex(t[2..6]).value, ReadString(t[6..]))
      else if Escaped(t[1]).None? then None
      else Cons(Escaped(t[1]).value, ReadString(t[2..]))
    else if t[0] < 32 then None
    else Cons(t[0], ReadString(t[1..]))
  }

  lemma ReadUnit(u: Unit, paired: bool, rest: Text)
    ensures ReadString(PrintUnit(u, paired) + rest) == Cons(u, ReadString(rest))
  {
    var p := PrintUnit(u, paired);
    var t := p + rest;
    assert t[|p|..] == rest;
    if |p| == 6 {
      assert t[2..6] == [Hex(u / 16 / 16 / 16), Hex(u / 16 / 16 % 16), Hex(u / 16 % 16), Hex(u % 16)];
      Assemble(u);
      assert t[0] == BACKSLASH && t[1] == 117;
    } else if |p| == 2 {
      assert t[0] == p[0] && t[1] == p[1];
    } else {
      assert t[0] == p[0];
    }
  }

  lemma Assemble(u: Unit)
    ensures ReadHex([Hex(u / 16 / 16 / 16), Hex(u / 16 / 16 % 16), Hex(u / 16 % 16), Hex(u % 16)]) == Some(u)
  {
  }

  /** A JSON reader gets every string back from its print, surrogates included, and stops at its end. */
  lemma {:induction false} QuoteReadsBack(s: Text, i: nat, r: Text)
    requires i <= |s|
    ensures ReadString(PrintFrom(s, i) + r) == Some((s[i..], r))
    decreases |s| - i
  {
    if i < |s| {
      QuoteReadsBack(s, i + 1, r);
      PrintFromUnit(s, i, r);
      ReadUnit(s[i], Paired(s, i), PrintFrom(s, i + 1) + r);
      assert s[i..] == [s[i]] + s[i + 1..];
    } else {
      assert s[i..] == [] && ([QUOTE] + r)[1..] == r;
    }
  }

  /**
   * A unit stands for itself exactly when it may; of the escapes the short
   * one is used where there is one, and else lower-case hexadecimal.
   */
  lemma EscapeForm(u: Unit, paired: bool)
    ensures var p := PrintUnit(u, paired);
            && (p == [u] <==> u >= 32 && u != QUOTE && u != BACKSLASH && (0xD800 <= u < 0xE000 ==> paired))
            && (|p| == 2 <==> u in {8, 9, 10, 12, 13, QUOTE as int, BACKSLASH as int})
            && (|p| == 2 ==> p[0] == BACKSLASH && p[1] != 47 && Escaped(p[1]) == Some(u))
            && (p != [u] && |p| != 2 ==>
                  && |p| == 6 && p[..2] == [BACKSLASH, 117] && ReadHex(p[2..]) == Some(u)
                  && forall k :: 2 <= k < 6 ==> !(65 <= p[k] < 71))
  {
    var p := PrintUnit(u, paired);
    if |p| == 6 {
      assert p[2..] == [Hex(u / 16 / 16 / 16), Hex(u / 16 / 16 % 16), Hex(u / 16 % 16), Hex(u % 16)];
      Assemble(u);
    }
  }

  /** Code point by code point: a surrogate pair as it is, any other unit escaped where it must be. */
  function PrintPoints(s: Text): Text {
    if s == [] then [QUOTE]
    else if 0xD800 <= s[0] < 0xDC00 && |s| > 1 && 0xDC00 <= s[1] < 0xE000 then [s[0]] + ([s[1]] + PrintPoints(s[2..]))
    else PrintUnit(s[0], false) + PrintPoints(s[1..])
  }

  /** Looking at both neighbours of a unit finds the pairs that a scan by code points finds. */
  lemma {:induction false} PointsPrint(s: Text, i: nat)
    requires i <= |s| && (0 < i < |s| ==> !(High(s[i - 1]) && Low(s[i])))
    ensures PrintFrom(s, i) == PrintPoints(s[i..])
    decreases |s| - i
  {
    if i < |s| {
      var rest := s[i..];
      assert rest[1..] == s[i + 1..];
      if i + 1 < |s| && High(s[i]) && Low(s[i + 1]) {
        assert rest[2..] == s[i + 2..];
        PointsPrint(s, i + 2);
        assert PrintUnit(s[i], true) == [s[i]] && PrintUnit(s[i + 1], true) == [s[i + 1]];
      } else {
        PointsPrint(s, i + 1);
        assert !Paired(s, i);
      }
    }
  }

  function ReadDigits(t: Text): int {
    if t == [] then 0 else 10 * ReadDigits(t[..|t| - 1]) + (t[|t| - 1] as int - 48)
  }

  /** The digits of a number are its decimal notation, without a leading zero. */
  lemma {:induction false} DigitsReadBack(n: nat)
    ensures ReadDigits(Digits(n)) == n && (n > 0 ==> Digits(n)[0] != 48)
  {
    DigitsAreDigits(n);
    if n >= 10 {
      DigitsReadBack(n / 10);
      DigitsAreDigits(n / 10);
      assert Digits(n)[..|Digits(n)| - 1] == Digits(n / 10);
    } else {
      assert Digits(n)[..0] == [];
    }
  }
}

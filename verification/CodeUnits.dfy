/**
 * JavaScript strings as sequences of UTF-16 code units, their order, and the
 * sorting of keyed lists by it.
 */
module CodeUnits {

  type Unit = u: int | 0 <= u < 0x10000

  type Text = seq<Unit>

  /** JavaScript's `<` on strings: by code units, a proper prefix first. */
  predicate Less(a: Text, b: Text) {
    if b == [] then false
    else if a == [] then true
    else a[0] < b[0] || (a[0] == b[0] && Less(a[1..], b[1..]))
  }

  /** One text is the smaller if it ends, or has the smaller unit, where they part. */
  ghost predicate PartsAt(a: Text, b: Text, k: nat) {
    k <= |a| && k < |b| && a[..k] == b[..k] && (k == |a| || a[k] < b[k])
  }

  lemma {:induction false} LessIff(a: Text, b: Text)
    ensures Less(a, b) <==> exists k: nat :: PartsAt(a, b, k)
    decreases |a|
  {
    if a == [] {
      assert b != [] ==> PartsAt(a, b, 0);
    } else if b != [] {
      LessIff(a[1..], b[1..]);
      if Less(a, b) {
        if a[0] == b[0] {
          var k: nat :| PartsAt(a[1..], b[1..], k);
          assert a[..k + 1] == [a[0]] + a[1..][..k] && b[..k + 1] == [b[0]] + b[1..][..k];
          assert PartsAt(a, b, k + 1);
        } else {
          assert PartsAt(a, b, 0);
        }
      }
      if k: nat :| PartsAt(a, b, k) {
        if k > 0 {
          assert a[..k][0] == b[..k][0];
          assert a[..k][1..] == a[1..][..k - 1] && b[..k][1..] == b[1..][..k - 1];
          assert PartsAt(a[1..], b[1..], k - 1);
        }
      }
    }
  }

  lemma {:induction false} LessTotal(a: Text, b: Text)
    ensures Less(a, b) || Less(b, a) || a == b
    ensures !(Less(a, b) && Less(b, a)) && !Less(a, a)
    decreases |a|
  {
    if a != [] && b != [] {
      LessTotal(a[1..], b[1..]);
      LessTotal(a[1..], a[1..]);
      if a[0] == b[0] && a[1..] == b[1..] {
        assert a == [a[0]] + a[1..] == b;
      }
    } else if a != [] {
      LessTotal(a[1..], a[1..]);
    }
  }

  lemma {:induction false} LessTransitive(a: Text, b: Text, c: Text)
    requires Less(a, b) && Less(b, c)
    ensures Less(a, c)
    decreases |a|
  {
    if a != [] && a[0] == b[0] && b[0] == c[0] {
      LessTransitive(a[1..], b[1..], c[1..]);
    }
  }

  ghost predicate Distinct<T>(es: seq<(Text, T)>) {
    forall i, j :: 0 <= i < j < |es| ==> es[i].0 != es[j].0
  }

  ghost predicate Sorted<T>(es: seq<(Text, T)>) {
    forall i, j :: 0 <= i < j < |es| ==> Less(es[i].0, es[j].0)
  }

  function Insert<T(!new)>(e: (Text, T), es: seq<(Text, T)>): (r: seq<(Text, T)>)
    ensures |r| == |es| + 1
    ensures forall x :: x in r <==> x == e || x in es
  {
    if es == [] then [e]
    else if Less(e.0, es[0].0) then [e] + es
    else [es[0]] + Insert(e, es[1..])
  }

  function SortByKey<T(!new)>(es: seq<(Text, T)>): (r: seq<(Text, T)>)
    ensures |r| == |es|
    ensures forall x :: x in r <==> x in es
  {
    if es == [] then []
    else
      assert es == es[..|es| - 1] + [es[|es| - 1]];
      Insert(es[|es| - 1], SortByKey(es[..|es| - 1]))
  }

  lemma {:induction false} InsertSorted<T(!new)>(e: (Text, T), es: seq<(Text, T)>)
    requires Sorted(es) && forall x :: x in es ==> x.0 != e.0
    ensures Sorted(Insert(e, es))
  {
    if es != [] {
      LessTotal(e.0, es[0].0);
      var r := Insert(e, es);
      if Less(e.0, es[0].0) {
        forall j | 0 < j < |r| ensures Less(r[0].0, r[j].0) {
          if j > 1 { LessTransitive(e.0, es[0].0, es[j - 1].0); }
        }
      } else {
        InsertSorted(e, es[1..]);
        assert es[0] in es;
        forall j | 0 < j < |r| ensures Less(r[0].0, r[j].0) {
          assert r[j] in Insert(e, es[1..]);
        }
      }
    }
  }

  lemma {:induction false} SortSorts<T(!new)>(es: seq<(Text, T)>)
    requires Distinct(es)
    ensures Sorted(SortByKey(es))
  {
    if es != [] {
      var n := |es| - 1;
      SortSorts(es[..n]);
      InsertSorted(es[n], SortByKey(es[..n]));
    }
  }

  /** Two sorted lists of the same entries are the same list. */
  lemma {:induction false} SortedSame<T(!new)>(es: seq<(Text, T)>, fs: seq<(Text, T)>)
    requires Sorted(es) && Sorted(fs) && forall e :: e in es <==> e in fs
    ensures es == fs
  {
    assert es != [] ==> es[0] in fs;
    assert fs != [] ==> fs[0] in es;
    if es != [] {
      LessTotal(es[0].0, fs[0].0);
      assert es[0] == fs[0];
      forall e ensures e in es[1..] <==> e in fs[1..] {
        LessTotal(es[0].0, es[0].0);
        assert e in es <==> e in fs;
      }
      SortedSame(es[1..], fs[1..]);
    }
  }

  // ------------------------------------------------------------- separators

  lemma Cancel(a: Text, b: Text, c: Text)
    requires a + b == a + c
    ensures b == c
  {
    assert (a + b)[|a|..] == b && (a + c)[|a|..] == c;
  }

  /** The place of the first separator, or the length. */
  function First(t: Text, sep: Unit): (k: nat)
    ensures k <= |t| && (k < |t| ==> t[k] == sep)
  {
    if t == [] || t[0] == sep then 0 else 1 + First(t[1..], sep)
  }

  /** The parts between separators; one more than there are separators. */
  function Split(t: Text, sep: Unit): seq<Text> {
    var k := First(t, sep);
    if k == |t| then [t] else [t[..k]] + Split(t[k + 1..], sep)
  }

  lemma {:induction false} FirstOf(a: Text, sep: Unit, x: Text)
    requires sep !in a
    ensures First(a + [sep] + x, sep) == |a|
  {
    if a != [] {
      assert (a + [sep] + x)[1..] == a[1..] + [sep] + x;
      FirstOf(a[1..], sep, x);
    }
  }

  lemma {:induction false} FirstNone(t: Text, sep: Unit)
    requires sep !in t
    ensures First(t, sep) == |t|
  {
    if t != [] { FirstNone(t[1..], sep); }
  }

  lemma SplitHead(a: Text, sep: Unit, x: Text)
    requires sep !in a
    ensures Split(a, sep) == [a] && Split(a + [sep] + x, sep) == [a] + Split(x, sep)
  {
    FirstNone(a, sep);
    FirstOf(a, sep, x);
    var t := a + [sep] + x;
    assert t[..|a|] == a && t[|a| + 1..] == x;
  }

  /** Two texts without the separator, each followed by one, end at the same place. */
  lemma SplitAtFirst(sep: Unit, a: Text, x: Text, b: Text, y: Text)
    requires sep !in a && sep !in b
    requires a + [sep] + x == b + [sep] + y
    ensures a == b && x == y
  {
    var t := a + [sep] + x;
    assert t[|a|] == sep && t[|b|] == sep;
    assert forall i :: 0 <= i < |a| ==> t[i] == a[i];
    assert forall i :: 0 <= i < |b| ==> t[i] == b[i];
    assert t[..|a|] == a && t[..|b|] == b;
    Cancel(a + [sep], x, y);
  }
}

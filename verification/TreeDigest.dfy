/**
 * The byte stream behind the digest of an unpacked release tree
 * (src/installer/acquire.ts): sorted walk, paths and digests separated by NUL.
 */
module TreeDigest {
  import opened CodeUnits
  import opened Wrappers

  /** A file is given by the hexadecimal digest of its contents; `Special` is any other entry. */
  datatype Node =
    | File(digest: Text)
    | Link(target: Text)
    | Dir(entries: seq<(Text, Node)>)  // in the order of `readdir`
    | Special

  type Path = seq<Text>

  datatype Leaf = FileLeaf(digest: Text) | LinkLeaf(target: Text)

  datatype Error = AbsoluteLink | SpecialFile

  const NUL: Unit := 0
  const SLASH: Unit := 47
  const LINK_PREFIX: Text := [108, 105, 110, 107, 58]

  /** The relative path: components with slashes between them. */
  function Join(p: Path): Text {
    if p == [] then []
    else if |p| == 1 then p[0]
    else Join(p[..|p| - 1]) + [SLASH] + p[|p| - 1]
  }

  predicate IsLetter(u: Unit) { 65 <= u <= 90 || 97 <= u <= 122 }

  /** A POSIX or a Windows absolute path. */
  predicate Absolute(target: Text) {
    (|target| >= 1 && target[0] == SLASH) || (|target| >= 2 && IsLetter(target[0]) && target[1] == 58)
  }

  /** Why an entry is refused, if it is. */
  function Refusal(n: Node): Option<Error> {
    match n
    case Link(target) => if Absolute(target) then Some(AbsoluteLink) else None
    case Special => Some(SpecialFile)
    case _ => None
  }

  // -------------------------------------------------------------------- walk

  function Then(first: Result<seq<(Path, Leaf)>, Error>, rest: Result<seq<(Path, Leaf)>, Error>): Result<seq<(Path, Leaf)>, Error> {
    if first.Err? then first else if rest.Err? then rest else Ok(first.value + rest.value)
  }

  lemma ThenUnit(r: Result<seq<(Path, Leaf)>, Error>)
    ensures Then(Ok([]), r) == r && Then(r, Ok([])) == r
  {
    assert r.Ok? ==> [] + r.value == r.value && r.value + [] == r.value;
  }

  lemma ThenAssoc(a: seq<(Path, Leaf)>, b: seq<(Path, Leaf)>, r: Result<seq<(Path, Leaf)>, Error>)
    ensures Then(Ok(a), Then(Ok(b), r)) == Then(Ok(a + b), r)
  {
    assert r.Ok? ==> a + (b + r.value) == a + b + r.value;
  }

  function WalkDir(d: Node, path: Path, exclude: seq<Text>): Result<seq<(Path, Leaf)>, Error>
    requires d.Dir?
    decreases d, 1, 0
  {
    WalkEntries(d, SortByKey(d.entries), path, exclude)
  }

  /** The entries of one directory, in sorted order; the first refused one ends the walk. */
  function WalkEntries(d: Node, es: seq<(Text, Node)>, path: Path, exclude: seq<Text>): Result<seq<(Path, Leaf)>, Error>
    requires d.Dir? && forall e :: e in es ==> e in d.entries
    decreases d, 0, |es|
  {
    if es == [] then Ok([])
    else
      assert es[0] in d.entries;
      Then(WalkEntry(d, es[0], path, exclude), WalkEntries(d, es[1..], path, exclude))
  }

  function WalkEntry(d: Node, e: (Text, Node), path: Path, exclude: seq<Text>): Result<seq<(Path, Leaf)>, Error>
    requires d.Dir? && e in d.entries
    decreases d, 0, 0
  {
    var here := path + [e.0];
    if Join(here) in exclude then Ok([])
    else if Refusal(e.1).Some? then Err(Refusal(e.1).value)
    else
      match e.1
      case Link(target) => Ok([(here, LinkLeaf(target))])
      case Dir(_) => WalkDir(e.1, here, exclude)
      case File(digest) => Ok([(here, FileLeaf(digest))])
  }

  // ------------------------------------------------------------------ stream

  function DigestText(l: Leaf): Text {
    match l
    case FileLeaf(digest) => digest
    case LinkLeaf(target) => LINK_PREFIX + target
  }

  /** What is fed to the hash for one entry. */
  function Token(e: (Path, Leaf)): Text {
    Join(e.0) + [NUL] + (DigestText(e.1) + [NUL])
  }

  function Stream(es: seq<(Path, Leaf)>): Text {
    if es == [] then [] else Token(es[0]) + Stream(es[1..])
  }

  function TreeStream(root: Node, exclude: seq<Text>): Result<Text, Error>
    requires root.Dir?
  {
    var walk := WalkDir(root, [], exclude);
    if walk.Err? then Err(walk.error) else Ok(Stream(walk.value))
  }

  // ------------------------------------------------------------ well-formedness

  predicate GoodName(n: Text) {
    n != [] && NUL !in n && SLASH !in n
  }

  predicate IsHex(u: Unit) { 48 <= u < 58 || 97 <= u < 103 }

  /** What a file system guarantees about names and targets; file digests are hexadecimal. */
  ghost predicate WellFormed(n: Node) {
    match n
    case File(digest) => digest != [] && forall i :: 0 <= i < |digest| ==> IsHex(digest[i])
    case Link(target) => NUL !in target
    case Dir(entries) =>
      && Distinct(entries)
      && forall i :: 0 <= i < |entries| ==> GoodName(entries[i].0) && WellFormed(entries[i].1)
    case Special => true
  }

  // --------------------------------------------------------------- reference

  /** The entry with a given name; the order of the entries does not matter. */
  ghost predicate Has(d: Node, name: Text, n: Node) {
    d.Dir? && (name, n) in d.entries
  }

  /** `n` is found under `d` by following names, with no excluded entry on the way. */
  ghost predicate Visible(d: Node, path: Path, exclude: seq<Text>, sub: Path, n: Node)
    decreases |sub|
  {
    && sub != []
    && Join(path + [sub[0]]) !in exclude
    && if |sub| == 1 then Has(d, sub[0], n)
       else exists child :: Has(d, sub[0], child) && child.Dir? && Visible(child, path + [sub[0]], exclude, sub[1..], n)
  }

  function LeafOf(n: Node): Option<Leaf> {
    match n
    case File(digest) => Some(FileLeaf(digest))
    case Link(target) => Some(LinkLeaf(target))
    case _ => None
  }

  /** The tree as a relation from paths to leaves: what the digest is meant to pin down. */
  ghost predicate HasLeaf(d: Node, path: Path, exclude: seq<Text>, sub: Path, leaf: Leaf) {
    exists n :: Visible(d, path, exclude, sub, n) && LeafOf(n) == Some(leaf)
  }

  // --------------------------------------------------------- the imperative walk

  /** The recursive loop of the program: names sorted, entries pushed one by one. */
  method TreeFileDigests(d: Node, path: Path, exclude: seq<Text>) returns (r: Result<seq<(Path, Leaf)>, Error>)
    requires d.Dir?
    ensures r == WalkDir(d, path, exclude)
    decreases d
  {
    var names := SortByKey(d.entries);
    var entries: seq<(Path, Leaf)> := [];
    var i := 0;
    assert names[0..] == names;
    ThenUnit(WalkDir(d, path, exclude));
    while i < |names|
      invariant i <= |names|
      invariant forall e :: e in names ==> e in d.entries
      invariant WalkDir(d, path, exclude) == Then(Ok(entries), WalkEntries(d, names[i..], path, exclude))
    {
      var (name, node) := names[i];
      assert names[i] in d.entries;
      assert names[i..][0] == names[i] && names[i..][1..] == names[i + 1..];
      var here := path + [name];
      ghost var rest := WalkEntries(d, names[i + 1..], path, exclude);
      ghost var before := entries;
      assert WalkDir(d, path, exclude) == Then(Ok(before), Then(WalkEntry(d, names[i], path, exclude), rest));
      i := i + 1;
      if Join(here) in exclude {
        ThenUnit(rest);
        continue;
      }
      match node
      case Link(target) =>
        if Absolute(target) { return Err(AbsoluteLink); }
        entries := entries + [(here, LinkLeaf(target))];
        ThenAssoc(before, [(here, LinkLeaf(target))], rest);
      case Dir(_) =>
        var below := TreeFileDigests(node, here, exclude);
        if below.Err? { return below; }
        entries := entries + below.value;
        ThenAssoc(before, below.value, rest);
      case Special =>
        return Err(SpecialFile);
      case File(digest) =>
        entries := entries + [(here, FileLeaf(digest))];
        ThenAssoc(before, [(here, FileLeaf(digest))], rest);
    }
    assert names[i..] == [];
    ThenUnit(Ok(entries));
    r := Ok(entries);
  }

  /** Feeds the hash; `fed` is all that it was given. */
  method TreeDigestExcluding(root: Node, exclude: seq<Text>) returns (fed: Result<Text, Error>)
    requires root.Dir?
    ensures fed == TreeStream(root, exclude)
  {
    var walk := TreeFileDigests(root, [], exclude);
    if walk.Err? { return Err(walk.error); }
    var entries, text, i := walk.value, [], 0;
    assert entries[0..] == entries;
    while i < |entries|
      invariant i <= |entries|
      invariant text + Stream(entries[i..]) == Stream(entries)
    {
      assert entries[i..][0] == entries[i] && entries[i..][1..] == entries[i + 1..];
      text := text + Token(entries[i]);
      i := i + 1;
    }
    assert entries[i..] == [] && text + [] == text;
    fed := Ok(text);
  }

  // ------------------------------------------------------ order of the walk

  /** Component by component, as the walk goes down the tree. */
  predicate PathLess(p: Path, q: Path) {
    if q == [] then false
    else if p == [] then true
    else Less(p[0], q[0]) || (p[0] == q[0] && PathLess(p[1..], q[1..]))
  }

  lemma {:induction false} PathTotal(p: Path, q: Path)
    ensures PathLess(p, q) || PathLess(q, p) || p == q
    ensures !(PathLess(p, q) && PathLess(q, p)) && !PathLess(p, p)
    decreases |p|
  {
    if p != [] {
      LessTotal(p[0], p[0]);
      PathTotal(p[1..], p[1..]);
      if q != [] {
        LessTotal(p[0], q[0]);
        PathTotal(p[1..], q[1..]);
        if p[0] == q[0] && p[1..] == q[1..] {
          assert p == [p[0]] + p[1..] == q;
        }
      }
    }
  }

  /** Where two paths first differ decides. */
  lemma {:induction false} PathLessAt(prefix: Path, p: Path, q: Path)
    requires p != [] && q != [] && Less(p[0], q[0])
    ensures PathLess(prefix + p, prefix + q)
  {
    if prefix == [] {
      assert prefix + p == p && prefix + q == q;
    } else {
      PathLessAt(prefix[1..], p, q);
      assert (prefix + p)[1..] == prefix[1..] + p && (prefix + q)[1..] == prefix[1..] + q;
    }
  }

  ghost predicate SortedPaths(es: seq<(Path, Leaf)>) {
    forall i, j :: 0 <= i < j < |es| ==> PathLess(es[i].0, es[j].0)
  }

  /** Two sorted lists of the same entries are the same list. */
  lemma {:induction false} SortedUnique(es: seq<(Path, Leaf)>, fs: seq<(Path, Leaf)>)
    requires SortedPaths(es) && SortedPaths(fs) && forall e :: e in es <==> e in fs
    ensures es == fs
  {
    assert es != [] ==> es[0] in fs;
    assert fs != [] ==> fs[0] in es;
    if es != [] {
      PathTotal(es[0].0, fs[0].0);
      assert es[0] == fs[0];
      forall e ensures e in es[1..] <==> e in fs[1..] {
        PathTotal(es[0].0, es[0].0);
        assert e in es <==> e in fs;
      }
      SortedUnique(es[1..], fs[1..]);
    }
  }

  // ------------------------------------------------- the walk lists the leaves

  function Names(es: seq<(Text, Node)>): set<Text> {
    set e | e in es :: e.0
  }

  /** `list` holds exactly the leaves of `d` whose first component is among `names`. */
  ghost predicate ExactFor(list: seq<(Path, Leaf)>, d: Node, path: Path, exclude: seq<Text>, names: set<Text>) {
    && (forall e :: e in list ==>
          && |e.0| > |path| && e.0[..|path|] == path && e.0[|path|] in names
          && HasLeaf(d, path, exclude, e.0[|path|..], e.1))
    && (forall sub: Path, leaf :: sub != [] && sub[0] in names && HasLeaf(d, path, exclude, sub, leaf) ==>
          (path + sub, leaf) in list)
  }

  ghost predicate NothingRefused(d: Node, path: Path, exclude: seq<Text>, names: set<Text>) {
    forall sub: Path, n :: sub != [] && sub[0] in names && Visible(d, path, exclude, sub, n) ==> Refusal(n).None?
  }

  ghost predicate SomethingRefused(d: Node, path: Path, exclude: seq<Text>) {
    exists sub, n :: Visible(d, path, exclude, sub, n) && Refusal(n).Some?
  }

  ghost predicate RefusedAt(d: Node, path: Path, exclude: seq<Text>, sub: Path, e: Error) {
    exists n :: Visible(d, path, exclude, sub, n) && Refusal(n) == Some(e)
  }

  /** Among the entries under `names`, `e` is the refusal of the one that comes first in the tree. */
  ghost predicate FirstRefused(d: Node, path: Path, exclude: seq<Text>, names: set<Text>, e: Error) {
    exists sub: Path :: FirstAt(d, path, exclude, names, sub, e)
  }

  ghost predicate FirstAt(d: Node, path: Path, exclude: seq<Text>, names: set<Text>, sub: Path, e: Error) {
    && sub != [] && sub[0] in names && RefusedAt(d, path, exclude, sub, e)
    && forall sub': Path, e' :: sub' != [] && sub'[0] in names && RefusedAt(d, path, exclude, sub', e') ==> !PathLess(sub', sub)
  }

  /** What is refused: a link to an absolute POSIX path or to a Windows drive, and a special file. */
  lemma RefusalIff(n: Node)
    ensures Refusal(n) == Some(AbsoluteLink) <==>
              n.Link? && ((exists rest :: n.target == [47] + rest)
                          || exists u: Unit, rest :: (65 <= u <= 90 || 97 <= u <= 122) && n.target == [u] + ([58] + rest))
    ensures Refusal(n) == Some(SpecialFile) <==> n == Special
  {
    if n.Link? && Absolute(n.target) {
      if n.target[0] == 47 {
        assert n.target == [47] + n.target[1..];
      } else {
        assert n.target == [n.target[0]] + ([58] + n.target[2..]);
      }
    }
  }

  /** A walk gives exactly the leaves, in order, or stops at the first visible entry that is refused. */
  ghost predicate WalkRight(walk: Result<seq<(Path, Leaf)>, Error>, d: Node, path: Path, exclude: seq<Text>, names: set<Text>) {
    && (walk.Ok? ==> SortedPaths(walk.value) && ExactFor(walk.value, d, path, exclude, names)
                     && NothingRefused(d, path, exclude, names))
    && (walk.Err? ==> FirstRefused(d, path, exclude, names, walk.error))
  }

  /** In a directory with distinct names a name has one entry. */
  lemma OneEntry(d: Node, name: Text, m: Node, n: Node)
    requires d.Dir? && Distinct(d.entries) && Has(d, name, m) && Has(d, name, n)
    ensures m == n
  {
    var i :| 0 <= i < |d.entries| && d.entries[i] == (name, m);
    var j :| 0 <= j < |d.entries| && d.entries[j] == (name, n);
  }

  lemma {:induction false} DirExact(d: Node, path: Path, exclude: seq<Text>)
    requires d.Dir? && WellFormed(d)
    ensures WalkRight(WalkDir(d, path, exclude), d, path, exclude, Names(d.entries))
    decreases d, 1, 0
  {
    SortSorts(d.entries);
    var es := SortByKey(d.entries);
    assert Names(es) == Names(d.entries);
    EntriesExact(d, es, path, exclude);
  }

  lemma {:induction false} EntriesExact(d: Node, es: seq<(Text, Node)>, path: Path, exclude: seq<Text>)
    requires d.Dir? && WellFormed(d) && Sorted(es) && forall e :: e in es ==> e in d.entries
    ensures WalkRight(WalkEntries(d, es, path, exclude), d, path, exclude, Names(es))
    decreases d, 0, |es|
  {
    if es != [] {
      assert es[0] in d.entries;
      EntryExact(d, es[0], path, exclude);
      EntriesExact(d, es[1..], path, exclude);
      var first, rest := WalkEntry(d, es[0], path, exclude), WalkEntries(d, es[1..], path, exclude);
      assert Names(es) == {es[0].0} + Names(es[1..]);
      if first.Err? {
        RefusedFirst(first.error, d, es, path, exclude);
      } else if rest.Err? {
        RefusedLater(rest.error, d, es, path, exclude);
      } else {
        Combine(first.value, rest.value, d, es, path, exclude);
      }
    }
  }

  lemma RefusedFirst(e: Error, d: Node, es: seq<(Text, Node)>, path: Path, exclude: seq<Text>)
    requires es != [] && Sorted(es) && FirstRefused(d, path, exclude, {es[0].0}, e)
    ensures FirstRefused(d, path, exclude, {es[0].0} + Names(es[1..]), e)
  {
    var sub: Path :| FirstAt(d, path, exclude, {es[0].0}, sub, e);
    forall sub': Path, e' | sub' != [] && sub'[0] in Names(es[1..]) && RefusedAt(d, path, exclude, sub', e')
      ensures !PathLess(sub', sub)
    {
      var i :| 0 <= i < |es[1..]| && es[1..][i].0 == sub'[0];
      assert Less(es[0].0, es[i + 1].0);
      LessTotal(es[0].0, sub'[0]);
    }
    assert FirstAt(d, path, exclude, {es[0].0} + Names(es[1..]), sub, e);
  }

  lemma RefusedLater(e: Error, d: Node, es: seq<(Text, Node)>, path: Path, exclude: seq<Text>)
    requires es != [] && NothingRefused(d, path, exclude, {es[0].0}) && FirstRefused(d, path, exclude, Names(es[1..]), e)
    ensures FirstRefused(d, path, exclude, {es[0].0} + Names(es[1..]), e)
  {
    var sub: Path :| FirstAt(d, path, exclude, Names(es[1..]), sub, e);
    assert FirstAt(d, path, exclude, {es[0].0} + Names(es[1..]), sub, e);
  }

  lemma Combine(first: seq<(Path, Leaf)>, rest: seq<(Path, Leaf)>, d: Node, es: seq<(Text, Node)>, path: Path, exclude: seq<Text>)
    requires es != [] && Sorted(es) && SortedPaths(first) && SortedPaths(rest)
    requires ExactFor(first, d, path, exclude, {es[0].0}) && ExactFor(rest, d, path, exclude, Names(es[1..]))
    ensures SortedPaths(first + rest) && ExactFor(first + rest, d, path, exclude, {es[0].0} + Names(es[1..]))
  {
    forall e, f | e in first && f in rest ensures PathLess(e.0, f.0) {
      var name := f.0[|path|];
      var i :| 0 <= i < |es[1..]| && es[1..][i].0 == name;
      assert Less(es[0].0, es[i + 1].0);
      assert e.0 == path + e.0[|path|..] && f.0 == path + f.0[|path|..];
      PathLessAt(path, e.0[|path|..], f.0[|path|..]);
    }
    var both := first + rest;
    forall i, j | 0 <= i < j < |both| ensures PathLess(both[i].0, both[j].0) {
      if i < |first| <= j {
        assert both[i] in first && both[j] in rest;
      }
    }
  }

  lemma {:induction false} EntryExact(d: Node, e: (Text, Node), path: Path, exclude: seq<Text>)
    requires d.Dir? && WellFormed(d) && e in d.entries
    ensures WalkRight(WalkEntry(d, e, path, exclude), d, path, exclude, {e.0})
    decreases d, 0, 0
  {
    var here := path + [e.0];
    assert Has(d, e.0, e.1);
    forall m | Has(d, e.0, m) ensures m == e.1 { OneEntry(d, e.0, m, e.1); }
    if Join(here) in exclude {
    } else if Refusal(e.1).Some? {
      assert Visible(d, path, exclude, [e.0], e.1);
      assert RefusedAt(d, path, exclude, [e.0], Refusal(e.1).value);
      PathTotal([e.0], [e.0]);
      forall sub: Path, e' | sub != [] && sub[0] == e.0 && RefusedAt(d, path, exclude, sub, e') ensures sub == [e.0] {
      }
      assert FirstAt(d, path, exclude, {e.0}, [e.0], Refusal(e.1).value);
    } else if e.1.Dir? {
      DirExact(e.1, here, exclude);
      BelowEntry(WalkDir(e.1, here, exclude), d, e, path, exclude);
    } else {
      var leaf := LeafOf(e.1).value;
      assert Visible(d, path, exclude, [e.0], e.1);
      assert here[|path|..] == [e.0] && here[..|path|] == path;
      forall sub: Path, n | sub != [] && sub[0] == e.0 && Visible(d, path, exclude, sub, n) ensures sub == [e.0] && n == e.1 {
      }
    }
  }

  /** What is visible through a subdirectory is what is visible in it. */
  lemma ThroughDir(d: Node, e: (Text, Node), path: Path, exclude: seq<Text>, sub: Path, n: Node)
    requires d.Dir? && Distinct(d.entries) && e in d.entries && e.1.Dir? && Join(path + [e.0]) !in exclude
    requires sub != [] && sub[0] == e.0
    ensures Visible(d, path, exclude, sub, n) <==>
            if |sub| == 1 then n == e.1 else Visible(e.1, path + [e.0], exclude, sub[1..], n)
  {
    assert Has(d, e.0, e.1);
    forall m | Has(d, e.0, m) ensures m == e.1 { OneEntry(d, e.0, m, e.1); }
  }

  lemma BelowEntry(walk: Result<seq<(Path, Leaf)>, Error>, d: Node, e: (Text, Node), path: Path, exclude: seq<Text>)
    requires d.Dir? && Distinct(d.entries) && e in d.entries && e.1.Dir? && Join(path + [e.0]) !in exclude
    requires WalkRight(walk, e.1, path + [e.0], exclude, Names(e.1.entries))
    ensures WalkRight(walk, d, path, exclude, {e.0})
  {
    if walk.Err? {
      RefusedBelow(walk.error, d, e, path, exclude);
    } else {
      NothingBelow(d, e, path, exclude);
      LeavesBelow(walk.value, d, e, path, exclude);
    }
  }

  lemma NothingBelow(d: Node, e: (Text, Node), path: Path, exclude: seq<Text>)
    requires d.Dir? && Distinct(d.entries) && e in d.entries && e.1.Dir? && Join(path + [e.0]) !in exclude
    requires NothingRefused(e.1, path + [e.0], exclude, Names(e.1.entries))
    ensures NothingRefused(d, path, exclude, {e.0})
  {
    forall sub: Path, n | sub != [] && sub[0] == e.0 && Visible(d, path, exclude, sub, n) ensures Refusal(n).None? {
      ThroughDir(d, e, path, exclude, sub, n);
      if |sub| > 1 { VisibleName(e.1, path + [e.0], exclude, sub[1..], n); }
    }
  }

  lemma LeavesBelow(list: seq<(Path, Leaf)>, d: Node, e: (Text, Node), path: Path, exclude: seq<Text>)
    requires d.Dir? && Distinct(d.entries) && e in d.entries && e.1.Dir? && Join(path + [e.0]) !in exclude
    requires ExactFor(list, e.1, path + [e.0], exclude, Names(e.1.entries))
    ensures ExactFor(list, d, path, exclude, {e.0})
  {
    var here := path + [e.0];
    forall x | x in list
      ensures |x.0| > |path| && x.0[..|path|] == path && x.0[|path|] == e.0 && HasLeaf(d, path, exclude, x.0[|path|..], x.1)
    {
      var below := x.0[|here|..];
      LeafOutward(d, e, path, exclude, below, x.1);
      assert x.0 == here + below;
      assert x.0[|path|..] == [e.0] + below;
    }
    forall sub: Path, leaf | sub != [] && sub[0] == e.0 && HasLeaf(d, path, exclude, sub, leaf)
      ensures (path + sub, leaf) in list
    {
      LeafInward(d, e, path, exclude, sub, leaf);
      assert here + sub[1..] == path + sub;
    }
  }

  lemma RefusedBelow(x: Error, d: Node, e: (Text, Node), path: Path, exclude: seq<Text>)
    requires d.Dir? && Distinct(d.entries) && e in d.entries && e.1.Dir? && Join(path + [e.0]) !in exclude
    requires FirstRefused(e.1, path + [e.0], exclude, Names(e.1.entries), x)
    ensures FirstRefused(d, path, exclude, {e.0}, x)
  {
    var here := path + [e.0];
    var sub: Path :| FirstAt(e.1, here, exclude, Names(e.1.entries), sub, x);
    var n :| Visible(e.1, here, exclude, sub, n) && Refusal(n) == Some(x);
    ThroughDir(d, e, path, exclude, [e.0] + sub, n);
    assert ([e.0] + sub)[1..] == sub;
    assert RefusedAt(d, path, exclude, [e.0] + sub, x);
    forall sub': Path, x' | sub' != [] && sub'[0] == e.0 && RefusedAt(d, path, exclude, sub', x') ensures !PathLess(sub', [e.0] + sub) {
      var m :| Visible(d, path, exclude, sub', m) && Refusal(m) == Some(x');
      ThroughDir(d, e, path, exclude, sub', m);
      VisibleName(e.1, here, exclude, sub'[1..], m);
      assert RefusedAt(e.1, here, exclude, sub'[1..], x');
      LessTotal(e.0, e.0);
    }
    assert FirstAt(d, path, exclude, {e.0}, [e.0] + sub, x);
  }

  lemma LeafOutward(d: Node, e: (Text, Node), path: Path, exclude: seq<Text>, below: Path, leaf: Leaf)
    requires d.Dir? && Distinct(d.entries) && e in d.entries && e.1.Dir? && Join(path + [e.0]) !in exclude
    requires HasLeaf(e.1, path + [e.0], exclude, below, leaf)
    ensures HasLeaf(d, path, exclude, [e.0] + below, leaf)
  {
    var n :| Visible(e.1, path + [e.0], exclude, below, n) && LeafOf(n) == Some(leaf);
    assert ([e.0] + below)[1..] == below;
    ThroughDir(d, e, path, exclude, [e.0] + below, n);
  }

  lemma LeafInward(d: Node, e: (Text, Node), path: Path, exclude: seq<Text>, sub: Path, leaf: Leaf)
    requires d.Dir? && Distinct(d.entries) && e in d.entries && e.1.Dir? && Join(path + [e.0]) !in exclude
    requires sub != [] && sub[0] == e.0 && HasLeaf(d, path, exclude, sub, leaf)
    ensures |sub| > 1 && sub[1] in Names(e.1.entries) && HasLeaf(e.1, path + [e.0], exclude, sub[1..], leaf)
  {
    var n :| Visible(d, path, exclude, sub, n) && LeafOf(n) == Some(leaf);
    ThroughDir(d, e, path, exclude, sub, n);
    VisibleName(e.1, path + [e.0], exclude, sub[1..], n);
  }

  lemma VisibleName(d: Node, path: Path, exclude: seq<Text>, sub: Path, n: Node)
    requires d.Dir? && Visible(d, path, exclude, sub, n)
    ensures sub[0] in Names(d.entries)
  {
    if |sub| == 1 {
      assert (sub[0], n) in d.entries;
    } else {
      var child :| Has(d, sub[0], child);
      assert (sub[0], child) in d.entries;
    }
  }

  // ------------------------------------------------ the stream tells the list

  predicate GoodPath(p: Path) {
    p != [] && forall i :: 0 <= i < |p| ==> GoodName(p[i])
  }

  ghost predicate GoodLeaf(l: Leaf) {
    match l
    case FileLeaf(digest) => digest != [] && forall i :: 0 <= i < |digest| ==> IsHex(digest[i])
    case LinkLeaf(target) => NUL !in target
  }

  ghost predicate GoodList(es: seq<(Path, Leaf)>) {
    forall i :: 0 <= i < |es| ==> GoodPath(es[i].0) && GoodLeaf(es[i].1)
  }

  lemma {:induction false} JoinHasNoNul(p: Path)
    requires GoodPath(p)
    ensures NUL !in Join(p)
  {
    if |p| > 1 {
      JoinHasNoNul(p[..|p| - 1]);
    }
  }

  /** The first character tells a link target from a hexadecimal digest. */
  lemma HexOrLink(l: Leaf)
    requires GoodLeaf(l)
    ensures IsHex(DigestText(l)[0]) <==> l.FileLeaf?
  {
  }

  lemma DigestHasNoNul(l: Leaf)
    requires GoodLeaf(l)
    ensures NUL !in DigestText(l)
  {
  }

  // ---------------------------------------------- a reader of the stream

  function ReadLeaf(t: Text): Leaf {
    if |t| >= 5 && t[..5] == [108, 105, 110, 107, 58] then LinkLeaf(t[5..]) else FileLeaf(t)
  }

  /** Reads a stream as the program means it: a path and a digest or a target, each ended by a zero. */
  function ReadStream(t: Text): seq<(Path, Leaf)>
    decreases |t|
  {
    var k := First(t, 0);
    if k == |t| then []
    else
      var rest := t[k + 1..];
      var j := First(rest, 0);
      if j == |rest| then [] else [(Split(t[..k], 47), ReadLeaf(rest[..j]))] + ReadStream(rest[j + 1..])
  }

  lemma {:induction false} JoinFront(p: Path)
    requires |p| > 1
    ensures Join(p) == p[0] + [SLASH] + Join(p[1..])
  {
    var n := |p| - 1;
    if n > 1 {
      JoinFront(p[..n]);
      assert p[1..][..n - 1] == p[..n][1..];
      assert p[..n][0] == p[0];
    } else {
      assert p[..1] == [p[0]] && p[1..] == [p[1]];
    }
  }

  lemma {:induction false} SplitJoin(p: Path)
    requires GoodPath(p)
    ensures Split(Join(p), 47) == p
  {
    if |p| == 1 {
      SplitHead(p[0], 47, []);
    } else {
      JoinFront(p);
      SplitHead(p[0], 47, Join(p[1..]));
      SplitJoin(p[1..]);
      assert p == [p[0]] + p[1..];
    }
  }

  lemma LeafReads(l: Leaf)
    requires GoodLeaf(l)
    ensures ReadLeaf(DigestText(l)) == l
  {
    HexOrLink(l);
    var t := DigestText(l);
    if l.LinkLeaf? {
      assert t[..5] == LINK_PREFIX && t[5..] == l.target;
    } else {
      assert |t| >= 5 ==> t[..5][0] == t[0];
    }
  }

  lemma StreamHead(e: (Path, Leaf), path: Text, text: Text, more: Text)
    requires path == Join(e.0) && text == DigestText(e.1)
    ensures Token(e) + more == path + [0] + (text + [0] + more)
  {
  }

  /** The stream read back is the list it was made of. */
  lemma {:induction false} StreamReads(es: seq<(Path, Leaf)>)
    requires GoodList(es)
    ensures ReadStream(Stream(es)) == es
  {
    if es != [] {
      StreamReads(es[1..]);
      EntryReads(es[0], Stream(es[1..]));
      assert Stream(es) == Token(es[0]) + Stream(es[1..]);
      assert [es[0]] + es[1..] == es;
    }
  }

  lemma EntryReads(e: (Path, Leaf), more: Text)
    requires GoodPath(e.0) && GoodLeaf(e.1)
    ensures ReadStream(Token(e) + more) == [e] + ReadStream(more)
  {
    JoinHasNoNul(e.0);
    DigestHasNoNul(e.1);
    SplitJoin(e.0);
    LeafReads(e.1);
    StreamHead(e, Join(e.0), DigestText(e.1), more);
    ReadToken(Join(e.0), DigestText(e.1), more);
  }

  lemma ReadToken(path: Text, text: Text, more: Text)
    requires 0 !in path && 0 !in text
    ensures ReadStream(path + [0] + (text + [0] + more)) == [(Split(path, 47), ReadLeaf(text))] + ReadStream(more)
  {
    var rest := text + [0] + more;
    var t := path + [0] + rest;
    FirstOf(path, 0, rest);
    FirstOf(text, 0, more);
    assert t[..|path|] == path && t[|path| + 1..] == rest;
    assert rest[..|text|] == text && rest[|text| + 1..] == more;
  }

  lemma StreamInjective(es: seq<(Path, Leaf)>, fs: seq<(Path, Leaf)>)
    requires GoodList(es) && GoodList(fs) && Stream(es) == Stream(fs)
    ensures es == fs
  {
    StreamReads(es);
    StreamReads(fs);
  }

  lemma {:induction false} VisibleGood(d: Node, path: Path, exclude: seq<Text>, sub: Path, n: Node)
    requires WellFormed(d) && Visible(d, path, exclude, sub, n)
    ensures GoodPath(sub) && WellFormed(n)
    decreases |sub|
  {
    if |sub| == 1 {
      assert (sub[0], n) in d.entries;
    } else {
      var child :| Has(d, sub[0], child) && child.Dir? && Visible(child, path + [sub[0]], exclude, sub[1..], n);
      assert (sub[0], child) in d.entries;
      VisibleGood(child, path + [sub[0]], exclude, sub[1..], n);
      forall i | 0 <= i < |sub| ensures GoodName(sub[i]) {
        if i > 0 { assert sub[i] == sub[1..][i - 1]; }
      }
    }
  }

  lemma WalkGood(d: Node, exclude: seq<Text>)
    requires d.Dir? && WellFormed(d) && WalkDir(d, [], exclude).Ok?
    ensures GoodList(WalkDir(d, [], exclude).value)
  {
    DirExact(d, [], exclude);
    var list := WalkDir(d, [], exclude).value;
    forall i | 0 <= i < |list| ensures GoodPath(list[i].0) && GoodLeaf(list[i].1) {
      assert list[i] in list;
      var n :| Visible(d, [], exclude, list[i].0[0..], n) && LeafOf(n) == Some(list[i].1);
      assert list[i].0[0..] == list[i].0;
      VisibleGood(d, [], exclude, list[i].0, n);
    }
  }

  // ------------------------------------------------------------ main results

  /** Same paths, with the same file digests and link targets, outside what is excluded. */
  ghost predicate SameTree(t: Node, u: Node, exclude: seq<Text>) {
    forall sub: Path, leaf :: HasLeaf(t, [], exclude, sub, leaf) <==> HasLeaf(u, [], exclude, sub, leaf)
  }

  lemma LeavesListed(d: Node, exclude: seq<Text>, sub: Path, leaf: Leaf)
    requires d.Dir? && WellFormed(d) && WalkDir(d, [], exclude).Ok?
    ensures HasLeaf(d, [], exclude, sub, leaf) <==> (sub, leaf) in WalkDir(d, [], exclude).value
  {
    DirExact(d, [], exclude);
    assert (sub, leaf).0[0..] == sub;
    if HasLeaf(d, [], exclude, sub, leaf) {
      var n :| Visible(d, [], exclude, sub, n) && LeafOf(n) == Some(leaf);
      VisibleName(d, [], exclude, sub, n);
      assert [] + sub == sub;
    }
  }

  /**
   * The hashed stream pins down the tree, up to empty directories and excluded
   * entries, and depends on nothing else: not on the order of `readdir`.
   */
  lemma StreamIff(t: Node, u: Node, exclude: seq<Text>)
    requires t.Dir? && u.Dir? && WellFormed(t) && WellFormed(u)
    requires TreeStream(t, exclude).Ok? && TreeStream(u, exclude).Ok?
    ensures TreeStream(t, exclude) == TreeStream(u, exclude) <==> SameTree(t, u, exclude)
  {
    var es, fs := WalkDir(t, [], exclude).value, WalkDir(u, [], exclude).value;
    forall sub: Path, leaf
      ensures HasLeaf(t, [], exclude, sub, leaf) <==> (sub, leaf) in es
      ensures HasLeaf(u, [], exclude, sub, leaf) <==> (sub, leaf) in fs
    {
      LeavesListed(t, exclude, sub, leaf);
      LeavesListed(u, exclude, sub, leaf);
    }
    if TreeStream(t, exclude) == TreeStream(u, exclude) {
      WalkGood(t, exclude);
      WalkGood(u, exclude);
      StreamInjective(es, fs);
    } else if SameTree(t, u, exclude) {
      DirExact(t, [], exclude);
      DirExact(u, [], exclude);
      forall e ensures e in es <==> e in fs {
        assert e == (e.0, e.1);
      }
      SortedUnique(es, fs);
    }
  }

  /**
   * A tree is refused exactly when it shows an absolute link or a special
   * file, and with the error of the first of these in the order of the walk;
   * in particular a relative link that climbs out of the tree is not refused.
   */
  lemma RefusedIff(d: Node, exclude: seq<Text>)
    requires d.Dir? && WellFormed(d)
    ensures TreeStream(d, exclude).Err? <==> SomethingRefused(d, [], exclude)
    ensures TreeStream(d, exclude).Err? ==>
              exists sub: Path :: RefusedAt(d, [], exclude, sub, TreeStream(d, exclude).error)
                && forall sub': Path, e' :: RefusedAt(d, [], exclude, sub', e') ==> !PathLess(sub', sub)
  {
    DirExact(d, [], exclude);
    if TreeStream(d, exclude).Err? {
      var e := TreeStream(d, exclude).error;
      var sub: Path :| FirstAt(d, [], exclude, Names(d.entries), sub, e);
      forall sub': Path, e' | RefusedAt(d, [], exclude, sub', e') ensures !PathLess(sub', sub) {
        var n :| Visible(d, [], exclude, sub', n) && Refusal(n) == Some(e');
        VisibleName(d, [], exclude, sub', n);
      }
      assert RefusedAt(d, [], exclude, sub, e);
    } else if SomethingRefused(d, [], exclude) {
      var sub, n :| Visible(d, [], exclude, sub, n) && Refusal(n).Some?;
      VisibleName(d, [], exclude, sub, n);
    }
  }

  /** A tree that holds nothing but the link `x -> ../y` is well formed and accepted. */
  lemma EscapingLinkAccepted(name: Text, target: Text)
    requires name == [120] && target == [46, 46, SLASH, 121]
    ensures var d := Dir([(name, Link(target))]);
            WellFormed(d) && TreeStream(d, []) == Ok(Token(([name], LinkLeaf(target))))
  {
    var e := (name, Link(target));
    var d := Dir([e]);
    var none: seq<(Text, Node)> := [];
    assert [e][..0] == none && [e][1..] == none;
    assert SortByKey(d.entries) == Insert(e, SortByKey(none)) == [e];
    assert e in d.entries;
    assert [] + [name] == [name];
    assert WalkEntry(d, e, [], []) == Ok([([name], LinkLeaf(target))]);
    assert WalkEntries(d, none, [], []) == Ok([]);
    var list := [([name], LinkLeaf(target))];
    assert [e][0] == e && WalkEntries(d, [e], [], []) == Then(Ok(list), Ok([])) == Ok(list + []);
    assert list + [] == list;
    assert WalkDir(d, [], []) == Ok(list);
    assert list[1..] == [];
    assert Stream(list) == Token(list[0]) + [] == Token(list[0]);
  }
}

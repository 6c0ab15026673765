/**
 * The files behind one credential handle and the file effects of the
 * operations on them (src/credentials/store.ts).  Every operation is a list of
 * effects, each of which is atomic; a crash runs a prefix of the list.
 */
module CredentialFiles {
  import opened Wrappers

  /** `body` stands for the fields other than the handle and the generation. */
  datatype Record = Record(handle: string, generation: int, body: string)

  /** The JSON printer of records and the validating reader. */
  datatype Codec = Codec(parse: string -> Option<Record>, serialize: Record -> string)
  {
    /**
     * The reader gives back the printed record or rejects it, a record it has
     * accepted can be printed and read again, and generations are positive.
     */
    ghost predicate Sound() {
      && (forall r: Record :: Readable(r) || parse(serialize(r)) == None)
      && (forall t: string, r: Record {:trigger parse(t), Readable(r)} :: parse(t) == Some(r) ==> Readable(r))
      && (forall t: string :: parse(t).Some? ==> parse(t).value.generation >= 1)
    }

    /** Whether a record survives the read-back that ends a commit. */
    predicate Readable(r: Record) {
      parse(serialize(r)) == Some(r)
    }

    function ParseFile(file: Option<string>): Option<Record> {
      if file.None? then None else parse(file.value)
    }
  }

  datatype Files = Files(
    active: Option<string>, backup: Option<string>, temps: set<nat>, quarantine: map<nat, string>)

  const NoFiles := Files(None, None, {}, map[])

  datatype Slot = Active | Backup

  datatype Effect =
    | Stage(id: nat)                              // a temporary file is written
    | Publish(slot: Slot, id: nat, text: string)  // ... and renamed over its destination
    | Remove(slot: Slot)
    | RemoveTemp(id: nat)
    | Quarantine(id: nat, text: string)
    | RemoveQuarantined(id: nat)

  function Put(f: Files, slot: Slot, text: Option<string>): Files {
    match slot
    case Active => f.(active := text)
    case Backup => f.(backup := text)
  }

  function Apply(f: Files, e: Effect): Files {
    match e
    case Stage(id) => f.(temps := f.temps + {id})
    case Publish(slot, id, text) => Put(f.(temps := f.temps - {id}), slot, Some(text))
    case Remove(slot) => Put(f, slot, None)
    case RemoveTemp(id) => f.(temps := f.temps - {id})
    case Quarantine(id, text) => f.(quarantine := f.quarantine[id := text])
    case RemoveQuarantined(id) => f.(quarantine := f.quarantine - {id})
  }

  function Run(f: Files, es: seq<Effect>): Files {
    if es == [] then f else Apply(Run(f, es[..|es| - 1]), es[|es| - 1])
  }

  lemma RunConcat(f: Files, es: seq<Effect>, fs: seq<Effect>)
    ensures Run(f, es + fs) == Run(Run(f, es), fs)
  {
    if fs == [] {
      assert es + fs == es;
    } else {
      assert (es + fs)[..|es + fs| - 1] == es + fs[..|fs| - 1];
      RunConcat(f, es, fs[..|fs| - 1]);
    }
  }

  // ---------------------------------------------------------------- reading

  /** What a reader gets: the active record, or the backup when active does not parse. */
  function Read(c: Codec, f: Files): Option<Record> {
    var active := c.ParseFile(f.active);
    if active.Some? then active else c.ParseFile(f.backup)
  }

  // ----------------------------------------------------------------- commit

  datatype CommitError = HandleMismatch | StaleGeneration | Locked | CommitFailed

  /** The check made on what the handle holds, under the lock. */
  predicate Current(c: Codec, f: Files, expected: int) {
    var current := Read(c, f);
    if current.Some? then current.value.generation == expected else expected == 0
  }

  /** Why a commit is refused before it touches a file; the checks are made in this order. */
  function Refusal(c: Codec, f: Files, locked: bool, handle: string, expected: int, next: Record): Option<CommitError> {
    if next.handle != handle then Some(HandleMismatch)
    else if next.generation != expected + 1 then Some(StaleGeneration)
    else if locked then Some(Locked)
    else if !Current(c, f, expected) then Some(StaleGeneration)
    else None
  }

  /** When a commit is accepted, and with what it is refused otherwise. */
  lemma AcceptedIff(c: Codec, f: Files, locked: bool, handle: string, expected: int, next: Record)
    ensures Refusal(c, f, locked, handle, expected, next) == None <==>
              && next.handle == handle && next.generation == expected + 1 && !locked
              && (if Read(c, f).None? then expected == 0 else Read(c, f).value.generation == expected)
    ensures Refusal(c, f, locked, handle, expected, next) == Some(HandleMismatch) <==> next.handle != handle
    ensures Refusal(c, f, locked, handle, expected, next) == Some(Locked) <==>
              next.handle == handle && next.generation == expected + 1 && locked
    ensures Refusal(c, f, locked, handle, expected, next) == Some(StaleGeneration) <==>
              && next.handle == handle
              && (next.generation != expected + 1
                  || (!locked && if Read(c, f).None? then expected != 0 else Read(c, f).value.generation != expected))
  {
  }

  function AtomicWrite(slot: Slot, id: nat, text: string): seq<Effect> {
    [Stage(id), Publish(slot, id, text)]
  }

  function SaveActive(f: Files, id: nat): seq<Effect> {
    if f.active.Some? then AtomicWrite(Backup, id, f.active.value) else []
  }

  /** Effects up to and including the write of the active file. */
  function InstallEffects(c: Codec, f: Files, next: Record, id: nat): seq<Effect> {
    SaveActive(f, id) + AtomicWrite(Active, if f.active.Some? then id + 1 else id, c.serialize(next))
  }

  function ReplaceEffects(c: Codec, f: Files, next: Record, id: nat): seq<Effect> {
    InstallEffects(c, f, next, id) + if c.Readable(next) then [Remove(Backup)] else []
  }

  function CommitEffects(c: Codec, f: Files, handle: string, expected: int, next: Record, id: nat): seq<Effect> {
    if Refusal(c, f, false, handle, expected, next).None? then ReplaceEffects(c, f, next, id) else []
  }

  // --------------------------------------------------------------- recovery

  function RemoveTemps(listing: seq<nat>): seq<Effect> {
    seq(|listing|, i requires 0 <= i < |listing| => RemoveTemp(listing[i]))
  }

  function QuarantineEffects(f: Files, slot: Slot, id: nat): seq<Effect> {
    var file := if slot == Active then f.active else f.backup;
    if file.None? then [] else [Quarantine(id, file.value), Remove(slot)]
  }

  /**
   * The branch is chosen by the files as they were read; what goes to
   * quarantine is read again, from the files `f` at that time.
   */
  function RepairAfterReads(c: Codec, active: Option<string>, backup: Option<string>, f: Files, id: nat): seq<Effect> {
    var saved := c.ParseFile(backup);
    if c.ParseFile(active).Some? then [Remove(Backup)]
    else if saved.Some? then AtomicWrite(Active, id, c.serialize(saved.value)) + [Remove(Backup)]
    else QuarantineEffects(f, Active, id) + QuarantineEffects(f, Backup, id + 1)
  }

  /** The repair when nobody else is at work. */
  function RepairEffects(c: Codec, f: Files, id: nat): seq<Effect> {
    RepairAfterReads(c, f.active, f.backup, f, id)
  }

  /** `listing` is the directory listing from which the temporary files are removed. */
  function RecoverEffects(c: Codec, f: Files, listing: seq<nat>, id: nat): seq<Effect> {
    RemoveTemps(listing) + RepairEffects(c, f, id)
  }

  function Recover(c: Codec, f: Files, listing: seq<nat>, id: nat): Files {
    Run(f, RecoverEffects(c, f, listing, id))
  }

  // ------------------------------------------------------------------ purge

  function RemoveAllQuarantined(ids: seq<nat>): seq<Effect> {
    seq(|ids|, i requires 0 <= i < |ids| => RemoveQuarantined(ids[i]))
  }

  function PurgeEffects(listing: seq<nat>, quarantined: seq<nat>): seq<Effect> {
    [Remove(Active), Remove(Backup)] + RemoveTemps(listing) + RemoveAllQuarantined(quarantined)
  }

  // ------------------------------------------------- effects on a crash prefix

  /** Effects that leave both record files alone. */
  predicate Neutral(e: Effect) {
    e.Stage? || e.RemoveTemp? || e.Quarantine? || e.RemoveQuarantined?
  }

  lemma {:induction false} NeutralRun(f: Files, es: seq<Effect>)
    requires forall e :: e in es ==> Neutral(e)
    ensures Run(f, es).active == f.active && Run(f, es).backup == f.backup
  {
    if es != [] {
      NeutralRun(f, es[..|es| - 1]);
      assert es[|es| - 1] in es;
    }
  }

  /** A crash inside the first part of a list, or after it. */
  lemma PrefixSplit(f: Files, es: seq<Effect>, fs: seq<Effect>, k: nat)
    requires k <= |es| + |fs|
    ensures Run(f, (es + fs)[..k]) ==
            if k <= |es| then Run(f, es[..k]) else Run(Run(f, es), fs[..k - |es|])
  {
    if k <= |es| {
      assert (es + fs)[..k] == es[..k];
    } else {
      assert (es + fs)[..k] == es + fs[..k - |es|];
      RunConcat(f, es, fs[..k - |es|]);
    }
  }

  /** The four places at which a crash can leave an atomic write followed by at most one removal. */
  lemma ShortRun(f: Files, es: seq<Effect>)
    ensures |es| == 1 ==> Run(f, es) == Apply(f, es[0])
    ensures |es| == 2 ==> Run(f, es) == Apply(Apply(f, es[0]), es[1])
    ensures |es| == 3 ==> Run(f, es) == Apply(Apply(Apply(f, es[0]), es[1]), es[2])
  {
    if |es| == 1 {
      assert Run(f, es[..0]) == f;
    } else if |es| == 2 {
      ShortRun(f, es[..1]);
    } else if |es| == 3 {
      ShortRun(f, es[..2]);
    }
  }

  /** The record files after a crash that lets `k` effects of a replacement through. */
  lemma ReplacePrefix(c: Codec, f: Files, next: Record, id: nat, k: nat)
    requires k <= |ReplaceEffects(c, f, next, id)|
    ensures var g := Run(f, ReplaceEffects(c, f, next, id)[..k]);
            var saved := f.active.Some? && k >= 2;
            var published := k >= |InstallEffects(c, f, next, id)|;
            && g.active == (if published then Some(c.serialize(next)) else f.active)
            && g.backup == (if k > |InstallEffects(c, f, next, id)| then None
                            else if saved then f.active else f.backup)
  {
    var save := SaveActive(f, id);
    var install := AtomicWrite(Active, if f.active.Some? then id + 1 else id, c.serialize(next));
    var drop := if c.Readable(next) then [Remove(Backup)] else [];
    var rest := install + drop;
    assert ReplaceEffects(c, f, next, id) == save + rest;
    PrefixSplit(f, save, rest, k);
    if k <= |save| {
      ShortRun(f, save[..k]);
    } else {
      ShortRun(f, save);
      ShortRun(Run(f, save), rest[..k - |save|]);
    }
  }

  /** The record files after a crash that lets `k` effects of a recovery through. */
  lemma RecoverPrefix(c: Codec, f: Files, listing: seq<nat>, id: nat, k: nat)
    requires k <= |RecoverEffects(c, f, listing, id)|
    ensures var g := Run(f, RecoverEffects(c, f, listing, id)[..k]);
            var j := k - |listing|;
            var repair := RepairEffects(c, f, id);
            && (c.ParseFile(f.active).Some? ==>
                  g.active == f.active && g.backup == if j >= 1 then None else f.backup)
            && (c.ParseFile(f.active).None? && c.ParseFile(f.backup).Some? ==>
                  && g.active == (if j >= 2 then Some(c.serialize(c.ParseFile(f.backup).value)) else f.active)
                  && g.backup == (if j >= 3 then None else f.backup))
            && (Read(c, f).None? ==>
                  && (g.active == f.active || g.active == None) && (g.backup == f.backup || g.backup == None)
                  && (j == |repair| ==> g.active == None && g.backup == None))
  {
    var temps := RemoveTemps(listing);
    var repair := RepairEffects(c, f, id);
    PrefixSplit(f, temps, repair, k);
    if k <= |temps| {
      NeutralRun(f, temps[..k]);
      NeutralRun(f, temps);
    } else {
      NeutralRun(f, temps);
      RepairPrefix(c, f, Run(f, temps), id, k - |temps|);
    }
  }

  /** The same for the part after the temporary files, from files `g` that hold the same records. */
  lemma RepairPrefix(c: Codec, f: Files, g: Files, id: nat, j: nat)
    requires f.active == g.active && f.backup == g.backup && j <= |RepairEffects(c, f, id)|
    ensures var h := Run(g, RepairEffects(c, f, id)[..j]);
            && (c.ParseFile(f.active).Some? ==>
                  h.active == f.active && h.backup == if j >= 1 then None else f.backup)
            && (c.ParseFile(f.active).None? && c.ParseFile(f.backup).Some? ==>
                  && h.active == (if j >= 2 then Some(c.serialize(c.ParseFile(f.backup).value)) else f.active)
                  && h.backup == (if j >= 3 then None else f.backup))
            && (Read(c, f).None? ==>
                  && (h.active == f.active || h.active == None) && (h.backup == f.backup || h.backup == None)
                  && (j == |RepairEffects(c, f, id)| ==> h.active == None && h.backup == None))
  {
    if Read(c, f).Some? {
      ShortRun(g, RepairEffects(c, f, id)[..j]);
    } else {
      QuarantinePrefix(f, g, id, j);
    }
  }

  lemma QuarantinePrefix(f: Files, g: Files, id: nat, k: nat)
    requires f.active == g.active && f.backup == g.backup
    requires k <= |QuarantineEffects(f, Active, id) + QuarantineEffects(f, Backup, id + 1)|
    ensures var es := QuarantineEffects(f, Active, id) + QuarantineEffects(f, Backup, id + 1);
            var h := Run(g, es[..k]);
            && (h.active == f.active || h.active == None) && (h.backup == f.backup || h.backup == None)
            && (k == |es| ==> h.active == None && h.backup == None)
  {
    var first := QuarantineEffects(f, Active, id);
    var second := QuarantineEffects(f, Backup, id + 1);
    PrefixSplit(g, first, second, k);
    if k <= |first| {
      ShortRun(g, first[..k]);
      ShortRun(g, first);
    } else {
      ShortRun(g, first);
      ShortRun(Run(g, first), second[..k - |first|]);
    }
  }

  // ----------------------------------------------------------- main results

  /**
   * The one state from which a commit is not atomic: the active file is there
   * but does not parse, and the backup does.
   */
  predicate Hazard(c: Codec, f: Files) {
    f.active.Some? && c.ParseFile(f.active).None? && c.ParseFile(f.backup).Some?
  }

  /**
   * Outside the hazard a reader of a crashed commit gets exactly the old
   * record until the active file is renamed in place, and exactly the new one
   * from there on, both before and after recovery.
   */
  lemma CommitCrashExact(c: Codec, f: Files, next: Record, id: nat, k: nat, listing: seq<nat>, rid: nat)
    requires c.Sound() && !Hazard(c, f)
    requires k <= |ReplaceEffects(c, f, next, id)|
    ensures var g := Run(f, ReplaceEffects(c, f, next, id)[..k]);
            var expected := if k >= |InstallEffects(c, f, next, id)| && c.Readable(next) then Some(next) else Read(c, f);
            Read(c, g) == expected && Read(c, Recover(c, g, listing, rid)) == expected
  {
    ReplacePrefix(c, f, next, id, k);
    RecoverPreservesRead(c, Run(f, ReplaceEffects(c, f, next, id)[..k]), listing, rid,
                         |RecoverEffects(c, Run(f, ReplaceEffects(c, f, next, id)[..k]), listing, rid)|);
    var es := RecoverEffects(c, Run(f, ReplaceEffects(c, f, next, id)[..k]), listing, rid);
    assert es[..|es|] == es;
  }

  /** What crash atomicity asks of a replacement: the old record or the new one, never nothing. */
  ghost predicate CrashAtomic(c: Codec, f: Files, next: Record, id: nat) {
    forall k, listing, rid | 0 <= k <= |ReplaceEffects(c, f, next, id)| ::
      var after := Read(c, Recover(c, Run(f, ReplaceEffects(c, f, next, id)[..k]), listing, rid));
      after == Read(c, f) || after == Some(next)
  }

  /** A replacement is crash-atomic exactly outside the hazard. */
  lemma CommitAtomicIff(c: Codec, f: Files, next: Record, id: nat)
    requires c.Sound()
    ensures CrashAtomic(c, f, next, id) <==> !Hazard(c, f)
  {
    if Hazard(c, f) {
      var es := ReplaceEffects(c, f, next, id);
      var g := Run(f, es[..2]);
      ReplacePrefix(c, f, next, id, 2);
      assert Read(c, g).None?;
      RecoverPreservesRead(c, g, [], 0, |RecoverEffects(c, g, [], 0)|);
      assert RecoverEffects(c, g, [], 0)[..|RecoverEffects(c, g, [], 0)|] == RecoverEffects(c, g, [], 0);
      assert Read(c, Recover(c, Run(f, es[..2]), [], 0)).None?;
    } else {
      forall k, listing, rid | 0 <= k <= |ReplaceEffects(c, f, next, id)|
        ensures var after := Read(c, Recover(c, Run(f, ReplaceEffects(c, f, next, id)[..k]), listing, rid));
                after == Read(c, f) || after == Some(next)
      {
        CommitCrashExact(c, f, next, id, k, listing, rid);
      }
    }
  }

  /** A first record on an empty handle, as after a login or an import, is accepted, kept and read back. */
  lemma FirstCommit(c: Codec, next: Record, id: nat)
    requires c.Sound() && c.Readable(next) && next.generation == 1
    ensures var es := CommitEffects(c, NoFiles, next.handle, 0, next, id);
            && Read(c, Run(NoFiles, es)) == Some(next)
            && Run(NoFiles, es) == NoFiles.(active := Some(c.serialize(next)))
  {
    AcceptedIff(c, NoFiles, false, next.handle, 0, next);
    ShortRun(NoFiles, CommitEffects(c, NoFiles, next.handle, 0, next, id));
    assert {} + {id} - {id} == {};
  }

  /** An accepted commit of a record that can be read back is what a reader gets from then on. */
  lemma CommittedIsRead(c: Codec, f: Files, handle: string, expected: int, next: Record, id: nat)
    requires c.Sound() && c.Readable(next) && Refusal(c, f, false, handle, expected, next).None?
    ensures Read(c, Run(f, CommitEffects(c, f, handle, expected, next, id))) == Some(next)
  {
    var es := ReplaceEffects(c, f, next, id);
    ReplacePrefix(c, f, next, id, |es|);
    assert es[..|es|] == es;
  }

  /**
   * How the hazard arises: from a state outside it, a replacement cut off
   * after `k` effects ends in it exactly when the unreadable new text is in
   * place and there was a record to lose.
   */
  lemma HazardArises(c: Codec, f: Files, next: Record, id: nat, k: nat)
    requires c.Sound() && !Hazard(c, f)
    requires k <= |ReplaceEffects(c, f, next, id)|
    ensures Hazard(c, Run(f, ReplaceEffects(c, f, next, id)[..k]))
       <==> k >= |InstallEffects(c, f, next, id)| && !c.Readable(next) && Read(c, f).Some?
  {
    ReplacePrefix(c, f, next, id, k);
  }

  /** Recovery, even when it is cut off, never changes what a reader gets. */
  lemma RecoverPreservesRead(c: Codec, f: Files, listing: seq<nat>, id: nat, k: nat)
    requires c.Sound()
    requires k <= |RecoverEffects(c, f, listing, id)|
    ensures Read(c, Run(f, RecoverEffects(c, f, listing, id)[..k])) == Read(c, f)
  {
    RecoverPrefix(c, f, listing, id, k);
    assert Read(c, f).Some? ==> c.Readable(Read(c, f).value);
  }

  /** After a full recovery only a readable active file is left, or nothing. */
  lemma RecoverNormalises(c: Codec, f: Files, listing: seq<nat>, id: nat)
    requires c.Sound()
    ensures var g := Recover(c, f, listing, id);
            && g.backup == None
            && (g.active.Some? <==> Read(c, f).Some?)
            && c.ParseFile(g.active) == Read(c, f)
  {
    var es := RecoverEffects(c, f, listing, id);
    RecoverPrefix(c, f, listing, id, |es|);
    assert Read(c, f).Some? ==> c.Readable(Read(c, f).value);
    assert es[..|es|] == es;
  }

  /** Where nothing can be read the texts go to quarantine, file by file; else nothing does. */
  lemma RecoverQuarantines(c: Codec, f: Files, listing: seq<nat>, id: nat)
    ensures var first := if f.active.Some? then f.quarantine[id := f.active.value] else f.quarantine;
            Recover(c, f, listing, id).quarantine ==
              if Read(c, f).Some? then f.quarantine
              else if f.backup.Some? then first[id + 1 := f.backup.value] else first
  {
    var g := Run(f, RemoveTemps(listing));
    RemoveTempsRun(f, listing);
    RunConcat(f, RemoveTemps(listing), RepairEffects(c, f, id));
    if Read(c, f).Some? {
      ShortRun(g, RepairEffects(c, f, id));
    } else {
      var first, second := QuarantineEffects(f, Active, id), QuarantineEffects(f, Backup, id + 1);
      RunConcat(g, first, second);
      ShortRun(g, first);
      ShortRun(Run(g, first), second);
    }
  }

  lemma {:induction false} RemoveTempsRun(f: Files, listing: seq<nat>)
    ensures Run(f, RemoveTemps(listing)) == f.(temps := f.temps - set id | id in listing)
  {
    if listing != [] {
      var n := |listing| - 1;
      assert RemoveTemps(listing)[..n] == RemoveTemps(listing[..n]);
      RemoveTempsRun(f, listing[..n]);
      assert (set id | id in listing) == (set id | id in listing[..n]) + {listing[n]};
    }
  }

  /**
   * A recovery whose listing is complete leaves no temporary file, and
   * recovering again, with any listing and any names, changes nothing.
   */
  lemma RecoverIdempotent(c: Codec, f: Files, listing: seq<nat>, id: nat, listing': seq<nat>, id': nat)
    requires c.Sound()
    requires f.temps <= set t | t in listing
    ensures var g := Recover(c, f, listing, id);
            g.temps == {} && Recover(c, g, listing', id') == g
  {
    var g := Recover(c, f, listing, id);
    RemoveTempsRun(f, listing);
    RunConcat(f, RemoveTemps(listing), RepairEffects(c, f, id));
    RepairTemps(c, f, Run(f, RemoveTemps(listing)), id);
    RecoverNormalises(c, f, listing, id);
    RemoveTempsRun(g, listing');
    RunConcat(g, RemoveTemps(listing'), RepairEffects(c, g, id'));
    ShortRun(g, RepairEffects(c, g, id'));
  }

  lemma RepairTemps(c: Codec, f: Files, g: Files, id: nat)
    requires g.temps == {}
    ensures Run(g, RepairEffects(c, f, id)).temps == {}
  {
    var es := RepairEffects(c, f, id);
    if Read(c, f).Some? {
      ShortRun(g, es);
    } else {
      var first := QuarantineEffects(f, Active, id);
      var second := QuarantineEffects(f, Backup, id + 1);
      RunConcat(g, first, second);
      ShortRun(g, first);
      ShortRun(Run(g, first), second);
    }
  }

  lemma PurgePrefix(f: Files, listing: seq<nat>, quarantined: seq<nat>, k: nat)
    requires k <= |PurgeEffects(listing, quarantined)|
    ensures var g := Run(f, PurgeEffects(listing, quarantined)[..k]);
            && g.active == (if k >= 1 then None else f.active)
            && g.backup == (if k >= 2 then None else f.backup)
  {
    var head := [Remove(Active), Remove(Backup)];
    var tail := RemoveTemps(listing) + RemoveAllQuarantined(quarantined);
    assert PurgeEffects(listing, quarantined) == head + tail;
    PrefixSplit(f, head, tail, k);
    ShortRun(f, head);
    if k <= 2 {
      ShortRun(f, head[..k]);
    } else {
      NeutralRun(Run(f, head), tail[..k - 2]);
    }
  }

  /** The record an interrupted purge leaves behind is the backup's, whatever the active file said. */
  lemma PurgeCrash(c: Codec, f: Files, listing: seq<nat>, quarantined: seq<nat>, k: nat)
    requires k <= |PurgeEffects(listing, quarantined)|
    ensures Read(c, Run(f, PurgeEffects(listing, quarantined)[..k])) ==
            if k == 0 then Read(c, f) else if k == 1 then c.ParseFile(f.backup) else None
  {
    PurgePrefix(f, listing, quarantined, k);
  }

  /**
   * Recovery takes no lock.  Suppose another process commits `next` while one
   * is running: the recovery reads the active file after `i` effects of the
   * commit and the backup after `j`, and acts when the commit is done.  The
   * commit survives exactly if the active file it read was readable: the old
   * one, or already the new one.  Otherwise the older backup is put back, or
   * the new record goes to quarantine.
   */
  lemma CommitSurvivesRecoveryIff(c: Codec, f: Files, next: Record, id: nat, i: nat, j: nat, rid: nat)
    requires c.Sound() && c.Readable(next) && Read(c, f) != Some(next)
    requires i <= j <= |ReplaceEffects(c, f, next, id)|
    ensures var es := ReplaceEffects(c, f, next, id);
            var committed := Run(f, es);
            var repair := RepairAfterReads(c, Run(f, es[..i]).active, Run(f, es[..j]).backup, committed, rid);
            && Read(c, committed) == Some(next)
            && (Read(c, Run(committed, repair)) == Some(next)
                <==> c.ParseFile(f.active).Some? || i >= |InstallEffects(c, f, next, id)|)
  {
    var es := ReplaceEffects(c, f, next, id);
    ReplacePrefix(c, f, next, id, i);
    ReplacePrefix(c, f, next, id, j);
    ReplacePrefix(c, f, next, id, |es|);
    assert es[..|es|] == es;
    RepairResult(c, Run(f, es[..i]).active, Run(f, es[..j]).backup, Run(f, es), rid);
  }

  /** What a reader gets after a repair that was chosen by earlier reads. */
  lemma RepairResult(c: Codec, active: Option<string>, backup: Option<string>, g: Files, id: nat)
    requires c.Sound()
    ensures Read(c, Run(g, RepairAfterReads(c, active, backup, g, id))) ==
            if c.ParseFile(active).Some? then c.ParseFile(g.active)
            else c.ParseFile(backup)
  {
    var es := RepairAfterReads(c, active, backup, g, id);
    if c.ParseFile(active).Some? || c.ParseFile(backup).Some? {
      assert c.ParseFile(backup).Some? ==> c.Readable(c.ParseFile(backup).value);
      ShortRun(g, es);
    } else {
      QuarantinePrefix(g, g, id, |es|);
      assert es[..|es|] == es;
    }
  }

  /**
   * The plainest case, a recovery that read everything before the commit
   * began: it leaves the commit alone, or undoes it altogether, so that a
   * reader gets what was readable before.
   */
  lemma StaleRecoveryIff(c: Codec, f: Files, next: Record, id: nat, rid: nat)
    requires c.Sound() && c.Readable(next) && Read(c, f) != Some(next)
    ensures var committed := Run(f, ReplaceEffects(c, f, next, id));
            var after := Read(c, Run(committed, RepairAfterReads(c, f.active, f.backup, committed, rid)));
            && (after == Some(next) <==> c.ParseFile(f.active).Some?)
            && (after == Read(c, f) <==> c.ParseFile(f.active).None?)
  {
    var es := ReplaceEffects(c, f, next, id);
    assert es[..0] == [];
    CommitSurvivesRecoveryIff(c, f, next, id, 0, 0, rid);
    RepairResult(c, f.active, f.backup, Run(f, es), rid);
  }

  /**
   * The same for a purge: the recovery reads the active file after `i` effects
   * of it and the backup after `j`, and acts when the purge is done.  A record
   * comes back exactly if a readable backup was read after an active file that
   * was unreadable or gone already.
   */
  lemma RecoveryRevivesPurgedIff(c: Codec, f: Files, listing: seq<nat>, quarantined: seq<nat>, i: nat, j: nat, rid: nat)
    requires c.Sound() && i <= j <= |PurgeEffects(listing, quarantined)|
    ensures var es := PurgeEffects(listing, quarantined);
            var purged := Run(f, es);
            var repair := RepairAfterReads(c, Run(f, es[..i]).active, Run(f, es[..j]).backup, purged, rid);
            && Read(c, purged) == None
            && (Read(c, Run(purged, repair)).Some?
                <==> j <= 1 && c.ParseFile(f.backup).Some? && (i == 1 || c.ParseFile(f.active).None?))
  {
    var es := PurgeEffects(listing, quarantined);
    PurgePrefix(f, listing, quarantined, i);
    PurgePrefix(f, listing, quarantined, j);
    PurgePrefix(f, listing, quarantined, |es|);
    assert es[..|es|] == es;
    RepairResult(c, Run(f, es[..i]).active, Run(f, es[..j]).backup, Run(f, es), rid);
  }

  // ------------------------------------------------------ runs with crashes

  /** One operation of a run, cut off after `k` effects when that is fewer than it has. */
  datatype Action =
    | Commit(handle: string, expected: int, next: Record, id: nat, k: nat)
    | Recovery(listing: seq<nat>, id: nat, k: nat)
    | Purge(listing: seq<nat>, quarantined: seq<nat>, k: nat)

  function Effects(c: Codec, f: Files, a: Action): seq<Effect> {
    match a
    case Commit(handle, expected, next, id, _) => CommitEffects(c, f, handle, expected, next, id)
    case Recovery(listing, id, _) => RecoverEffects(c, f, listing, id)
    case Purge(listing, quarantined, _) => PurgeEffects(listing, quarantined)
  }

  function Step(c: Codec, f: Files, a: Action): Files {
    var es := Effects(c, f, a);
    Run(f, if a.k < |es| then es[..a.k] else es)
  }

  function StepAll(c: Codec, f: Files, actions: seq<Action>): Files {
    if actions == [] then f else Step(c, StepAll(c, f, actions[..|actions| - 1]), actions[|actions| - 1])
  }

  lemma StepIsPrefix(c: Codec, f: Files, a: Action)
    ensures var es := Effects(c, f, a);
            var k := if a.k < |es| then a.k else |es|;
            Step(c, f, a) == Run(f, es[..k])
  {
    assert Effects(c, f, a)[..|Effects(c, f, a)|] == Effects(c, f, a);
  }

  /** When both files parse they hold the same record, or the active one is the next generation. */
  predicate Chained(c: Codec, f: Files) {
    var active, backup := c.ParseFile(f.active), c.ParseFile(f.backup);
    active.Some? && backup.Some? ==>
      active == backup || active.value.generation == backup.value.generation + 1
  }

  lemma StepKeepsChained(c: Codec, f: Files, a: Action)
    requires c.Sound() && Chained(c, f)
    ensures Chained(c, Step(c, f, a))
  {
    StepIsPrefix(c, f, a);
    var es := Effects(c, f, a);
    var k := if a.k < |es| then a.k else |es|;
    match a
    case Commit(handle, expected, next, id, _) =>
      if Refusal(c, f, false, handle, expected, next).None? {
        ReplacePrefix(c, f, next, id, k);
      }
    case Recovery(listing, id, _) =>
      RecoverPrefix(c, f, listing, id, k);
    case Purge(listing, quarantined, _) =>
      PurgePrefix(f, listing, quarantined, k);
  }

  /** Over every run of commits, recoveries and purges, all of them cut off anywhere. */
  lemma {:induction false} RunKeepsChained(c: Codec, f: Files, actions: seq<Action>)
    requires c.Sound() && Chained(c, f)
    ensures Chained(c, StepAll(c, f, actions))
  {
    if actions != [] {
      var n := |actions| - 1;
      RunKeepsChained(c, f, actions[..n]);
      StepKeepsChained(c, StepAll(c, f, actions[..n]), actions[n]);
    }
  }

  /** The readable generation; 0 when nothing can be read. */
  function Generation(c: Codec, f: Files): int {
    if Read(c, f).None? then 0 else Read(c, f).value.generation
  }

  /** No purge, and no commit that starts in the hazard. */
  predicate Careful(c: Codec, f: Files, actions: seq<Action>) {
    if actions == [] then true
    else
      var n := |actions| - 1;
      && Careful(c, f, actions[..n])
      && !actions[n].Purge?
      && (actions[n].Commit? ==> !Hazard(c, StepAll(c, f, actions[..n])))
  }

  lemma StepMonotone(c: Codec, f: Files, a: Action)
    requires c.Sound() && !a.Purge? && (a.Commit? ==> !Hazard(c, f))
    ensures OneOn(c, f, Step(c, f, a))
  {
    StepIsPrefix(c, f, a);
    var es := Effects(c, f, a);
    var k := if a.k < |es| then a.k else |es|;
    match a
    case Commit(handle, expected, next, id, _) =>
      if Refusal(c, f, false, handle, expected, next).None? {
        CommitMonotone(c, f, handle, expected, next, id, k);
      }
    case Recovery(listing, id, _) =>
      RecoverPreservesRead(c, f, listing, id, k);
  }

  /** The readable generation is kept or one higher, and kept only with its record. */
  ghost predicate OneOn(c: Codec, f: Files, g: Files) {
    && Generation(c, f) <= Generation(c, g) <= Generation(c, f) + 1
    && (Generation(c, g) == Generation(c, f) ==> Read(c, g) == Read(c, f))
  }

  lemma CommitMonotone(c: Codec, f: Files, handle: string, expected: int, next: Record, id: nat, k: nat)
    requires c.Sound() && !Hazard(c, f) && Refusal(c, f, false, handle, expected, next).None?
    requires k <= |ReplaceEffects(c, f, next, id)|
    ensures OneOn(c, f, Run(f, ReplaceEffects(c, f, next, id)[..k]))
  {
    AcceptedIff(c, f, false, handle, expected, next);
    ReplacePrefix(c, f, next, id, k);
  }

  lemma {:induction false} CarefulMonotone(c: Codec, f: Files, actions: seq<Action>)
    requires c.Sound() && Careful(c, f, actions)
    ensures Generation(c, f) <= Generation(c, StepAll(c, f, actions)) <= Generation(c, f) + |actions|
    ensures Generation(c, StepAll(c, f, actions)) == Generation(c, f) ==>
              Read(c, StepAll(c, f, actions)) == Read(c, f)
  {
    if actions != [] {
      var n := |actions| - 1;
      CarefulMonotone(c, f, actions[..n]);
      StepMonotone(c, StepAll(c, f, actions[..n]), actions[n]);
    }
  }

  /** What is asked of the operations: no purge, and only records that can be read back. */
  predicate Plain(c: Codec, actions: seq<Action>) {
    forall i :: 0 <= i < |actions| ==> !actions[i].Purge? && (actions[i].Commit? ==> c.Readable(actions[i].next))
  }

  lemma StepAvoidsHazard(c: Codec, f: Files, a: Action)
    requires c.Sound() && !Hazard(c, f) && !a.Purge? && (a.Commit? ==> c.Readable(a.next))
    ensures !Hazard(c, Step(c, f, a))
  {
    StepIsPrefix(c, f, a);
    var es := Effects(c, f, a);
    var k := if a.k < |es| then a.k else |es|;
    match a
    case Commit(handle, expected, next, id, _) =>
      if Refusal(c, f, false, handle, expected, next).None? {
        HazardArises(c, f, next, id, k);
      }
    case Recovery(listing, id, _) =>
      RecoverPrefix(c, f, listing, id, k);
      assert Read(c, f).Some? ==> c.Readable(Read(c, f).value);
  }

  /** Such operations never lead into the hazard, wherever they are cut off. */
  lemma {:induction false} RunAvoidsHazard(c: Codec, f: Files, actions: seq<Action>)
    requires c.Sound() && !Hazard(c, f) && Plain(c, actions)
    ensures !Hazard(c, StepAll(c, f, actions)) && Careful(c, f, actions)
  {
    if actions != [] {
      var n := |actions| - 1;
      RunAvoidsHazard(c, f, actions[..n]);
      StepAvoidsHazard(c, StepAll(c, f, actions[..n]), actions[n]);
    }
  }

  /**
   * Over every run of such operations, crashes included, the readable
   * generation never goes back, rises by at most one a step, and a record that
   * keeps its generation is still the same record.
   */
  lemma RunMonotone(c: Codec, f: Files, actions: seq<Action>)
    requires c.Sound() && !Hazard(c, f) && Plain(c, actions)
    ensures Generation(c, f) <= Generation(c, StepAll(c, f, actions)) <= Generation(c, f) + |actions|
    ensures Generation(c, StepAll(c, f, actions)) == Generation(c, f) ==>
              Read(c, StepAll(c, f, actions)) == Read(c, f)
  {
    RunAvoidsHazard(c, f, actions);
    CarefulMonotone(c, f, actions);
  }

  /**
   * Why the hazard has to be excluded: a readable record, one commit of an
   * unreadable record, then a commit cut off after saving the active file,
   * and recovery finds nothing.
   */
  lemma HazardLosesRecord(c: Codec, f: Files, bad: Record, next: Record, ids: (nat, nat, nat), listing: seq<nat>)
    requires c.Sound() && !Hazard(c, f) && Read(c, f).Some? && !c.Readable(bad)
    ensures var broken := Run(f, ReplaceEffects(c, f, bad, ids.0));
            var crashed := Run(broken, ReplaceEffects(c, broken, next, ids.1)[..2]);
            && Read(c, broken) == Read(c, f)
            && Read(c, Recover(c, crashed, listing, ids.2)) == None
  {
    var es := ReplaceEffects(c, f, bad, ids.0);
    assert es[..|es|] == es;
    var broken := Run(f, es);
    CommitCrashExact(c, f, bad, ids.0, |es|, [], 0);
    HazardArises(c, f, bad, ids.0, |es|);
    ReplacePrefix(c, broken, next, ids.1, 2);
    RecoverNormalises(c, Run(broken, ReplaceEffects(c, broken, next, ids.1)[..2]), listing, ids.2);
  }

  /** A reader that accepts one text, and a printer that can print one record only. */
  function OneRecordCodec(): Codec {
    var good := Record("h", 1, "");
    Codec(t => if t == "good" then Some(good) else None, r => if r == good then "good" else "bad")
  }

  /** The hazard and the loss it leads to, on four concrete values. */
  lemma HazardExists()
    ensures var c, good, bad := OneRecordCodec(), Record("h", 1, ""), Record("h", 2, "");
            var f := NoFiles.(active := Some("good"));
            var broken := Run(f, ReplaceEffects(c, f, bad, 0));
            && c.Sound() && Read(c, f) == Some(good) && Refusal(c, f, false, "h", 1, bad).None?
            && Hazard(c, broken) && Refusal(c, broken, false, "h", 1, bad).None?
            && Read(c, Recover(c, Run(broken, ReplaceEffects(c, broken, bad, 2)[..2]), [], 4)) == None
  {
    var c, bad := OneRecordCodec(), Record("h", 2, "");
    var f := NoFiles.(active := Some("good"));
    HazardLosesRecord(c, f, bad, bad, (0, 2, 4), []);
    var es := ReplaceEffects(c, f, bad, 0);
    assert es[..|es|] == es;
    HazardArises(c, f, bad, 0, |es|);
  }
}

/**
 * The credential store (src/credentials/store.ts): operations that rewrite the
 * files of a handle in place.  Each is proved to perform exactly the effect
 * list of CredentialFiles, so a crash inside it is a prefix of that list.
 */
module CredentialStore {
  import opened Wrappers
  import opened CredentialFiles

  function FilesOf(files: map<string, Files>, handle: string): Files {
    if handle in files then files[handle] else NoFiles
  }

  function Tag(handle: string, es: seq<Effect>): seq<(string, Effect)> {
    seq(|es|, i requires 0 <= i < |es| => (handle, es[i]))
  }

  /** A handle is listed when its active or its backup file is there. */
  predicate Listed(f: Files) {
    f.active.Some? || f.backup.Some?
  }

  class Store {
    const codec: Codec
    var files: map<string, Files>
    var nextId: nat                      // source of the random names
    var foreignLocks: set<string>        // handles whose lock file has another live owner
    ghost var log: seq<(string, Effect)> // every effect, in order

    constructor (codec: Codec, files: map<string, Files>)
      requires codec.Sound()
      ensures this.codec == codec && this.files == files && log == [] && foreignLocks == {}
    {
      this.codec := codec;
      this.files := files;
      nextId, foreignLocks, log := 0, {}, [];
    }

    /** Since `from`, exactly the effects `es` were applied to `handle`, and nothing else changed. */
    ghost predicate Performed(from: map<string, Files>, past: seq<(string, Effect)>, handle: string, es: seq<Effect>)
      reads this
    {
      && FilesOf(files, handle) == Run(FilesOf(from, handle), es)
      && (forall h :: h != handle ==> FilesOf(files, h) == FilesOf(from, h))
      && log == past + Tag(handle, es)
    }

    method Do(handle: string, e: Effect)
      modifies this`files, this`log
      ensures files == old(files)[handle := Apply(FilesOf(old(files), handle), e)]
      ensures log == old(log) + [(handle, e)]
    {
      files := files[handle := Apply(FilesOf(files, handle), e)];
      log := log + [(handle, e)];
    }

    lemma PerformedThen(from: map<string, Files>, past: seq<(string, Effect)>, handle: string,
                        es: seq<Effect>, middle: map<string, Files>, pastMiddle: seq<(string, Effect)>, fs: seq<Effect>)
      requires FilesOf(middle, handle) == Run(FilesOf(from, handle), es)
      requires forall h :: h != handle ==> FilesOf(middle, h) == FilesOf(from, h)
      requires pastMiddle == past + Tag(handle, es)
      requires Performed(middle, pastMiddle, handle, fs)
      ensures Performed(from, past, handle, es + fs)
    {
      RunConcat(FilesOf(from, handle), es, fs);
      assert Tag(handle, es) + Tag(handle, fs) == Tag(handle, es + fs);
    }

    method WriteAtomically(handle: string, slot: Slot, text: string)
      modifies this`files, this`log, this`nextId
      ensures nextId == old(nextId) + 1
      ensures Performed(old(files), old(log), handle, AtomicWrite(slot, old(nextId), text))
    {
      var id := nextId;
      nextId := nextId + 1;
      Do(handle, Stage(id));
      Do(handle, Publish(slot, id, text));
      ShortRun(FilesOf(old(files), handle), AtomicWrite(slot, id, text));
    }

    method RemoveFile(handle: string, slot: Slot)
      modifies this`files, this`log
      ensures Performed(old(files), old(log), handle, [Remove(slot)])
    {
      Do(handle, Remove(slot));
      ShortRun(FilesOf(old(files), handle), [Remove(slot)]);
    }

    method ReadRecord(handle: string) returns (r: Option<Record>)
      ensures r == Read(codec, FilesOf(files, handle))
    {
      var f := FilesOf(files, handle);
      r := codec.ParseFile(f.active);
      if r.None? {
        r := codec.ParseFile(f.backup);
      }
    }

    /**
     * Commits `next` over generation `expected`: refused without an effect, or
     * carried out; the backup stays when the written record cannot be read back.
     */
    method Commit(handle: string, expected: int, next: Record) returns (r: Result<Record, CommitError>)
      requires codec.Sound()
      modifies this`files, this`log, this`nextId
      ensures var f := FilesOf(old(files), handle);
              var refusal := Refusal(codec, f, handle in foreignLocks, handle, expected, next);
              if refusal.Some? then r == Err(refusal.value) && files == old(files) && log == old(log)
              else
                && r == (if codec.Readable(next) then Ok(next) else Err(CommitFailed))
                && Performed(old(files), old(log), handle, ReplaceEffects(codec, f, next, old(nextId)))
      ensures var current := Read(codec, FilesOf(old(files), handle));
              r == Ok(next) <==>
                && next.handle == handle && next.generation == expected + 1 && handle !in foreignLocks
                && (if current.None? then expected == 0 else current.value.generation == expected)
                && codec.Readable(next)
      ensures r.Ok? ==> Read(codec, FilesOf(files, handle)) == Some(next)
    {
      ghost var f := FilesOf(files, handle);
      AcceptedIff(codec, f, handle in foreignLocks, handle, expected, next);
      if codec.Readable(next) && Refusal(codec, f, false, handle, expected, next).None? {
        CommittedIsRead(codec, f, handle, expected, next, nextId);
      }
      if next.handle != handle { return Err(HandleMismatch); }
      if next.generation != expected + 1 { return Err(StaleGeneration); }
      if handle in foreignLocks { return Err(Locked); }
      var current := ReadRecord(handle);
      if current.Some? && current.value.generation != expected { return Err(StaleGeneration); }
      if current.None? && expected != 0 { return Err(StaleGeneration); }
      r := Replace(handle, next);
    }

    method Replace(handle: string, next: Record) returns (r: Result<Record, CommitError>)
      requires codec.Sound()
      modifies this`files, this`log, this`nextId
      ensures r == if codec.Readable(next) then Ok(next) else Err(CommitFailed)
      ensures Performed(old(files), old(log), handle,
                        ReplaceEffects(codec, FilesOf(old(files), handle), next, old(nextId)))
    {
      ghost var f := FilesOf(files, handle);
      var active := FilesOf(files, handle).active;
      if active.Some? {
        WriteAtomically(handle, Backup, active.value);
      }
      ghost var saved, savedLog := files, log;
      WriteAtomically(handle, Active, codec.serialize(next));
      PerformedThen(old(files), old(log), handle, SaveActive(f, old(nextId)), saved, savedLog,
                    AtomicWrite(Active, nextId - 1, codec.serialize(next)));
      var verified := codec.ParseFile(FilesOf(files, handle).active);
      assert verified == codec.parse(codec.serialize(next)) by { Published(saved, handle, nextId - 1, codec.serialize(next)); }
      if verified.None? || verified.value.generation != next.generation {
        assert ReplaceEffects(codec, f, next, old(nextId)) == InstallEffects(codec, f, next, old(nextId));
        return Err(CommitFailed);
      }
      ghost var installed, installedLog := files, log;
      RemoveFile(handle, Backup);
      PerformedThen(old(files), old(log), handle, InstallEffects(codec, f, next, old(nextId)),
                    installed, installedLog, [Remove(Backup)]);
      r := Ok(next);
    }

    lemma Published(from: map<string, Files>, handle: string, id: nat, text: string)
      ensures Run(FilesOf(from, handle), AtomicWrite(Active, id, text)).active == Some(text)
    {
      ShortRun(FilesOf(from, handle), AtomicWrite(Active, id, text));
    }

    /** Removes the temporary files of a handle in some listing order. */
    method RemoveTemporary(handle: string) returns (ghost listing: seq<nat>)
      modifies this`files, this`log
      ensures (set t | t in listing) == FilesOf(old(files), handle).temps
      ensures Performed(old(files), old(log), handle, RemoveTemps(listing))
    {
      var todo := FilesOf(files, handle).temps;
      listing := [];
      while todo != {}
        invariant todo + (set t | t in listing) == FilesOf(old(files), handle).temps
        invariant Performed(old(files), old(log), handle, RemoveTemps(listing))
      {
        var t :| t in todo;
        todo := todo - {t};
        ghost var before, beforeLog := files, log;
        Do(handle, RemoveTemp(t));
        ShortRun(FilesOf(before, handle), [RemoveTemp(t)]);
        PerformedThen(old(files), old(log), handle, RemoveTemps(listing), before, beforeLog, [RemoveTemp(t)]);
        assert RemoveTemps(listing + [t]) == RemoveTemps(listing) + [RemoveTemp(t)];
        listing := listing + [t];
      }
    }

    method QuarantineIfPresent(handle: string, slot: Slot)
      modifies this`files, this`log, this`nextId
      ensures nextId == old(nextId) + 1
      ensures Performed(old(files), old(log), handle,
                        QuarantineEffects(FilesOf(old(files), handle), slot, old(nextId)))
    {
      var f := FilesOf(files, handle);
      var file := if slot == Active then f.active else f.backup;
      var id := nextId;
      nextId := nextId + 1;
      if file.None? { return; }
      Do(handle, Quarantine(id, file.value));
      Do(handle, Remove(slot));
      ShortRun(f, [Quarantine(id, file.value), Remove(slot)]);
    }

    /** Repairs one handle; takes no lock. */
    method RecoverHandle(handle: string) returns (r: Option<Record>, ghost listing: seq<nat>, ghost id: nat)
      requires codec.Sound()
      modifies this`files, this`log, this`nextId
      ensures r == Read(codec, FilesOf(old(files), handle))
      ensures (set t | t in listing) == FilesOf(old(files), handle).temps
      ensures Performed(old(files), old(log), handle,
                        RecoverEffects(codec, FilesOf(old(files), handle), listing, id))
    {
      id := nextId;
      ghost var f := FilesOf(files, handle);
      listing := RemoveTemporary(handle);
      NeutralRun(f, RemoveTemps(listing));
      ghost var cleaned, cleanedLog := files, log;
      var active := codec.ParseFile(FilesOf(files, handle).active);
      var backup := codec.ParseFile(FilesOf(files, handle).backup);
      if active.Some? {
        RemoveFile(handle, Backup);
        r := active;
      } else if backup.Some? {
        WriteAtomically(handle, Active, codec.serialize(backup.value));
        ghost var written, writtenLog := files, log;
        RemoveFile(handle, Backup);
        PerformedThen(cleaned, cleanedLog, handle, AtomicWrite(Active, id, codec.serialize(backup.value)),
                      written, writtenLog, [Remove(Backup)]);
        r := backup;
      } else {
        QuarantineIfPresent(handle, Active);
        ghost var moved, movedLog := files, log;
        ShortRun(FilesOf(cleaned, handle), QuarantineEffects(FilesOf(cleaned, handle), Active, id));
        QuarantineIfPresent(handle, Backup);
        PerformedThen(cleaned, cleanedLog, handle, QuarantineEffects(f, Active, id),
                      moved, movedLog, QuarantineEffects(f, Backup, id + 1));
        r := None;
      }
      PerformedThen(old(files), old(log), handle, RemoveTemps(listing), cleaned, cleanedLog, RepairEffects(codec, f, id));
    }

    /**
     * Repairs every listed handle.  Afterwards each of those is either a single
     * readable active file or empty, without temporary files, and reads as
     * before; the handles that are not listed are as they were.
     */
    method RecoverAll()
      requires codec.Sound()
      modifies this`files, this`log, this`nextId
      ensures forall h ::
                if Listed(FilesOf(old(files), h)) then Recovered(codec, FilesOf(old(files), h), FilesOf(files, h))
                else FilesOf(files, h) == FilesOf(old(files), h)
    {
      var todo := set h | h in files.Keys && Listed(files[h]);
      while todo != {}
        invariant forall h :: h in todo ==> Listed(FilesOf(old(files), h)) && FilesOf(files, h) == FilesOf(old(files), h)
        invariant forall h :: h !in todo ==>
                    if Listed(FilesOf(old(files), h)) then Recovered(codec, FilesOf(old(files), h), FilesOf(files, h))
                    else FilesOf(files, h) == FilesOf(old(files), h)
      {
        var handle :| handle in todo;
        todo := todo - {handle};
        ghost var f := FilesOf(files, handle);
        var _, listing, id := RecoverHandle(handle);
        RecoverNormalises(codec, f, listing, id);
        RecoverIdempotent(codec, f, listing, id, listing, id);
      }
    }

    /** Removes everything stored for a handle, the active file before the backup. */
    method Purge(handle: string) returns (r: Result<(), CommitError>, ghost listing: seq<nat>, ghost quarantined: seq<nat>)
      modifies this`files, this`log
      ensures handle in foreignLocks ==> r == Err(Locked) && files == old(files) && log == old(log)
      ensures handle !in foreignLocks ==>
                && r == Ok(())
                && Performed(old(files), old(log), handle, PurgeEffects(listing, quarantined))
                && FilesOf(files, handle) == NoFiles
    {
      listing, quarantined := [], [];
      if handle in foreignLocks { return Err(Locked), [], []; }
      ghost var f := FilesOf(files, handle);
      RemoveFile(handle, Active);
      ghost var half, halfLog := files, log;
      RemoveFile(handle, Backup);
      PerformedThen(old(files), old(log), handle, [Remove(Active)], half, halfLog, [Remove(Backup)]);
      ghost var bare, bareLog := files, log;
      ShortRun(f, [Remove(Active), Remove(Backup)]);
      listing := RemoveTemporary(handle);
      PerformedThen(old(files), old(log), handle, [Remove(Active), Remove(Backup)], bare, bareLog, RemoveTemps(listing));
      RemoveTempsRun(FilesOf(bare, handle), listing);
      ghost var clean, cleanLog := files, log;
      quarantined := RemoveQuarantine(handle);
      PerformedThen(old(files), old(log), handle, [Remove(Active), Remove(Backup)] + RemoveTemps(listing),
                    clean, cleanLog, RemoveAllQuarantined(quarantined));
      assert [Remove(Active), Remove(Backup)] + RemoveTemps(listing) + RemoveAllQuarantined(quarantined)
          == PurgeEffects(listing, quarantined);
      r := Ok(());
    }

    method RemoveQuarantine(handle: string) returns (ghost quarantined: seq<nat>)
      modifies this`files, this`log
      ensures Performed(old(files), old(log), handle, RemoveAllQuarantined(quarantined))
      ensures FilesOf(files, handle) == FilesOf(old(files), handle).(quarantine := map[])
    {
      var todo := FilesOf(files, handle).quarantine.Keys;
      quarantined := [];
      while todo != {}
        invariant todo <= FilesOf(old(files), handle).quarantine.Keys
        invariant FilesOf(files, handle).quarantine.Keys == todo
        invariant FilesOf(files, handle) == FilesOf(old(files), handle).(quarantine := FilesOf(files, handle).quarantine)
        invariant Performed(old(files), old(log), handle, RemoveAllQuarantined(quarantined))
      {
        var t :| t in todo;
        todo := todo - {t};
        ghost var before, beforeLog := files, log;
        Do(handle, RemoveQuarantined(t));
        ShortRun(FilesOf(before, handle), [RemoveQuarantined(t)]);
        PerformedThen(old(files), old(log), handle, RemoveAllQuarantined(quarantined), before, beforeLog, [RemoveQuarantined(t)]);
        assert RemoveAllQuarantined(quarantined + [t]) == RemoveAllQuarantined(quarantined) + [RemoveQuarantined(t)];
        quarantined := quarantined + [t];
      }
    }
  }

  /** What recovery makes of the files of a listed handle. */
  ghost predicate Recovered(c: Codec, f: Files, g: Files) {
    && g.temps == {} && g.backup == None
    && c.ParseFile(g.active) == Read(c, f)
    && (g.active.Some? <==> Read(c, f).Some?)
  }
}

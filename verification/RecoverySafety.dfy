/** What every step of the journal protocol keeps, crashes included. */
module RecoverySafety {
  import opened Wrappers
  import opened Durability
  import opened LiveRecovery

  /** The file systems, changes and kills for which the journal keeps its promise. */
  ghost predicate Sound(cfg: Config) {
    (cfg.creates ==> cfg.names) && !cfg.unlinks && KillsSpareGaps(cfg)
  }

  /** No process is killed between a rename and its syncs, or recovery makes up for it. */
  ghost predicate KillsSpareGaps(cfg: Config) {
    cfg.settles || cfg.kills == {}
  }

  /** The pair that recovery owes: the new one exactly when the marker was written. */
  ghost function Expected(s: State): Two<Value> {
    if s.marker.Never? then s.orig else s.goal
  }

  ghost predicate Holds(live: Two<Live>, pair: Two<Value>) {
    Settled(live) && Values(live) == pair
  }

  /** The live files are on disk and hold the expected pair. */
  ghost predicate Quiet(s: State)
  {
    Holds(s.disk.live, Expected(s))
  }

  ghost predicate ImageOf(c: Cell<Pages>, v: Value) {
    v.Db? && c.clean && c.cur == Some(v.pages)
  }

  /** What may be left of an image whose manifest is ready. */
  ghost predicate ImageLeft(cfg: Config, c: Cell<Pages>, v: Value) {
    v.Db? ==>
      c.clean && !c.name.Loose? && (c.cur.None? || ImageOf(c, v)) && (cfg.names ==> c.name.Named? && c.cur.Some?)
  }

  /** A ready manifest whose images, where they are still named, hold the original pair. */
  ghost predicate Imaged(cfg: Config, dir: Dir, orig: Two<Value>) {
    && dir.ready.cur == Some(ManifestFor(cfg, orig)) && dir.ready.clean
    && ImageLeft(cfg, dir.img.notes, orig.notes) && ImageLeft(cfg, dir.img.files, orig.files)
  }

  /** The journal is wholly on disk. */
  ghost predicate Good(cfg: Config, dir: Dir, orig: Two<Value>) {
    && dir.ready == OnDisk(Some(ManifestFor(cfg, orig)))
    && (orig.notes.Db? ==> dir.img.notes == OnDisk(Some(orig.notes.pages)))
    && (orig.files.Db? ==> dir.img.files == OnDisk(Some(orig.files.pages)))
  }

  /** What the journal directory holds, wherever it can still be found under its own name. */
  ghost predicate JournalOk(cfg: Config, dir: Dir, orig: Two<Value>, marker: Marker) {
    NoStray(orig) &&
    match marker
    case Never =>
      && dir.committed == OnDisk(None)
      && (dir.ready == OnDisk(None) || (Imaged(cfg, dir, orig) && !dir.ready.name.Loose?))
    case Tried => Good(cfg, dir, orig) && dir.committed.cur.Some? && dir.committed.name.Born?
    case Durable => Good(cfg, dir, orig) && dir.committed.cur.Some? && dir.committed.name.Named?
  }

  /** The change may write the live files: the journal on disk can undo anything. */
  ghost predicate Armed(cfg: Config, s: State) {
    && s.disk.may == {Journal} && s.marker.Never?
    && Good(cfg, s.disk.dir, s.orig) && JournalOk(cfg, s.disk.dir, s.orig, s.marker)
  }

  ghost predicate Core(cfg: Config, s: State) {
    && (Journal in s.disk.may ==> JournalOk(cfg, s.disk.dir, s.orig, s.marker))
    && (Quiet(s) || Armed(cfg, s))
    && NoStray(s.orig) && NoStray(s.goal)
  }

  /** A journal that is not where it may be is gone for good, and what a process does with the one it
      finds will still be found after a power loss. */
  ghost predicate Resumable(s: State) {
    Journal in s.disk.may ==>
      && s.disk.loc.Journal?
      && (s.disk.dir.ready.cur.Some? ==> s.disk.may == {Journal} && NamesKept(s))
  }

  ghost predicate NamesKept(s: State) {
    && s.disk.dir.ready.name.Named?
    && (s.orig.notes.Db? ==> s.disk.dir.img.notes.name.Named?)
    && (s.orig.files.Db? ==> s.disk.dir.img.files.name.Named?)
  }

  ghost predicate Cleared(s: State) {
    Journal !in s.disk.may
  }

  /** The target has been put back. */
  ghost predicate Restored(g: Live, v: Value) {
    ValueOf(g) == v && g.main.Flushed() && g.wal.cur.None?
  }

  /** Between the writes that put the target back. */
  ghost predicate Restoring(g: Live, v: Value, i: nat) {
    if v.Db? then i >= 2 ==> g.main.cur == Some(v.pages) && g.wal.cur.None?
    else i >= 1 ==> g.main.cur.None?
  }

  /** Names of live files whose presence a change cannot have altered unseen. */
  ghost predicate KnownNames(cfg: Config, live: Two<Live>)
  {
    && KnownName(cfg, live.notes.main) && KnownName(cfg, live.notes.wal)
    && KnownName(cfg, live.files.main) && KnownName(cfg, live.files.wal)
  }

  ghost predicate KnownName(cfg: Config, c: Cell<Pages>) {
    if c.cur.None? then c.Settled() else cfg.names || c.name.Named?
  }

  /** The journal directory while it is being filled. */
  ghost predicate Filling(s: State) {
    && s.disk.loc.Journal? && s.disk.may == {Nowhere, Journal} && s.marker.Never?
    && Quiet(s) && NoStray(s.orig) && s.disk.dir.committed == OnDisk(None)
  }

  ghost predicate Taken(cfg: Config, c: Cell<Pages>, v: Value) {
    v.Db? ==> ImageOf(c, v) && !c.name.Loose? && (cfg.names ==> c.name.Named?)
  }

  ghost predicate Synced(live: Two<Live>, i: nat)
  {
    && (i > 0 ==> live.notes.main.Settled()) && (i > 1 ==> live.notes.wal.Settled())
    && (i > 2 ==> live.files.main.Settled()) && (i > 3 ==> live.files.wal.Settled())
  }

  ghost predicate AtPc(cfg: Config, s: State)
    requires Shaped(s)
  {
    var d := s.disk;
    match s.pc
    case Idle => Cleared(s)
    case Down => cfg.settles || Resumable(s)
    case Failed => !cfg.names && Resumable(s)
    case SettleDir(why) => cfg.settles
    case SettleTop(why) => cfg.settles && (d.loc.Journal? ==> !s.marker.Tried? && NamesKept(s))
    case Sweep(why) => Resumable(s)
    case Inspect(why) => Resumable(s) && !d.stale && !d.loc.Finished?
    case Restore(why, k, i) =>
      Armed(cfg, s) && !d.stale && (k == 1 ==> Restored(d.live.notes, s.orig.notes)) &&
          Restoring(d.live.At(k), s.orig.At(k), i)
    case RestoreSync(why) =>
      Armed(cfg, s) && !d.stale && Restored(d.live.notes, s.orig.notes) && Restored(d.live.files, s.orig.files)
    case Retire(why) => d.loc.Journal? && Resumable(s) && Quiet(s) && !d.stale
    case RetireSync(why) => d.loc.Finished? && Quiet(s) && !d.stale
    case Discard(why) => !d.loc.Journal? && Cleared(s) && !d.stale
    case DiscardSync(why) => d.loc.Nowhere? && Cleared(s) && !d.stale
    case MakeDirectory => d.loc.Nowhere? && Cleared(s) && !d.stale && s.marker.Never?
    case Snapshot(k, i) =>
      Filling(s) && d.dir.ready == OnDisk(None) && d.dir.preparing == OnDisk(None) &&
          (k == 1 ==> Taken(cfg, d.dir.img.notes, s.orig.notes))
      && !d.dir.img.At(k).name.Loose?
      && (i == 0 ==> d.dir.img.At(k) == OnDisk(None)) && (k == 0 ==> d.dir.img.files == OnDisk(None))
      && (i >= 3 && s.orig.At(k).Db? ==> d.dir.img.At(k).cur == Some(s.orig.At(k).pages))
    case WritePreparing =>
      Filling(s) && d.dir.ready == OnDisk(None) && Taken(cfg, d.dir.img.notes, s.orig.notes) &&
          Taken(cfg, d.dir.img.files, s.orig.files)
    case SyncPreparing =>
      Filling(s) && d.dir.ready == OnDisk(None) && Taken(cfg, d.dir.img.notes, s.orig.notes) &&
          Taken(cfg, d.dir.img.files, s.orig.files)
      && d.dir.preparing.cur == Some(ManifestFor(cfg, s.orig))
    case Publish =>
      Filling(s) && d.dir.ready == OnDisk(None) && Taken(cfg, d.dir.img.notes, s.orig.notes) &&
          Taken(cfg, d.dir.img.files, s.orig.files)
      && d.dir.preparing.cur == Some(ManifestFor(cfg, s.orig)) && d.dir.preparing.clean
    case SyncJournal =>
      Filling(s) && Imaged(cfg, d.dir, s.orig) && Taken(cfg, d.dir.img.notes, s.orig.notes) &&
          Taken(cfg, d.dir.img.files, s.orig.files)
    case SyncParent => Filling(s) && Good(cfg, d.dir, s.orig)
    case Active => Armed(cfg, s) && KnownNames(cfg, d.live) && NoStray(Values(d.live))
    case CommitSync(i) =>
      Armed(cfg, s) && KnownNames(cfg, d.live) && Synced(d.live, i) && s.goal == Values(d.live)
    case CommitMark => Armed(cfg, s) && Settled(d.live) && s.goal == Values(d.live)
    case CommitMarkSync => d.may == {Journal} && s.marker.Tried? && Quiet(s)
    case CommitDirSync => d.may == {Journal} && !s.marker.Never? && Quiet(s)
  }

  ghost predicate Inv(cfg: Config, s: State) {
    Shaped(s) && Core(cfg, s) && AtPc(cfg, s)
  }

  // ---------- settled files stay put ----------

  lemma {:induction false} SettledSurvives(live: Two<Live>, after: Two<Live>)
    requires Settled(live)
    requires GroupCrashedTo(live.notes, after.notes) && GroupCrashedTo(live.files, after.files)
    ensures Settled(after) && Values(after) == Values(live)
  {
  }

  /** What a power loss leaves of a journal under its own name. */
  lemma {:induction false} JournalSurvives(cfg: Config, s: State, after: Disk)
    requires Shaped(s) && JournalOk(cfg, s.disk.dir, s.orig, s.marker) && Crashes(s.disk, after) && after.loc.Journal?
    ensures var t := Step(cfg, s, PowerLoss(after)).value;
            && JournalOk(cfg, after.dir, s.orig, t.marker) && NamesKept(t)
            && (t.marker.Never? && !s.marker.Never? ==> Good(cfg, after.dir, s.orig))
            && (s.marker.Never? ==> t.marker.Never?)
  {
    hide EntryFor;
  }

  lemma {:induction false} ArmedSurvives(cfg: Config, s: State, after: Disk)
    requires Shaped(s) && Armed(cfg, s) && Crashes(s.disk, after)
    ensures Armed(cfg, Step(cfg, s, PowerLoss(after)).value)
  {
    hide EntryFor;
  }

  lemma {:induction false} PowerLossKeeps(cfg: Config, s: State, after: Disk)
    requires Inv(cfg, s) && Crashes(s.disk, after)
    ensures Inv(cfg, Step(cfg, s, PowerLoss(after)).value)
  {
    var t := Step(cfg, s, PowerLoss(after)).value;
    hide AtPc, JournalOk, Armed, Good, GroupCrashedTo, Settled, Values;
    LossIsShaped(cfg, s, after);
    if after.loc.Journal? {
      JournalSurvives(cfg, s, after);
    }
    if Quiet(s) {
      SettledSurvives(s.disk.live, after.live);
      if Expected(t) != Expected(s) {
        RearmedByLoss(cfg, s, after);
      }
    } else {
      ArmedSurvives(cfg, s, after);
    }
    DownIsResumable(cfg, t);
  }

  lemma {:induction false} LossIsShaped(cfg: Config, s: State, after: Disk)
    requires Shaped(s) && Crashes(s.disk, after)
    ensures Shaped(Step(cfg, s, PowerLoss(after)).value)
  {
  }

  /** A marker that was tried and is lost gives the journal its say again. */
  lemma {:induction false} RearmedByLoss(cfg: Config, s: State, after: Disk)
    requires Shaped(s) && Crashes(s.disk, after) && Journal in after.may
    requires var t := Step(cfg, s, PowerLoss(after)).value;
             t.marker.Never? && JournalOk(cfg, after.dir, s.orig, t.marker) && Good(cfg, after.dir, s.orig)
    ensures Armed(cfg, Step(cfg, s, PowerLoss(after)).value)
  {
    hide Good, JournalOk;
  }

  lemma {:induction false} DownIsResumable(cfg: Config, s: State)
    requires Shaped(s) && s.pc.Down? && (Journal in s.disk.may ==> s.disk.may == {Journal} && NamesKept(s))
    ensures AtPc(cfg, s)
  {
  }

  lemma {:induction false} KillKeeps(cfg: Config, s: State)
    requires KillsSpareGaps(cfg) && Inv(cfg, s) && Step(cfg, s, Kill).Some?
    ensures Inv(cfg, Step(cfg, s, Kill).value)
  {
  }

  lemma {:induction false} SettleKeeps(cfg: Config, s: State, torn: Pages, victim: nat)
    requires Inv(cfg, s) && (s.pc.SettleDir? || s.pc.SettleTop?) && RecoverNext(cfg, s, torn, victim).Some?
    ensures Inv(cfg, RecoverNext(cfg, s, torn, victim).value)
  {
  }

  lemma {:induction false} SweepKeeps(cfg: Config, s: State, torn: Pages, victim: nat)
    requires Inv(cfg, s) && s.pc.Sweep? && RecoverNext(cfg, s, torn, victim).Some?
    ensures Inv(cfg, RecoverNext(cfg, s, torn, victim).value)
  {
  }

  lemma {:induction false} ValidImagesAreGood(cfg: Config, s: State)
    requires Shaped(s) && JournalOk(cfg, s.disk.dir, s.orig, s.marker)
    requires s.marker.Never? && Resumable(s) && Journal in s.disk.may
    requires s.disk.dir.ready.cur.Some? && Validates(cfg, s.disk, s.disk.dir.ready.cur.value)
    ensures Good(cfg, s.disk.dir, s.orig)
  {
    assert ManifestFor(cfg, s.orig).files[0].existed == s.orig.notes.Db?;
    assert ManifestFor(cfg, s.orig).files[1].existed == s.orig.files.Db?;
  }

  lemma {:induction false} InspectKeeps(cfg: Config, s: State, torn: Pages, victim: nat)
    requires Inv(cfg, s) && s.pc.Inspect? && RecoverNext(cfg, s, torn, victim).Some?
    ensures Inv(cfg, RecoverNext(cfg, s, torn, victim).value)
  {
    if s.disk.loc.Journal? && s.disk.dir.ready.cur.Some? && s.disk.dir.committed.cur.None?
       && Validates(cfg, s.disk, s.disk.dir.ready.cur.value) {
      ValidImagesAreGood(cfg, s);
    }
  }

  lemma {:induction false} RestoreTornKeeps(cfg: Config, s: State, torn: Pages, victim: nat)
    requires Inv(cfg, s) && s.pc.Restore? && s.orig.At(s.pc.k).Db? && s.pc.i == 0
    requires RecoverNext(cfg, s, torn, victim).Some?
    ensures Inv(cfg, RecoverNext(cfg, s, torn, victim).value)
  {
  }

  lemma {:induction false} RestoreCopiedKeeps(cfg: Config, s: State, torn: Pages, victim: nat)
    requires Inv(cfg, s) && s.pc.Restore? && s.orig.At(s.pc.k).Db? && s.pc.i == 1
    requires RecoverNext(cfg, s, torn, victim).Some?
    ensures Inv(cfg, RecoverNext(cfg, s, torn, victim).value)
  {
  }

  lemma {:induction false} RestoreFlushedKeeps(cfg: Config, s: State, torn: Pages, victim: nat)
    requires Inv(cfg, s) && s.pc.Restore? && s.orig.At(s.pc.k).Db? && s.pc.i >= 2
    requires RecoverNext(cfg, s, torn, victim).Some?
    ensures Inv(cfg, RecoverNext(cfg, s, torn, victim).value)
  {
  }

  lemma {:induction false} RestoreImageKeeps(cfg: Config, s: State, torn: Pages, victim: nat)
    requires Inv(cfg, s) && s.pc.Restore? && s.orig.At(s.pc.k).Db? && RecoverNext(cfg, s, torn, victim).Some?
    ensures Inv(cfg, RecoverNext(cfg, s, torn, victim).value)
  {
    if s.pc.i == 0 {
      RestoreTornKeeps(cfg, s, torn, victim);
    } else if s.pc.i == 1 {
      RestoreCopiedKeeps(cfg, s, torn, victim);
    } else {
      RestoreFlushedKeeps(cfg, s, torn, victim);
    }
  }

  lemma {:induction false} RestoreAbsenceKeeps(cfg: Config, s: State, torn: Pages, victim: nat)
    requires Inv(cfg, s) && s.pc.Restore? && !s.orig.At(s.pc.k).Db? && RecoverNext(cfg, s, torn, victim).Some?
    ensures Inv(cfg, RecoverNext(cfg, s, torn, victim).value)
  {
  }

  lemma {:induction false} RestoreSyncKeeps(cfg: Config, s: State, torn: Pages, victim: nat)
    requires Inv(cfg, s) && s.pc.RestoreSync? && RecoverNext(cfg, s, torn, victim).Some?
    ensures Inv(cfg, RecoverNext(cfg, s, torn, victim).value)
  {
  }

  lemma {:induction false} RetireKeeps(cfg: Config, s: State, torn: Pages, victim: nat)
    requires Inv(cfg, s) && s.pc.Retire? && RecoverNext(cfg, s, torn, victim).Some?
    ensures Inv(cfg, RecoverNext(cfg, s, torn, victim).value)
  {
  }

  lemma {:induction false} RetireSyncKeeps(cfg: Config, s: State, torn: Pages, victim: nat)
    requires Inv(cfg, s) && s.pc.RetireSync? && RecoverNext(cfg, s, torn, victim).Some?
    ensures Inv(cfg, RecoverNext(cfg, s, torn, victim).value)
  {
  }

  lemma {:induction false} DiscardKeeps(cfg: Config, s: State, torn: Pages, victim: nat)
    requires Inv(cfg, s) && s.pc.Discard? && RecoverNext(cfg, s, torn, victim).Some?
    ensures Inv(cfg, RecoverNext(cfg, s, torn, victim).value)
  {
  }

  lemma {:induction false} DiscardSyncKeeps(cfg: Config, s: State, torn: Pages, victim: nat)
    requires Inv(cfg, s) && s.pc.DiscardSync? && RecoverNext(cfg, s, torn, victim).Some?
    ensures Inv(cfg, RecoverNext(cfg, s, torn, victim).value)
  {
  }

  lemma {:induction false} MakeDirectoryKeeps(cfg: Config, s: State, torn: Pages)
    requires Inv(cfg, s) && s.pc.MakeDirectory? && BeginNext(cfg, s, torn).Some?
    ensures Inv(cfg, BeginNext(cfg, s, torn).value)
  {
  }

  lemma {:induction false} SnapshotSkipKeeps(cfg: Config, s: State, torn: Pages)
    requires Inv(cfg, s) && s.pc.Snapshot? && !s.orig.At(s.pc.k).Db? && BeginNext(cfg, s, torn).Some?
    ensures Inv(cfg, BeginNext(cfg, s, torn).value)
  {
    assert ValueOf(s.disk.live.At(s.pc.k)) == s.orig.At(s.pc.k);
  }

  lemma {:induction false} SnapshotCreateKeeps(cfg: Config, s: State, torn: Pages)
    requires Inv(cfg, s) && s.pc.Snapshot? && s.orig.At(s.pc.k).Db? && s.pc.i == 0 && BeginNext(cfg, s, torn).Some?
    ensures Inv(cfg, BeginNext(cfg, s, torn).value)
  {
    assert ValueOf(s.disk.live.At(s.pc.k)) == s.orig.At(s.pc.k);
  }

  lemma {:induction false} SnapshotTornKeeps(cfg: Config, s: State, torn: Pages)
    requires Inv(cfg, s) && s.pc.Snapshot? && s.orig.At(s.pc.k).Db? && s.pc.i == 1 && BeginNext(cfg, s, torn).Some?
    ensures Inv(cfg, BeginNext(cfg, s, torn).value)
  {
    assert ValueOf(s.disk.live.At(s.pc.k)) == s.orig.At(s.pc.k);
  }

  lemma {:induction false} SnapshotCopiedKeeps(cfg: Config, s: State, torn: Pages)
    requires Inv(cfg, s) && s.pc.Snapshot? && s.orig.At(s.pc.k).Db? && s.pc.i == 2 && BeginNext(cfg, s, torn).Some?
    ensures Inv(cfg, BeginNext(cfg, s, torn).value)
  {
    assert ValueOf(s.disk.live.At(s.pc.k)) == s.orig.At(s.pc.k);
  }

  lemma {:induction false} SnapshotFlushedKeeps(cfg: Config, s: State, torn: Pages)
    requires Inv(cfg, s) && s.pc.Snapshot? && s.orig.At(s.pc.k).Db? && s.pc.i >= 3 && BeginNext(cfg, s, torn).Some?
    ensures Inv(cfg, BeginNext(cfg, s, torn).value)
  {
    hide Crashes, CommitNext, RecoverNext, WriteLive, KnownNames, Synced, Restored;
    assert ValueOf(s.disk.live.At(s.pc.k)) == s.orig.At(s.pc.k);
  }

  lemma {:induction false} SnapshotKeeps(cfg: Config, s: State, torn: Pages)
    requires Inv(cfg, s) && s.pc.Snapshot? && BeginNext(cfg, s, torn).Some?
    ensures Inv(cfg, BeginNext(cfg, s, torn).value)
  {
    if !s.orig.At(s.pc.k).Db? {
      SnapshotSkipKeeps(cfg, s, torn);
    } else if s.pc.i == 0 {
      SnapshotCreateKeeps(cfg, s, torn);
    } else if s.pc.i == 1 {
      SnapshotTornKeeps(cfg, s, torn);
    } else if s.pc.i == 2 {
      SnapshotCopiedKeeps(cfg, s, torn);
    } else {
      SnapshotFlushedKeeps(cfg, s, torn);
    }
  }

  lemma {:induction false} WritePreparingKeeps(cfg: Config, s: State, torn: Pages)
    requires Inv(cfg, s) && s.pc.WritePreparing? && BeginNext(cfg, s, torn).Some?
    ensures Inv(cfg, BeginNext(cfg, s, torn).value)
  {
  }

  lemma {:induction false} SyncPreparingKeeps(cfg: Config, s: State, torn: Pages)
    requires Inv(cfg, s) && s.pc.SyncPreparing? && BeginNext(cfg, s, torn).Some?
    ensures Inv(cfg, BeginNext(cfg, s, torn).value)
  {
  }

  lemma {:induction false} PublishKeeps(cfg: Config, s: State, torn: Pages)
    requires Inv(cfg, s) && s.pc.Publish? && BeginNext(cfg, s, torn).Some?
    ensures Inv(cfg, BeginNext(cfg, s, torn).value)
  {
  }

  lemma {:induction false} SyncJournalKeeps(cfg: Config, s: State, torn: Pages)
    requires Inv(cfg, s) && s.pc.SyncJournal? && BeginNext(cfg, s, torn).Some?
    ensures Inv(cfg, BeginNext(cfg, s, torn).value)
  {
  }

  lemma {:induction false} SyncParentKeeps(cfg: Config, s: State, torn: Pages)
    requires Inv(cfg, s) && s.pc.SyncParent? && BeginNext(cfg, s, torn).Some?
    ensures Inv(cfg, BeginNext(cfg, s, torn).value)
  {
  }

  lemma {:induction false} GoalStays(cfg: Config, s: State)
    requires Shaped(s) && s.pc.CommitSync?
    ensures Values(CommitNext(cfg, s).value.disk.live) == Values(s.disk.live)
  {
  }

  lemma {:induction false} CommitSyncNotesKeeps(cfg: Config, s: State)
    requires Sound(cfg) && Inv(cfg, s) && s.pc.CommitSync? && s.pc.i < 2
    ensures Inv(cfg, CommitNext(cfg, s).value)
  {
    hide Crashes, RecoverNext, BeginNext, WriteLive, EntryFor, Validates;
    GoalStays(cfg, s);
    assert Armed(cfg, CommitNext(cfg, s).value);
  }

  lemma {:induction false} CommitSyncFilesKeeps(cfg: Config, s: State)
    requires Sound(cfg) && Inv(cfg, s) && s.pc.CommitSync? && s.pc.i >= 2
    ensures Inv(cfg, CommitNext(cfg, s).value)
  {
    hide Crashes, RecoverNext, BeginNext, WriteLive, EntryFor, Validates;
    GoalStays(cfg, s);
    assert Armed(cfg, CommitNext(cfg, s).value);
  }

  lemma {:induction false} CommitMarkKeeps(cfg: Config, s: State)
    requires Sound(cfg) && Inv(cfg, s) && s.pc.CommitMark? && CommitNext(cfg, s).Some?
    ensures Inv(cfg, CommitNext(cfg, s).value)
  {
  }

  lemma {:induction false} CommitMarkSyncKeeps(cfg: Config, s: State)
    requires Sound(cfg) && Inv(cfg, s) && s.pc.CommitMarkSync? && CommitNext(cfg, s).Some?
    ensures Inv(cfg, CommitNext(cfg, s).value)
  {
  }

  lemma {:induction false} CommitDirSyncKeeps(cfg: Config, s: State)
    requires Sound(cfg) && Inv(cfg, s) && s.pc.CommitDirSync? && CommitNext(cfg, s).Some?
    ensures Inv(cfg, CommitNext(cfg, s).value)
  {
  }

  lemma {:induction false} WriteKeeps(cfg: Config, s: State, k: nat, inLog: bool, v: Option<Pages>)
    requires Sound(cfg) && Inv(cfg, s) && s.pc.Active? && WriteLive(cfg, s, k, inLog, v).Some?
    ensures Inv(cfg, WriteLive(cfg, s, k, inLog, v).value)
  {
  }

  lemma {:induction false} RecoverKeeps(cfg: Config, s: State, torn: Pages, victim: nat)
    requires Inv(cfg, s) && Recovering(s.pc) && RecoverNext(cfg, s, torn, victim).Some?
    ensures Inv(cfg, RecoverNext(cfg, s, torn, victim).value)
  {
    if s.pc.SettleDir? || s.pc.SettleTop? {
      SettleKeeps(cfg, s, torn, victim);
    } else if s.pc.Sweep? {
      SweepKeeps(cfg, s, torn, victim);
    } else if s.pc.Inspect? {
      InspectKeeps(cfg, s, torn, victim);
    } else if s.pc.Restore? && s.orig.At(s.pc.k).Db? {
      RestoreImageKeeps(cfg, s, torn, victim);
    } else if s.pc.Restore? {
      RestoreAbsenceKeeps(cfg, s, torn, victim);
    } else if s.pc.RestoreSync? {
      RestoreSyncKeeps(cfg, s, torn, victim);
    } else if s.pc.Retire? {
      RetireKeeps(cfg, s, torn, victim);
    } else if s.pc.RetireSync? {
      RetireSyncKeeps(cfg, s, torn, victim);
    } else if s.pc.Discard? {
      DiscardKeeps(cfg, s, torn, victim);
    } else {
      DiscardSyncKeeps(cfg, s, torn, victim);
    }
  }

  lemma {:induction false} BeginKeeps(cfg: Config, s: State, torn: Pages)
    requires Inv(cfg, s) && Beginning(s.pc) && BeginNext(cfg, s, torn).Some?
    ensures Inv(cfg, BeginNext(cfg, s, torn).value)
  {
    if s.pc.MakeDirectory? {
      MakeDirectoryKeeps(cfg, s, torn);
    } else if s.pc.Snapshot? {
      SnapshotKeeps(cfg, s, torn);
    } else if s.pc.WritePreparing? {
      WritePreparingKeeps(cfg, s, torn);
    } else if s.pc.SyncPreparing? {
      SyncPreparingKeeps(cfg, s, torn);
    } else if s.pc.Publish? {
      PublishKeeps(cfg, s, torn);
    } else if s.pc.SyncJournal? {
      SyncJournalKeeps(cfg, s, torn);
    } else {
      SyncParentKeeps(cfg, s, torn);
    }
  }

  lemma {:induction false} CommitKeeps(cfg: Config, s: State)
    requires Sound(cfg) && Inv(cfg, s) && Committing(s.pc) && CommitNext(cfg, s).Some?
    ensures Inv(cfg, CommitNext(cfg, s).value)
  {
    if s.pc.CommitSync? {
      if s.pc.i < 2 {
        CommitSyncNotesKeeps(cfg, s);
      } else {
        CommitSyncFilesKeeps(cfg, s);
      }
    } else if s.pc.CommitMark? {
      CommitMarkKeeps(cfg, s);
    } else if s.pc.CommitMarkSync? {
      CommitMarkSyncKeeps(cfg, s);
    } else {
      CommitDirSyncKeeps(cfg, s);
    }
  }

  lemma {:induction false} EntryKeeps(cfg: Config, s: State, a: Action)
    requires Inv(cfg, s) && (a.OrdinaryWrite? || a.Begin? || a.Startup?) && Step(cfg, s, a).Some?
    ensures Inv(cfg, Step(cfg, s, a).value)
  {
  }

  lemma {:induction false} CommitEntryKeeps(cfg: Config, s: State)
    requires Inv(cfg, s) && Step(cfg, s, Commit).Some?
    ensures Inv(cfg, Step(cfg, s, Commit).value)
  {
  }

  lemma {:induction false} AbandonKeeps(cfg: Config, s: State)
    requires Inv(cfg, s) && Step(cfg, s, Abandon).Some?
    ensures Inv(cfg, Step(cfg, s, Abandon).value)
  {
  }

  lemma {:induction false} StepKeeps(cfg: Config, s: State, a: Action)
    requires Sound(cfg) && Inv(cfg, s) && Step(cfg, s, a).Some?
    ensures Inv(cfg, Step(cfg, s, a).value)
  {
    match a
    case Next(torn, victim) =>
      if Recovering(s.pc) {
        RecoverKeeps(cfg, s, torn, victim);
      } else if Beginning(s.pc) {
        BeginKeeps(cfg, s, torn);
      } else {
        CommitKeeps(cfg, s);
      }
    case Write(k, inLog, v) => WriteKeeps(cfg, s, k, inLog, v);
    case PowerLoss(after) => PowerLossKeeps(cfg, s, after);
    case Commit => CommitEntryKeeps(cfg, s);
    case Abandon => AbandonKeeps(cfg, s);
    case Kill => KillKeeps(cfg, s);
    case _ => EntryKeeps(cfg, s, a);
  }
}

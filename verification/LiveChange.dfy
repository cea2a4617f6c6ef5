/**
 The journal's own methods.  Each updates the disk call by call, and each call is a step of the
 protocol machine, so that what holds over all runs of the machine, whatever the power losses,
 holds if one of these methods is cut anywhere.
 */
module LiveChange {
  import opened Wrappers
  import opened Durability
  import opened LiveRecovery
  import opened RecoverySafety
  import opened RecoveryTheorems

  class LiveDatabaseRecovery {
    const cfg: Config
    var disk: Disk
    var active: bool     // the database is in `_active`
    var finished: bool
    ghost const start: State
    ghost var acts: seq<Action>
    ghost var at: State

    /** The calls made so far are a run of the machine, and it is where this process is. */
    ghost predicate Tracks()
      reads this
    {
      OnTrack() && disk == at.disk
    }

    ghost predicate OnTrack()
      reads this`acts, this`at
    {
      cfg.names && Sound(cfg) && !cfg.settles && Run(cfg, start, acts) == Some(at) && Inv(cfg, at) && Shaped(at)
    }

    constructor (cfg: Config, ghost state: State, disk: Disk)
      requires cfg.names && Sound(cfg) && !cfg.settles && Inv(cfg, state) && state.disk == disk
      ensures Tracks() && acts == [] && at == state && start == state && this.disk == disk && this.cfg == cfg && !active
      ensures !finished
    {
      this.cfg, this.disk, active, finished := cfg, disk, false, false;
      start, acts, at := state, [], state;
    }

    ghost method Took(a: Action)
      requires OnTrack() && Step(cfg, at, a).Some? && Step(cfg, at, a).value.disk == disk
      modifies `acts, `at
      ensures Tracks() && acts == old(acts) + [a] && at == old(Step(cfg, at, a).value)
    {
      hide Inv, Run, Sound, Step;
      InvShaped(cfg, at);
      StepKeeps(cfg, at, a);
      RunOneMore(cfg, start, acts, at, a);
      acts, at := acts + [a], Step(cfg, at, a).value;
    }

    /** shutil.rmtree of whatever bears the name `.finished`, in any order of its entries. */
    method RemoveFinished()
      requires Tracks() && (at.pc.Sweep? || (at.pc.Discard? && !disk.stale))
      modifies `disk, `acts, `at
      ensures Tracks() && !disk.loc.Finished? && !disk.stale && disk.live == old(disk.live) && old(acts) <= acts
      ensures disk.loc.Nowhere? || disk.loc == old(disk.loc)
      ensures at == old(at).(disk := disk)
    {
      hide Inv, Run, Sound, DeleteOne, BeginNext, CommitNext, WriteLive, Crashes;
      while disk.loc.Finished? || disk.stale
        invariant Tracks() && disk.live == old(disk.live) && old(acts) <= acts && at == old(at).(disk := disk)
        invariant at.pc.Discard? ==> !disk.stale
        invariant disk.loc.Nowhere? || disk.loc == old(disk.loc)
        decreases Debris(disk)
      {
        InvShaped(cfg, at);
        ghost var some := DeleteEnabled(disk);
        SomeVictim(disk, some);
        var victim :| 0 <= victim <= 6 && DeleteOne(disk, victim).Some?;
        DeleteAdvances(disk, victim);
        DeleteKeepsLive(disk, victim);
        disk := DeleteOne(disk, victim).value;
        Took(Next(map[], victim));
      }
    }

    /** _copy_sqlite of an image onto its target. */
    method CopyBack(k: nat, ghost why: Why)
      requires Tracks() && k < 2 && at.pc == Restore(why, k, 0)
      requires disk.dir.ready.cur.Some? && |disk.dir.ready.cur.value.files| == 2
      requires disk.dir.ready.cur.value.files[k].existed
      requires disk.dir.img.At(k).cur.Some?
      modifies `disk, `acts, `at
      ensures Tracks() && old(acts) <= acts && at == old(at).(disk := disk, pc := AfterTarget(why, k))
      ensures disk.dir == old(disk.dir)
    {
      hide Put, Remove, Fsync, Inv, Run, Sound, BeginNext, CommitNext, WriteLive, Crashes;
      InvShaped(cfg, at);
      var torn: Pages := *;
      var g := disk.live.At(k);
      disk := disk.(live := disk.live.Set(k, Live(Put(g.main, torn), Put(g.wal, torn))));
      Took(Next(torn, 0));
      g := disk.live.At(k);
      disk := disk.(live := disk.live.Set(k, Live(Put(g.main, disk.dir.img.At(k).cur.value), Remove(g.wal))));
      Took(Next(torn, 0));
      g := disk.live.At(k);
      disk := disk.(live := disk.live.Set(k, g.(main := Fsync(cfg.names, g.main))));
      Took(Next(torn, 0));
    }

    /** A target that did not exist is removed with its log. */
    method RemoveTarget(k: nat, ghost why: Why)
      requires Tracks() && k < 2 && at.pc == Restore(why, k, 0)
      requires disk.dir.ready.cur.Some? && |disk.dir.ready.cur.value.files| == 2
      requires !disk.dir.ready.cur.value.files[k].existed
      modifies `disk, `acts, `at
      ensures Tracks() && old(acts) <= acts && at == old(at).(disk := disk, pc := AfterTarget(why, k))
      ensures disk.dir == old(disk.dir)
    {
      hide Inv, Run, Sound, BeginNext, CommitNext, WriteLive, Crashes;
      InvShaped(cfg, at);
      var g := disk.live.At(k);
      disk := disk.(live := disk.live.Set(k, g.(main := Remove(g.main))));
      Took(Next(map[], 0));
      g := disk.live.At(k);
      disk := disk.(live := disk.live.Set(k, g.(wal := Remove(g.wal))));
      Took(Next(map[], 0));
    }

    /** Both targets, as the ready manifest records them. */
    method RestoreTargets(ghost why: Why)
      requires Tracks() && at.pc == Restore(why, 0, 0)
      modifies `disk, `acts, `at
      ensures Tracks() && old(acts) <= acts && at == old(at).(disk := disk, pc := Retire(why))
      ensures disk.dir == old(disk.dir)
    {
      hide Inv, Run, Sound, BeginNext, CommitNext, WriteLive, Crashes;
      var manifest := disk.dir.ready.cur;
      for k := 0 to 2
        invariant Tracks() && old(acts) <= acts
        invariant at == old(at).(disk := disk, pc := if k == 2 then RestoreSync(why) else Restore(why, k, 0))
        invariant disk.dir == old(disk.dir)
      {
        RestoreReads(cfg, at);
        if manifest.value.files[k].existed {
          CopyBack(k, why);
        } else {
          RemoveTarget(k, why);
        }
      }
      InvShaped(cfg, at);
      disk := SyncTop(disk);
      Took(Next(map[], 0));
    }

    /** Take the journal away: rename, sync, delete, sync. */
    method RetireJournal(ghost why: Why)
      requires Tracks() && at.pc == Retire(why)
      modifies `disk, `acts, `at
      ensures Tracks() && old(acts) <= acts && at == Recovered(old(at).(disk := disk), why)
      ensures disk.loc.Nowhere? && Holds(disk.live, Expected(old(at)))
    {
      hide DeleteOne, Inv, Run, Sound, Values, BeginNext, CommitNext, WriteLive, Crashes, Holds, Expected, Settled;
      RetireIsFree(cfg, at);
      disk := disk.(loc := Finished, may := disk.may + {Finished});
      Took(Next(map[], 0));
      disk := SyncTop(disk);
      Took(Next(map[], 0));
      RemoveFinished();
      Took(Next(map[], 0));
      disk := SyncTop(disk);
      Took(Next(map[], 0));
      SyncKeepsHeld(old(disk), disk, Expected(old(at)));
    }

    /** _recover_locked.  With names made durable by fsync it never raises, and it ends with what is owed,
        whoever left the journal. */
    method RecoverLocked(ghost why: Why) returns (ok: bool)
      requires Tracks() && at.pc == Sweep(why)
      modifies `disk, `acts, `at
      ensures ok && Tracks() && old(acts) <= acts && at == Recovered(old(at).(disk := disk), why)
      ensures !disk.loc.Journal? && Holds(disk.live, Expected(old(at)))
    {
      hide Validates, DeleteOne, SyncTop, Inv, Run, Sound, BeginNext, CommitNext, WriteLive, Crashes, Values, Settled,
        Expected, Holds;
      RemoveFinished();
      InvShaped(cfg, at);
      Took(Next(map[], 0));
      InvShaped(cfg, at);
      SameExpected(old(at), at);
      if !disk.loc.Journal? {
        OwedAlready(cfg, at);
        Took(Next(map[], 0));
        return true;
      }
      if disk.dir.ready.cur.Some? && disk.dir.committed.cur.None? {
        PendingIsValid(cfg, at);
        if !Validates(cfg, disk, disk.dir.ready.cur.value) {
          return false;
        }
        Took(Next(map[], 0));
        RestoreTargets(why);
      } else {
        Took(Next(map[], 0));
      }
      SameExpected(old(at), at);
      RetireJournal(why);
      return true;
    }

    /** recover_pending_change: nothing is touched while this process has the change open. */
    method RecoverPendingChange()
      requires Tracks() && if active then at.pc.Active? else at.pc.Idle? || at.pc.Down? || at.pc.Failed?
      modifies `disk, `acts, `at
      ensures Tracks() && old(acts) <= acts
      ensures old(active) ==> disk == old(disk) && at == old(at)
      ensures !old(active) ==> !disk.loc.Journal? && Holds(disk.live, Expected(old(at)))
    {
      hide Inv, Run, Sound, Holds, Expected, RecoverNext, BeginNext, CommitNext, Crashes, WriteLive;
      if active {
        return;
      }
      if disk.loc.Nowhere? && !disk.stale {
        NothingPending(cfg, at);
        return;
      }
      InvShaped(cfg, at);
      Took(Startup);
      SameExpected(old(at), at);
      var ok := RecoverLocked(AtStartup);
    }

    /** _copy_sqlite of a target into its new image. */
    method CopyImage(k: nat)
      requires Tracks() && k < 2 && at.pc == Snapshot(k, 1) && disk.live.At(k).main.cur.Some?
      modifies `disk, `acts, `at
      ensures Tracks() && old(acts) <= acts
      ensures at == old(at).(disk := disk, pc := if k == 0 then Snapshot(1, 0) else WritePreparing)
      ensures disk.live == old(disk.live) && (k == 1 ==> disk.dir.img.notes == old(disk.dir.img.notes))
      ensures disk.dir.img.At(k).cur.Some?
    {
      hide Put, Fsync, Inv, Run, Sound, RecoverNext, CommitNext, WriteLive, Crashes;
      InvShaped(cfg, at);
      var torn: Pages := *;
      var image := disk.dir.img.At(k);
      disk := disk.(dir := disk.dir.(img := disk.dir.img.Set(k, Put(image, torn))));
      Took(Next(torn, 0));
      image := disk.dir.img.At(k);
      ghost var copied := image;
      disk := disk.(dir := disk.dir.(img := disk.dir.img.Set(k, Put(image, ValueOf(disk.live.At(k)).pages))));
      Took(Next(map[], 0));
      image := disk.dir.img.At(k);
      disk := disk.(dir := disk.dir.(img := disk.dir.img.Set(k, Fsync(cfg.names, image))));
      Took(Next(map[], 0));
      FlushedIsThere(cfg.names, copied, ValueOf(disk.live.At(k)).pages);
    }

    /** The image of one target and its entry in the manifest. */
    method SnapshotTarget(k: nat) returns (entry: Entry)
      requires Tracks() && k < 2 && at.pc == Snapshot(k, 0)
      modifies `disk, `acts, `at
      ensures Tracks() && old(acts) <= acts
      ensures at == old(at).(disk := disk, pc := if k == 0 then Snapshot(1, 0) else WritePreparing)
      ensures disk.live == old(disk.live) && (k == 1 ==> disk.dir.img.notes == old(disk.dir.img.notes))
      ensures entry == SnapshotEntry(cfg, disk, k)
    {
      hide Inv, Run, Sound, RecoverNext, CommitNext, WriteLive, Crashes;
      InvShaped(cfg, at);
      if disk.live.At(k).main.cur.None? {
        Took(Next(map[], 0));
        return Entry(k, false, 0);
      }
      var image := disk.dir.img.At(k);
      disk := disk.(dir := disk.dir.(img := disk.dir.img.Set(k, Put(image, map[]))));
      Took(Next(map[], 0));
      CopyImage(k);
      entry := Entry(k, true, cfg.hash(disk.dir.img.At(k).cur.value));
    }

    method Publish()
      requires Tracks() && at.pc.SyncJournal?
      modifies `disk, `acts, `at
      ensures Tracks() && old(acts) <= acts && at == old(at).(disk := disk, pc := Active)
      ensures disk.live == Two(SyncGroup(old(disk.live.notes)), SyncGroup(old(disk.live.files)))
    {
      hide Inv, Run, Sound, RecoverNext, CommitNext, WriteLive, Crashes;
      InvShaped(cfg, at);
      disk := disk.(dir := SyncDir(disk.dir));
      Took(Next(map[], 0));
      disk := SyncTop(disk);
      Took(Next(map[], 0));
    }

    method WriteManifest(manifest: Manifest)
      requires Tracks() && at.pc.WritePreparing? && manifest == SnapshotManifest(cfg, disk)
      modifies `disk, `acts, `at
      ensures Tracks() && old(acts) <= acts && at == old(at).(disk := disk, pc := Active)
      ensures Values(disk.live) == old(Values(disk.live))
    {
      hide Put, Fsync, Remove, Inv, Run, Sound, SnapshotManifest, Values, RecoverNext, CommitNext, WriteLive, Crashes;
      InvShaped(cfg, at);
      disk := disk.(dir := disk.dir.(preparing := Put(disk.dir.preparing, manifest)));
      Took(Next(map[], 0));
      disk := disk.(dir := disk.dir.(preparing := Fsync(cfg.names, disk.dir.preparing)));
      Took(Next(map[], 0));
      var written := disk.dir.preparing;
      disk := disk.(dir := disk.dir.(preparing := Remove(written), ready := Cell(written.cur, written.clean, Born)));
      Took(Next(map[], 0));
      Publish();
      SyncKeepsValues(old(disk), disk);
    }

    /** The journal of a new change: directory, images, manifest, and its publication. */
    method WriteSnapshot()
      requires Tracks() && at.pc.MakeDirectory? && !disk.loc.Journal?
      modifies `disk, `acts, `at
      ensures Tracks() && old(acts) <= acts && at == old(at).(disk := disk, pc := Active)
      ensures Values(disk.live) == old(Values(disk.live))
    {
      hide Inv, Run, Sound, Values, RecoverNext, CommitNext, WriteLive, Crashes;
      InvShaped(cfg, at);
      disk := disk.(dir := FreshDir(), loc := Journal, may := {Nowhere, Journal},
        staleMay := disk.staleMay || Finished in disk.may);
      Took(Next(map[], 0));
      var notes := SnapshotTarget(0);
      var files := SnapshotTarget(1);
      WriteManifest(Manifest(1, [notes, files]));
    }

    /** A change begins, after recovery of whatever journal there is, from the pair that recovery left, with a
        journal that can undo it. */
    method Begin() returns (raised: bool)
      requires Tracks() && !finished && if active then at.pc.Active? else at.pc.Idle? || at.pc.Down? || at.pc.Failed?
      modifies `disk, `active, `acts, `at
      ensures raised <==> old(active)
      ensures Tracks() && old(acts) <= acts && active && at.pc.Active?
      ensures raised ==> disk == old(disk) && at == old(at)
      ensures !raised ==> Values(disk.live) == at.orig == Expected(old(at)) && at.marker.Never?
    {
      hide Inv, Run, Sound, RecoverNext, BeginNext, CommitNext, Crashes, WriteLive, Expected;
      if active {
        return true;
      }
      InvShaped(cfg, at);
      Took(LiveRecovery.Begin);
      SameExpected(old(at), at);
      var ok := RecoverLocked(BeforeChange);
      WriteSnapshot();
      active := true;
      return false;
    }

    /** One write of the change's body: new contents of a database or of its log. */
    method Write(k: nat, inLog: bool, pages: Pages)
      requires Tracks() && at.pc.Active? && k < 2
      requires cfg.creates || (if inLog then disk.live.At(k).wal else disk.live.At(k).main).cur.Some?
      requires inLog ==> disk.live.At(k).main.cur.Some?
      modifies `disk, `acts, `at
      ensures Tracks() && old(acts) <= acts && at == old(at).(disk := disk)
      ensures disk.dir == old(disk.dir) && disk.loc == old(disk.loc) && disk.live.At(1 - k) == old(disk.live.At(1 - k))
      ensures if inLog then disk.live.At(k).wal.cur == Some(pages) && disk.live.At(k).main == old(disk.live.At(k).main)
        else disk.live.At(k).main.cur == Some(pages) && disk.live.At(k).wal == old(disk.live.At(k).wal)
    {
      hide Inv, Run, Sound, RecoverNext, BeginNext, CommitNext, Crashes;
      InvShaped(cfg, at);
      var g := disk.live.At(k);
      disk := disk.(live := disk.live.Set(k, if inLog then g.(wal := Put(g.wal, pages))
          else g.(main := Put(g.main, pages))));
      Took(LiveRecovery.Write(k, inLog, Some(pages)));
    }

    method SyncLive()
      requires Tracks() && at.pc == CommitSync(0)
      modifies `disk, `acts, `at
      ensures Tracks() && old(acts) <= acts && at == old(at).(disk := disk, pc := CommitMark)
      ensures disk.dir == old(disk.dir)
    {
      hide Fsync, Inv, Run, Sound, RecoverNext, BeginNext, WriteLive, Crashes;
      for i := 0 to 4
        invariant Tracks() && old(acts) <= acts
        invariant at == old(at).(disk := disk, pc := if i == 4 then CommitMark else CommitSync(i))
        invariant disk.dir == old(disk.dir)
      {
        InvShaped(cfg, at);
        var g := disk.live.At(i / 2);
        disk := disk.(live := disk.live.Set(i / 2,
          if i % 2 == 0 then g.(main := Fsync(cfg.names, g.main)) else g.(wal := Fsync(cfg.names, g.wal))));
        Took(Next(map[], 0));
      }
    }

    /** From here on recovery keeps what was written. */
    method Mark()
      requires Tracks() && at.pc.CommitMark?
      modifies `disk, `acts, `at
      ensures Tracks() && old(acts) <= acts && at == old(at).(disk := disk, pc := Sweep(AfterChange), marker := Durable)
      ensures disk.live == old(disk.live)
    {
      hide Put, Fsync, SyncDir, Inv, Run, Sound, RecoverNext, BeginNext, WriteLive, Crashes;
      InvShaped(cfg, at);
      disk := disk.(dir := disk.dir.(committed := Put(disk.dir.committed, ())));
      Took(Next(map[], 0));
      disk := disk.(dir := disk.dir.(committed := Fsync(cfg.names, disk.dir.committed)));
      Took(Next(map[], 0));
      disk := disk.(dir := SyncDir(disk.dir));
      Took(Next(map[], 0));
    }

    /** Afterwards both databases are on disk as the change left them, and the journal is gone. */
    method Commit()
      requires Tracks() && at.pc.Active? && !finished
      modifies `disk, `active, `finished, `acts, `at
      ensures Tracks() && old(acts) <= acts && at.pc.Idle? && at.marker.Durable? && !active && finished
      ensures Holds(disk.live, old(Values(disk.live))) && !disk.loc.Journal?
    {
      hide Inv, Run, Sound, Values, Holds, RecoverNext, BeginNext, WriteLive, Crashes;
      InvShaped(cfg, at);
      Took(LiveRecovery.Commit);
      SyncLive();
      Mark();
      Finish();
    }

    /** Undoes the change, unless its marker was already written; after a finish it does nothing. */
    method Rollback()
      requires Tracks() && (!finished ==> at.pc.Active? || Committing(at.pc))
      modifies `disk, `active, `finished, `acts, `at
      ensures Tracks() && old(acts) <= acts && finished
      ensures old(finished) ==> disk == old(disk) && at == old(at) && active == old(active)
      ensures !old(finished) ==> at.pc.Idle? && !active && Holds(disk.live, Expected(old(at))) && !disk.loc.Journal?
    {
      hide Inv, Run, Sound, Holds, Expected, RecoverNext, BeginNext, CommitNext, Crashes, WriteLive;
      if finished {
        return;
      }
      InvShaped(cfg, at);
      Took(Abandon);
      SameExpected(old(at), at);
      Finish();
    }

    method Finish()
      requires Tracks() && at.pc == Sweep(AfterChange)
      modifies `disk, `active, `finished, `acts, `at
      ensures Tracks() && old(acts) <= acts && at.pc.Idle? && at.marker == old(at.marker) && !active && finished
      ensures Holds(disk.live, Expected(old(at))) && !disk.loc.Journal?
    {
      hide Inv, Run, Sound, Holds, Expected;
      var ok := RecoverLocked(AfterChange);
      finished, active := true, false;
    }
  }

  lemma {:induction false} InvShaped(cfg: Config, s: State)
    requires Inv(cfg, s)
    ensures Shaped(s)
  {
  }

  lemma {:induction false} RunOneMore(cfg: Config, s: State, acts: seq<Action>, t: State, a: Action)
    requires Run(cfg, s, acts) == Some(t) && Shaped(t)
    ensures Run(cfg, s, acts + [a]) == Step(cfg, t, a)
  {
    assert (acts + [a])[..|acts + [a]| - 1] == acts;
  }

  lemma {:induction false} SomeVictim(d: Disk, victim: nat)
    requires DeleteOne(d, victim).Some?
    ensures victim <= 6
  {
  }

  lemma {:induction false} DeleteKeepsLive(d: Disk, victim: nat)
    requires DeleteOne(d, victim).Some?
    ensures DeleteOne(d, victim).value.live == d.live && (!d.stale ==> !DeleteOne(d, victim).value.stale)
    ensures DeleteOne(d, victim).value.loc.Nowhere? || DeleteOne(d, victim).value.loc == d.loc
  {
  }

  function AfterTarget(why: Why, k: nat): Pc {
    if k == 0 then Restore(why, 1, 0) else RestoreSync(why)
  }

  lemma {:induction false} RestoreReads(cfg: Config, s: State)
    requires cfg.names && Inv(cfg, s) && s.pc.Restore?
    ensures s.disk.dir.ready.cur.Some? && |s.disk.dir.ready.cur.value.files| == 2
    ensures s.disk.dir.ready.cur.value.files[s.pc.k].existed ==> s.disk.dir.img.At(s.pc.k).cur.Some?
  {
  }

  lemma {:induction false} RetireIsFree(cfg: Config, s: State)
    requires Inv(cfg, s) && s.pc.Retire?
    ensures Shaped(s) && !s.disk.stale && Holds(s.disk.live, Expected(s))
  {
  }

  /** Without a journal there is nothing to undo. */
  lemma {:induction false} OwedAlready(cfg: Config, s: State)
    requires Inv(cfg, s) && s.pc.Inspect? && !s.disk.loc.Journal?
    ensures Holds(s.disk.live, Expected(s))
  {
  }

  lemma {:induction false} SyncKeepsHeld(before: Disk, after: Disk, pair: Two<Value>)
    requires Holds(before.live, pair)
    requires after.live == Two(SyncGroup(SyncGroup(before.live.notes)), SyncGroup(SyncGroup(before.live.files)))
    ensures Holds(after.live, pair)
  {
  }

  lemma {:induction false} SyncKeepsValues(before: Disk, after: Disk)
    requires after.live.notes.main.cur == before.live.notes.main.cur
    requires after.live.notes.wal.cur == before.live.notes.wal.cur
    requires after.live.files.main.cur == before.live.files.main.cur
    requires after.live.files.wal.cur == before.live.files.wal.cur
    ensures Values(after.live) == Values(before.live)
  {
  }

  /** The images of a pending journal match its manifest. */
  lemma {:induction false} PendingIsValid(cfg: Config, s: State)
    requires cfg.names && Inv(cfg, s) && s.pc.Inspect? && s.disk.loc.Journal?
    requires s.disk.dir.ready.cur.Some? && s.disk.dir.committed.cur.None?
    ensures Validates(cfg, s.disk, s.disk.dir.ready.cur.value)
  {
    InspectKeeps(cfg, s, map[], 0);
  }

  lemma {:induction false} NothingPending(cfg: Config, s: State)
    requires Inv(cfg, s) && (s.pc.Idle? || s.pc.Down? || s.pc.Failed?) && s.disk.loc.Nowhere? && cfg.names
    ensures Holds(s.disk.live, Expected(s))
  {
  }

  lemma {:induction false} SameExpected(s: State, t: State)
    requires s.marker == t.marker && s.orig == t.orig && s.goal == t.goal
    ensures Expected(s) == Expected(t)
  {
  }

  lemma {:induction false} RunPrefix(cfg: Config, s: State, acts: seq<Action>, i: nat)
    requires Run(cfg, s, acts).Some? && i <= |acts|
    ensures Run(cfg, s, acts[..i]).Some?
    decreases |acts|
  {
    if i < |acts| {
      var front := acts[..|acts| - 1];
      RunPrefix(cfg, s, front, i);
      assert front[..i] == acts[..i];
    } else {
      assert acts[..i] == acts;
    }
  }

  /** Cut these calls after any of them, by a power loss whatever it leaves, or by killing the process outside
      the gaps: the next recovery, or the next change, ends recovery with both databases as they
      were, or both as they were written, as the marker decides. */
  lemma {:induction false} CutAnywhere(cfg: Config, start: State, acts: seq<Action>, i: nat, cut: Action, again: Action)
    returns (more: seq<Action>, end: State)
    requires cfg.names && Sound(cfg) && Reachable(cfg, start) && Run(cfg, start, acts).Some? && i <= |acts|
    requires (cut.PowerLoss? || cut.Kill?) && Run(cfg, start, acts[..i] + [cut]).Some?
    requires (again.Startup? || again.Begin?)
    ensures more != [] && more[0] == again && forall j :: 1 <= j < |more| ==> more[j].Next?
    ensures var down := Run(cfg, start, acts[..i] + [cut]).value;
      && Run(cfg, down, more) == Some(end) && (end.pc == if again.Begin? then MakeDirectory else Idle)
      && Holds(end.disk.live, Expected(down)) && (again.Begin? ==> end.orig == Expected(down))
  {
    hide Inv, Holds, Sound, Crashes, Expected, Run;
    ReachRun(cfg, start, acts[..i] + [cut]);
    CutGoesDown(cfg, start, acts[..i], cut);
    more, end := CrashRecovers(cfg, Run(cfg, start, acts[..i] + [cut]).value, again);
  }

  lemma {:induction false} CutGoesDown(cfg: Config, start: State, acts: seq<Action>, cut: Action)
    requires Run(cfg, start, acts + [cut]).Some? && (cut.PowerLoss? || cut.Kill?)
    ensures Run(cfg, start, acts + [cut]).value.pc.Down?
  {
    hide Crashes;
    assert (acts + [cut])[..|acts + [cut]| - 1] == acts;
  }

  /** These calls can be cut after any of them: power can always be lost, and the process killed outside the gaps. */
  lemma {:induction false} KillIsPossible(cfg: Config, start: State, acts: seq<Action>, i: nat)
    requires Run(cfg, start, acts).Some? && i <= |acts| && Reachable(cfg, start) && Sound(cfg)
    ensures Run(cfg, start, acts[..i]).Some?
    ensures GapAt(Run(cfg, start, acts[..i]).value.pc).None? ==> Run(cfg, start, acts[..i] + [Kill]).Some?
  {
    hide Inv, Sound, Crashes;
    RunPrefix(cfg, start, acts, i);
    ReachRun(cfg, start, acts[..i]);
    ReachableInv(cfg, Run(cfg, start, acts[..i]).value);
    InvShaped(cfg, Run(cfg, start, acts[..i]).value);
    RunOneMore(cfg, start, acts[..i], Run(cfg, start, acts[..i]).value, Kill);
  }

  lemma {:induction false} ReachRun(cfg: Config, s: State, acts: seq<Action>)
    requires Reachable(cfg, s) && Run(cfg, s, acts).Some?
    ensures Reachable(cfg, Run(cfg, s, acts).value)
    decreases |acts|
  {
    hide Step, Reachable;
    if acts != [] {
      ReachRun(cfg, s, acts[..|acts| - 1]);
      ReachStep(cfg, Run(cfg, s, acts[..|acts| - 1]).value, acts[|acts| - 1]);
    }
  }

  lemma {:induction false} FlushedIsThere(names: bool, c: Cell<Pages>, pages: Pages)
    ensures Fsync(names, Put(c, pages)).cur == Some(pages)
  {
  }
}

/** Where the promise of the journal ends: concrete runs that break it, and the exact condition. */
module RecoveryLimits {
  import opened Wrappers
  import opened Durability
  import opened LiveRecovery
  import opened RecoverySafety
  import opened RecoveryTheorems

  ghost function OldPages(): Pages { map[0 := 1] }

  ghost function Absent(): Live { Live(OnDisk(None), OnDisk(None)) }

  /** A namespace with a notes database and no files database. */
  ghost function StartLive(): Two<Live> {
    Two(Live(OnDisk(Some(OldPages())), OnDisk(None)), Absent())
  }

  ghost function StartPair(): Two<Value> {
    Two(Db(OldPages()), Gone)
  }

  ghost function Still(live: Two<Live>, dir: Dir, may: set<Loc>): Disk
  {
    Disk(live, dir, Journal, may, false, false)
  }

  ghost function Start(): State {
    State(Disk(StartLive(), FreshDir(), Nowhere, {Nowhere}, false, false), Idle, StartPair(), StartPair(), Never)
  }

  ghost function Image(cfg: Config): Cell<Pages> {
    Cell(Some(OldPages()), true, if cfg.names then Named else Born)
  }

  ghost function TheManifest(cfg: Config): Manifest {
    Manifest(1, [Entry(0, true, cfg.hash(OldPages())), Entry(1, false, 0)])
  }

  /** Just after the rename to `ready.json`, before the directory is synced. */
  ghost function AtPublish(cfg: Config): State {
    var dir := Dir(Two(Image(cfg), OnDisk(None)), Cell(None, true, Loose), Cell(Some(TheManifest(cfg)), true, Born),
        OnDisk(None));
    State(Still(StartLive(), dir, {Nowhere, Journal}), SyncJournal, StartPair(), StartPair(), Never)
  }

  ghost function ReadyDir(cfg: Config): Dir {
    Dir(Two(OnDisk(Some(OldPages())), OnDisk(None)), OnDisk(None), OnDisk(Some(TheManifest(cfg))), OnDisk(None))
  }

  ghost function Changing(cfg: Config): State {
    State(Still(StartLive(), ReadyDir(cfg), {Journal}), Active, StartPair(), StartPair(), Never)
  }

  /** One step, named by the state it leads to. */
  lemma {:induction false} Reach(cfg: Config, s: State, a: Action, t: State)
    requires Reachable(cfg, s) && Shaped(s) && Step(cfg, s, a) == Some(t)
    ensures Reachable(cfg, t)
  {
    ReachStep(cfg, s, a);
  }

  lemma {:induction false} StartValues()
    ensures Values(StartLive()) == StartPair()
  {
    assert OldPages() + map[] == OldPages();
  }

  lemma {:induction false} ReachStart(cfg: Config)
    ensures Reachable(cfg, Start())
  {
    StartValues();
    assert Fresh(Start());
    assert Run(cfg, Start(), []) == Some(Start());
  }

  /** From the call of recovery to its look at an empty or settled place. */
  lemma {:induction false} ReachInspect(cfg: Config, s: State, why: Why) returns (t: State)
    requires Reachable(cfg, s) && s.pc == RecoveryStart(cfg, why)
    requires s.disk.loc in s.disk.may && !s.disk.stale && !s.disk.staleMay && !s.disk.loc.Finished?
    requires cfg.settles ==> s.disk.may == {s.disk.loc} && SyncDir(s.disk.dir) == s.disk.dir && !s.marker.Tried?
    ensures Reachable(cfg, t) && t == s.(disk := t.disk, pc := Inspect(why))
    ensures t.disk == if cfg.settles then SyncTop(s.disk) else s.disk
  {
    t := s;
    if cfg.settles {
      t := s.(pc := SettleTop(why));
      Reach(cfg, s, Next(map[], 0), t);
      var u := s.(disk := SyncTop(s.disk), pc := Sweep(why));
      Reach(cfg, t, Next(map[], 0), u);
      t := u;
    }
    var u := t.(pc := Inspect(why));
    Reach(cfg, t, Next(map[], 0), u);
    t := u;
  }

  lemma {:induction false} ReachSnapshot(cfg: Config)
    ensures Reachable(cfg,
        State(Still(StartLive(), FreshDir(), {Nowhere, Journal}), Snapshot(0, 0), StartPair(), StartPair(), Never))
  {
    var s0 := Start();
    ReachStart(cfg);
    StartValues();
    Reach(cfg, s0, Begin, s0.(pc := RecoveryStart(cfg, BeforeChange)));
    var s2 := ReachInspect(cfg, s0.(pc := RecoveryStart(cfg, BeforeChange)), BeforeChange);
    var s3 := s0.(pc := MakeDirectory);
    Reach(cfg, s2, Next(map[], 0), s3);
    Reach(cfg, s3, Next(map[], 0),
        s0.(disk := Still(StartLive(), FreshDir(), {Nowhere, Journal}), pc := Snapshot(0, 0)));
  }

  ghost function Imaging(img: Cell<Pages>, i: nat): State {
    State(Still(StartLive(), FreshDir().(img := Two(img, OnDisk(None))), {Nowhere, Journal}), Snapshot(0, i),
        StartPair(), StartPair(), Never)
  }

  lemma {:induction false} ReachImage(cfg: Config)
    ensures Reachable(cfg, Imaging(Cell(Some(OldPages()), false, Born), 3))
  {
    hide Reachable, Values, RecoverNext, CommitNext, WriteLive, Crashes;
    ReachSnapshot(cfg);
    var s1 := Imaging(Cell(Some(map[]), false, Born), 1);
    Reach(cfg, Imaging(OnDisk(None), 0), Next(map[], 0), s1);
    var s2 := Imaging(Cell(Some(map[]), false, Born), 2);
    Reach(cfg, s1, Next(map[], 0), s2);
    assert ValueOf(StartLive().notes).pages == OldPages();
    Reach(cfg, s2, Next(map[], 0), Imaging(Cell(Some(OldPages()), false, Born), 3));
  }

  lemma {:induction false} ReachManifest(cfg: Config)
    ensures Reachable(cfg,
        State(Still(StartLive(), FreshDir().(img := Two(Image(cfg), OnDisk(None))), {Nowhere, Journal}),
                                 WritePreparing, StartPair(), StartPair(), Never))
  {
    hide Reachable, Values, RecoverNext, CommitNext, WriteLive, Crashes;
    ReachImage(cfg);
    var s0 := Imaging(Cell(Some(OldPages()), false, Born), 3);
    var s1 := Imaging(Image(cfg), 0).(pc := Snapshot(1, 0));
    Reach(cfg, s0, Next(map[], 0), s1);
    Reach(cfg, s1, Next(map[], 0), s1.(pc := WritePreparing));
  }

  lemma {:induction false} ReachPublished(cfg: Config)
    ensures Reachable(cfg, AtPublish(cfg))
  {
    hide Reachable, Values, RecoverNext, CommitNext, WriteLive, Crashes;
    ReachManifest(cfg);
    var s0 := State(Still(StartLive(), FreshDir().(img := Two(Image(cfg), OnDisk(None))), {Nowhere, Journal}),
                    WritePreparing, StartPair(), StartPair(), Never);
    assert SnapshotManifest(cfg, s0.disk) == TheManifest(cfg);
    ReachStep(cfg, s0, Next(map[], 0));
    var s1 := Step(cfg, s0, Next(map[], 0)).value;
    ReachStep(cfg, s1, Next(map[], 0));
    var s2 := Step(cfg, s1, Next(map[], 0)).value;
    ReachStep(cfg, s2, Next(map[], 0));
    assert Step(cfg, s2, Next(map[], 0)).value == AtPublish(cfg);
  }

  /** The journal is synced and the directory that holds it is not. */
  ghost function AtPlace(cfg: Config): State {
    Changing(cfg).(disk := Still(StartLive(), ReadyDir(cfg), {Nowhere, Journal}), pc := SyncParent)
  }

  lemma {:induction false} ReachPlace(cfg: Config)
    ensures Reachable(cfg, AtPlace(cfg))
  {
    ReachPublished(cfg);
    Reach(cfg, AtPublish(cfg), Next(map[], 0), AtPlace(cfg));
  }

  lemma {:induction false} ReachChanging(cfg: Config)
    ensures Reachable(cfg, Changing(cfg))
  {
    ReachPlace(cfg);
    Reach(cfg, AtPlace(cfg), Next(map[], 0), Changing(cfg));
  }

  /** The marker is durable and the process has not started to retire the journal. */
  ghost function Marked(cfg: Config, live: Two<Live>, goal: Two<Value>): State {
    State(Still(live, ReadyDir(cfg).(committed := Cell(Some(()), true, Named)), {Journal}),
          RecoveryStart(cfg, AfterChange), StartPair(), goal, Durable)
  }

  ghost function Flush(cfg: Config, g: Live): Live {
    Live(Fsync(cfg.names, g.main), Fsync(cfg.names, g.wal))
  }

  /** Commit has flushed the live files and has not yet written the marker. */
  ghost function Flushed(cfg: Config, live: Two<Live>, goal: Two<Value>): State {
    State(Still(live, ReadyDir(cfg), {Journal}), CommitMark, StartPair(), goal, Never)
  }

  ghost function Syncing(cfg: Config, live: Two<Live>, goal: Two<Value>, i: nat): State {
    State(Still(live, ReadyDir(cfg), {Journal}), CommitSync(i), StartPair(), goal, Never)
  }

  lemma {:induction false} ReachCommit(cfg: Config, live: Two<Live>)
    requires Reachable(cfg, Changing(cfg).(disk := Still(live, ReadyDir(cfg), {Journal})))
    ensures Reachable(cfg, Syncing(cfg, live, Values(live), 0))
  {
    Reach(cfg, Changing(cfg).(disk := Still(live, ReadyDir(cfg), {Journal})), Commit,
        Syncing(cfg, live, Values(live), 0));
  }

  lemma {:induction false} ReachNotesFlushed(cfg: Config, live: Two<Live>)
    requires Reachable(cfg, Changing(cfg).(disk := Still(live, ReadyDir(cfg), {Journal})))
    ensures Reachable(cfg, Syncing(cfg, Two(Flush(cfg, live.notes), live.files), Values(live), 2))
  {
    hide Reachable, Values, RecoverNext, BeginNext, WriteLive, Crashes;
    ReachCommit(cfg, live);
    var n1 := Two(live.notes.(main := Fsync(cfg.names, live.notes.main)), live.files);
    Reach(cfg, Syncing(cfg, live, Values(live), 0), Next(map[], 0), Syncing(cfg, n1, Values(live), 1));
    var n2 := Two(Flush(cfg, live.notes), live.files);
    Reach(cfg, Syncing(cfg, n1, Values(live), 1), Next(map[], 0), Syncing(cfg, n2, Values(live), 2));
  }

  lemma {:induction false} ReachFlushed(cfg: Config, live: Two<Live>)
    requires Reachable(cfg, Changing(cfg).(disk := Still(live, ReadyDir(cfg), {Journal})))
    ensures Reachable(cfg, Flushed(cfg, Two(Flush(cfg, live.notes), Flush(cfg, live.files)), Values(live)))
  {
    hide Reachable, Values, RecoverNext, BeginNext, WriteLive, Crashes;
    ReachNotesFlushed(cfg, live);
    var n := Two(Flush(cfg, live.notes), live.files);
    var n1 := n.(files := live.files.(main := Fsync(cfg.names, live.files.main)));
    Reach(cfg, Syncing(cfg, n, Values(live), 2), Next(map[], 0), Syncing(cfg, n1, Values(live), 3));
    Reach(cfg, Syncing(cfg, n1, Values(live), 3), Next(map[], 0),
          Flushed(cfg, Two(Flush(cfg, live.notes), Flush(cfg, live.files)), Values(live)));
  }

  /** The marker's file is flushed and its directory is not. */
  ghost function MarkFlushed(cfg: Config, live: Two<Live>, goal: Two<Value>): State {
    var dir := ReadyDir(cfg).(committed := Cell(Some(()), true, if cfg.names then Named else Born));
    State(Still(live, dir, {Journal}), CommitDirSync, StartPair(), goal, if cfg.names then Durable else Tried)
  }

  lemma {:induction false} ReachMarkFlushed(cfg: Config, live: Two<Live>, goal: Two<Value>)
    requires Reachable(cfg, Flushed(cfg, live, goal))
    ensures Reachable(cfg, MarkFlushed(cfg, live, goal))
  {
    var dir := ReadyDir(cfg).(committed := Cell(Some(()), false, Born));
    var s1 := State(Still(live, dir, {Journal}), CommitMarkSync, StartPair(), goal, Tried);
    Reach(cfg, Flushed(cfg, live, goal), Next(map[], 0), s1);
    Reach(cfg, s1, Next(map[], 0), MarkFlushed(cfg, live, goal));
  }

  lemma {:induction false} ReachMarked(cfg: Config, live: Two<Live>, goal: Two<Value>)
    requires Reachable(cfg, Flushed(cfg, live, goal))
    ensures Reachable(cfg, Marked(cfg, live, goal))
  {
    ReachMarkFlushed(cfg, live, goal);
    Reach(cfg, MarkFlushed(cfg, live, goal), Next(map[], 0), Marked(cfg, live, goal));
  }

  // ---------- recovery, run to its end ----------

  ghost function MarkedDir(cfg: Config): Dir {
    ReadyDir(cfg).(committed := OnDisk(Some(())))
  }

  /** Nothing but the place of the journal and what is synced differs. */
  ghost predicate SameLive(s: State, t: State) {
    t.marker == s.marker && t.orig == s.orig && t.goal == s.goal && Values(t.disk.live) == Values(s.disk.live)
  }

  lemma {:induction false} SyncKeepsLive(d: Disk)
    ensures Values(SyncTop(d).live) == Values(d.live)
  {
  }

  /** Deletion of a finished journal ends. */
  lemma {:induction false} DiscardRun(cfg: Config, s: State) returns (t: State)
    requires Reachable(cfg, s) && s.pc == Discard(AtStartup) && s.disk.loc in s.disk.may && !s.disk.stale
    requires !s.disk.loc.Journal?
    ensures Reachable(cfg, t) && t.pc.Idle? && SameLive(s, t)
    decreases Debris(s.disk)
  {
    hide Values, Debris, Reachable;
    if s.disk.loc.Finished? {
      var victim := DeleteEnabled(s.disk);
      DeleteAdvances(s.disk, victim);
      DeletedStays(s.disk, victim);
      var u := s.(disk := DeleteOne(s.disk, victim).value);
      Reach(cfg, s, Next(map[], victim), u);
      t := DiscardRun(cfg, u);
    } else {
      var u := s.(pc := DiscardSync(AtStartup));
      Reach(cfg, s, Next(map[], 0), u);
      SyncKeepsLive(s.disk);
      t := s.(disk := SyncTop(s.disk), pc := Idle);
      Reach(cfg, u, Next(map[], 0), t);
    }
  }

  lemma {:induction false} DeletedStays(d: Disk, victim: nat)
    requires DeleteOne(d, victim).Some? && d.loc in d.may && !d.stale && d.loc.Finished?
    ensures var after := DeleteOne(d, victim).value;
      after.live == d.live && after.loc in after.may && !after.stale && !after.loc.Journal?
  {
  }

  /** From the rename on, recovery leaves the live files as they are. */
  lemma {:induction false} RetireRun(cfg: Config, s: State) returns (t: State)
    requires Reachable(cfg, s) && s.pc == Retire(AtStartup) && s.disk.loc.Journal? && !s.disk.stale
    requires s.disk.loc in s.disk.may
    requires !s.disk.staleMay
    ensures Reachable(cfg, t) && t.pc.Idle? && SameLive(s, t)
  {
    hide Values, Reachable;
    var d := s.disk.(loc := Finished, may := s.disk.may + {Finished});
    var u := s.(disk := d, pc := RetireSync(AtStartup));
    Reach(cfg, s, Next(map[], 0), u);
    SyncKeepsLive(d);
    var v := s.(disk := SyncTop(d), pc := Discard(AtStartup));
    Reach(cfg, u, Next(map[], 0), v);
    t := DiscardRun(cfg, v);
  }

  lemma {:induction false} MarkedSurvives(cfg: Config, live: Two<Live>, left: Two<Live>)
    requires GroupCrashedTo(live.notes, left.notes) && GroupCrashedTo(live.files, left.files)
    ensures Crashes(Marked(cfg, live, StartPair()).disk, Still(left, MarkedDir(cfg), {Journal}))
  {
  }

  lemma {:induction false} MarkedIsSynced(cfg: Config)
    ensures SyncDir(MarkedDir(cfg)) == MarkedDir(cfg)
  {
  }

  /** Power is lost as soon as the marker is durable, and recovery then runs to its end. */
  lemma {:induction false} CrashMarked(cfg: Config, live: Two<Live>, goal: Two<Value>, left: Two<Live>)
    returns (t: State)
    requires Reachable(cfg, Marked(cfg, live, goal))
    requires GroupCrashedTo(live.notes, left.notes) && GroupCrashedTo(live.files, left.files)
    ensures Reachable(cfg, t) && t.pc.Idle? && t.marker.Durable? && t.goal == goal
    ensures Values(t.disk.live) == Values(left)
  {
    hide Reachable, Values, BeginNext, CommitNext, WriteLive, DeleteOne, Validates;
    var s0 := Marked(cfg, live, goal);
    var after := Still(left, MarkedDir(cfg), {Journal});
    var s1 := State(after, Down, StartPair(), goal, Durable);
    MarkedSurvives(cfg, live, left);
    Reach(cfg, s0, PowerLoss(after), s1);
    MarkedIsSynced(cfg);
    var s2 := s1.(pc := RecoveryStart(cfg, AtStartup));
    Reach(cfg, s1, Startup, s2);
    var s3 := ReachInspect(cfg, s2, AtStartup);
    SyncKeepsLive(after);
    var s4 := s3.(pc := Retire(AtStartup));
    Reach(cfg, s3, Next(map[], 0), s4);
    t := RetireRun(cfg, s4);
  }

  /** Putting both targets back from the journal of `Changing`. */
  lemma {:induction false} RestoreNotes(cfg: Config, s: State, why: Why) returns (t: State)
    requires Reachable(cfg, s) && s.pc == Restore(why, 0, 0) && Shaped(s)
    requires s.disk.dir.ready.cur == Some(TheManifest(cfg)) && s.disk.dir.img.notes.cur == Some(OldPages())
    ensures Reachable(cfg, t) && t == s.(disk := s.disk.(live := t.disk.live), pc := Restore(why, 1, 0))
    ensures t.disk.live.files == s.disk.live.files && ValueOf(t.disk.live.notes) == Db(OldPages())
  {
    hide Reachable;
    assert TheManifest(cfg).files[0].existed;
    var g := s.disk.live.notes;
    var g1 := Live(Put(g.main, map[]), Put(g.wal, map[]));
    var s1 := s.(disk := s.disk.(live := Two(g1, s.disk.live.files)), pc := Restore(why, 0, 1));
    Reach(cfg, s, Next(map[], 0), s1);
    var g2 := Live(Put(g1.main, OldPages()), Remove(g1.wal));
    var s2 := s.(disk := s.disk.(live := Two(g2, s.disk.live.files)), pc := Restore(why, 0, 2));
    Reach(cfg, s1, Next(map[], 0), s2);
    var g3 := g2.(main := Fsync(cfg.names, g2.main));
    t := s.(disk := s.disk.(live := Two(g3, s.disk.live.files)), pc := Restore(why, 1, 0));
    Reach(cfg, s2, Next(map[], 0), t);
    assert OldPages() + map[] == OldPages();
  }

  lemma {:induction false} RestoreFiles(cfg: Config, s: State, why: Why) returns (t: State)
    requires Reachable(cfg, s) && s.pc == Restore(why, 1, 0) && Shaped(s)
    requires s.disk.dir.ready.cur == Some(TheManifest(cfg)) && s.disk.live.files == Absent()
    ensures Reachable(cfg, t) && t == s.(disk := SyncTop(s.disk), pc := Retire(why))
  {
    hide Reachable, SyncTop;
    assert !TheManifest(cfg).files[1].existed;
    var s1 := s.(pc := Restore(why, 1, 1));
    Reach(cfg, s, Next(map[], 0), s1);
    var s2 := s.(pc := RestoreSync(why));
    Reach(cfg, s1, Next(map[], 0), s2);
    t := s.(disk := SyncTop(s.disk), pc := Retire(why));
    Reach(cfg, s2, Next(map[], 0), t);
  }

  lemma {:induction false} RestoreRun(cfg: Config, s: State, why: Why) returns (t: State)
    requires Reachable(cfg, s) && s.pc == Restore(why, 0, 0) && Shaped(s) && s.disk.live.files == Absent()
    requires s.disk.dir.ready.cur == Some(TheManifest(cfg)) && s.disk.dir.img.notes.cur == Some(OldPages())
    ensures Reachable(cfg, t) && t == s.(disk := SyncTop(s.disk.(live := t.disk.live)), pc := Retire(why))
    ensures Values(t.disk.live) == StartPair()
  {
    hide Reachable;
    var s1 := RestoreNotes(cfg, s, why);
    t := RestoreFiles(cfg, s1, why);
  }

  /** A journal with its manifest and image, found unmarked, is recovered. */
  lemma {:induction false} StartRestoring(cfg: Config, s: State) returns (t: State)
    requires !cfg.settles && Reachable(cfg, s) && s.pc.Down? && s.disk.loc.Journal? && s.disk.loc in s.disk.may
    requires !s.disk.stale && !s.disk.staleMay
    requires s.disk.dir.ready.cur == Some(TheManifest(cfg)) && s.disk.dir.img.notes.cur == Some(OldPages())
    requires s.disk.dir.committed.cur.None?
    ensures Reachable(cfg, t) && t == s.(pc := Restore(AtStartup, 0, 0))
  {
    var s1 := s.(pc := Sweep(AtStartup));
    Reach(cfg, s, Startup, s1);
    var s2 := ReachInspect(cfg, s1, AtStartup);
    assert Validates(cfg, s2.disk, TheManifest(cfg));
    t := s.(pc := Restore(AtStartup, 0, 0));
    Reach(cfg, s2, Next(map[], 0), t);
  }

  // ---------- the runs that break the promise ----------

  ghost function NewPages(): Pages { map[0 := 2] }

  ghost function NewLive(): Two<Live> {
    Two(Live(OnDisk(Some(NewPages())), OnDisk(None)), Absent())
  }

  ghost function NewPair(): Two<Value> {
    Two(Db(NewPages()), Gone)
  }

  /** A change of the notes, committed and marked. */
  lemma {:induction false} ReachNewMarked(cfg: Config)
    ensures Reachable(cfg, Marked(cfg, NewLive(), NewPair()))
  {
    ReachChanging(cfg);
    var live := Two(Live(Cell(Some(NewPages()), false, Named), OnDisk(None)), Absent());
    Reach(cfg, Changing(cfg), Write(0, false, Some(NewPages())),
        Changing(cfg).(disk := Still(live, ReadyDir(cfg), {Journal})));
    ReachFlushed(cfg, live);
    assert Two(Flush(cfg, live.notes), Flush(cfg, live.files)) == NewLive();
    assert NewPages() + map[] == NewPages();
    assert Values(live) == NewPair();
    ReachMarked(cfg, NewLive(), NewPair());
  }

  ghost function Moved(live: Two<Live>, dir: Dir): Disk {
    Disk(live, dir, Finished, {Journal} + {Finished}, false, false)
  }

  /** The process is killed between the rename to `.finished` and the sync of its parent, and the next one starts
      deleting what it finds. */
  lemma {:induction false} KilledAfterRename(cfg: Config, s: State, live: Two<Live>, dir: Dir, victim: nat, less: Dir)
    returns (t: State)
    requires Renamed in cfg.kills && !cfg.settles && Reachable(cfg, s)
    requires s.pc == Retire(AfterChange) && s.disk == Still(live, dir, {Journal})
    requires DeleteOne(Moved(live, dir), victim) == Some(Moved(live, less))
    ensures Reachable(cfg, t) && t == s.(disk := Moved(live, less), pc := Sweep(AtStartup))
  {
    hide Reachable, Values, BeginNext, CommitNext, WriteLive, DeleteOne, Validates, Crashes;
    var s1 := s.(disk := Moved(live, dir), pc := RetireSync(AfterChange));
    Reach(cfg, s, Next(map[], 0), s1);
    var s2 := s1.(pc := Down);
    Reach(cfg, s1, Kill, s2);
    var s3 := s1.(pc := Sweep(AtStartup));
    Reach(cfg, s2, Startup, s3);
    t := s.(disk := Moved(live, less), pc := Sweep(AtStartup));
    Reach(cfg, s3, Next(map[], victim), t);
  }

  /** That one deletes `committed`, power is lost, and the journal is back without its marker: the next
      recovery undoes a change that was committed. */
  lemma {:induction false} CommittedChangeUndone(cfg: Config)
    requires Renamed in cfg.kills && !cfg.settles
    ensures !AllOrNothing(cfg)
  {
    hide Reachable, BeginNext, CommitNext, WriteLive, Validates;
    ReachNewMarked(cfg);
    var s0 := Marked(cfg, NewLive(), NewPair());
    var s1 := ReachInspect(cfg, s0, AfterChange);
    var s2 := s1.(pc := Retire(AfterChange));
    Reach(cfg, s1, Next(map[], 0), s2);
    var less := s0.disk.dir.(committed := Cell(None, true, Loose));
    var s3 := KilledAfterRename(cfg, s2, NewLive(), s0.disk.dir, 4, less);
    UndoneAfterLoss(cfg, s3, less);
  }

  lemma {:induction false} UndoneAfterLoss(cfg: Config, s: State, less: Dir)
    requires !cfg.settles && Reachable(cfg, s)
    requires s == State(Moved(NewLive(), less), Sweep(AtStartup), StartPair(), NewPair(), Durable)
    requires less == ReadyDir(cfg).(committed := Cell(None, true, Loose))
    ensures !AllOrNothing(cfg)
  {
    hide Reachable, BeginNext, CommitNext, WriteLive, Validates, DeleteOne, RecoverNext;
    var s1 := State(Still(NewLive(), ReadyDir(cfg), {Journal}), Down, StartPair(), NewPair(), Durable);
    Reach(cfg, s, PowerLoss(s1.disk), s1);
    var s2 := StartRestoring(cfg, s1);
    var s3 := RestoreRun(cfg, s2, AtStartup);
    SyncKeepsLive(s3.disk);
    var t := RetireRun(cfg, s3);
    PairsDiffer();
  }

  lemma {:induction false} PairsDiffer()
    ensures StartPair() != NewPair()
  {
    assert OldPages()[0] != NewPages()[0];
  }

  /** If it deletes an image instead, recovery raises at every start. */
  lemma {:induction false} HalfDeletedJournalRefused(cfg: Config)
    requires Renamed in cfg.kills && !cfg.settles
    ensures !NeverFails(cfg)
  {
    hide Reachable, Values, BeginNext, CommitNext, WriteLive, Crashes;
    ReachChanging(cfg);
    var s0 := Changing(cfg);
    Reach(cfg, s0, Abandon, s0.(pc := Sweep(AfterChange)));
    var s1 := ReachInspect(cfg, s0.(pc := Sweep(AfterChange)), AfterChange);
    assert Validates(cfg, s1.disk, TheManifest(cfg));
    var s2 := s0.(pc := Restore(AfterChange, 0, 0));
    Reach(cfg, s1, Next(map[], 0), s2);
    var s3 := RestoreRun(cfg, s2, AfterChange);
    var live, dir := s3.disk.live, ReadyDir(cfg);
    assert s3.disk == Still(live, dir, {Journal});
    var less := dir.(img := Two(Cell(None, true, Loose), OnDisk(None)));
    var s4 := KilledAfterRename(cfg, s3, live, dir, 0, less);
    RefusedAfterLoss(cfg, s4, live, less);
  }

  lemma {:induction false} RefusedAfterLoss(cfg: Config, s: State, live: Two<Live>, less: Dir)
    requires !cfg.settles && Reachable(cfg, s) && s.pc == Sweep(AtStartup) && s.disk == Moved(live, less)
    requires s.orig == s.goal == StartPair() && s.marker.Never?
    requires less == ReadyDir(cfg).(img := Two(Cell(None, true, Loose), OnDisk(None)))
    ensures !NeverFails(cfg)
  {
    var after := Unnamed(cfg).(live := AsSeen(live));
    AsSeenSurvives(live.notes);
    AsSeenSurvives(live.files);
    var s1 := State(after, Down, StartPair(), StartPair(), Never);
    Reach(cfg, s, PowerLoss(after), s1);
    InspectUnnamed(cfg, s1);
  }

  /** A power loss after which everything is as it was seen. */
  ghost function AsSeen(live: Two<Live>): Two<Live> {
    Two(SeenGroup(live.notes), SeenGroup(live.files))
  }

  ghost function SeenGroup(g: Live): Live {
    Live(OnDisk(g.main.cur), OnDisk(g.wal.cur))
  }

  lemma {:induction false} AsSeenSurvives(g: Live)
    ensures GroupCrashedTo(g, SeenGroup(g))
  {
  }

  /** The process is killed before the journal is sure to be found again, the next one starts to
      restore from it, power is lost, and the journal is gone: a torn copy stays. */
  lemma {:induction false} TornCopyStays(cfg: Config, s: State)
    requires !cfg.settles && Reachable(cfg, s) && s.pc.Down? && s.marker.Never? && s.orig == StartPair()
    requires s.disk == Still(StartLive(), s.disk.dir, {Nowhere, Journal})
    requires s.disk.dir.ready.cur == Some(TheManifest(cfg)) && s.disk.dir.img.notes.cur == Some(OldPages())
    requires s.disk.dir.committed.cur.None?
    ensures !AllOrNothing(cfg)
  {
    var s1 := StartRestoring(cfg, s);
    assert TheManifest(cfg).files[0].existed;
    var g := StartLive().notes;
    var torn := Two(Live(Put(g.main, NewPages()), Put(g.wal, NewPages())), Absent());
    var s2 := s1.(disk := s.disk.(live := torn), pc := Restore(AtStartup, 0, 1));
    Reach(cfg, s1, Next(NewPages(), 0), s2);
    var after := Disk(NewLive(), LostDir(s.disk.dir), Nowhere, {Nowhere}, false, false);
    LossIsPossible(s2.disk, after);
    GoneAfterLoss(cfg, s2, torn, after);
  }

  lemma {:induction false} LossIsPossible(d: Disk, after: Disk)
    requires d.live == Two(Live(Put(OnDisk(Some(OldPages())), NewPages()), Put(OnDisk(None), NewPages())), Absent())
    requires d == Still(d.live, d.dir, {Nowhere, Journal})
    requires after == Disk(NewLive(), LostDir(d.dir), Nowhere, {Nowhere}, false, false)
    ensures Crashes(d, after)
  {
  }

  lemma {:induction false} GoneAfterLoss(cfg: Config, s: State, torn: Two<Live>, after: Disk)
    requires !cfg.settles && Reachable(cfg, s) && Shaped(s) && Nowhere in s.disk.may && s.marker.Never?
    requires s.orig == StartPair()
    requires after == Disk(NewLive(), LostDir(s.disk.dir), Nowhere, {Nowhere}, false, false)
    requires Crashes(s.disk, after)
    ensures !AllOrNothing(cfg)
  {
    hide Reachable, BeginNext, CommitNext, WriteLive, DeleteOne, Validates;
    var s1 := s.(disk := after, pc := Down);
    Reach(cfg, s, PowerLoss(after), s1);
    var s2 := s1.(pc := Sweep(AtStartup));
    Reach(cfg, s1, Startup, s2);
    var s3 := ReachInspect(cfg, s2, AtStartup);
    Reach(cfg, s3, Next(map[], 0), s1.(pc := Idle));
    assert NewPages() + map[] == NewPages();
    assert OldPages()[0] != NewPages()[0];
  }

  ghost function LostDir(dir: Dir): Dir {
    Dir(Two(OnDisk(dir.img.notes.cur), OnDisk(dir.img.files.cur)), OnDisk(dir.preparing.cur), OnDisk(dir.ready.cur),
        OnDisk(dir.committed.cur))
  }

  lemma {:induction false} UnsyncedJournalUsed(cfg: Config)
    requires !cfg.settles && (Published in cfg.kills || Placed in cfg.kills)
    ensures !AllOrNothing(cfg)
  {
    if Published in cfg.kills {
      ReachPublished(cfg);
      Reach(cfg, AtPublish(cfg), Kill, AtPublish(cfg).(pc := Down));
      TornCopyStays(cfg, AtPublish(cfg).(pc := Down));
    } else {
      ReachPlace(cfg);
      Reach(cfg, AtPlace(cfg), Kill, AtPlace(cfg).(pc := Down));
      TornCopyStays(cfg, AtPlace(cfg).(pc := Down));
    }
  }

  /** A database file the change creates is lost by a power loss after a durable marker, because
      commit flushes the file but not the directory that names it. */
  lemma {:induction false} CreatedFileLost(cfg: Config)
    requires cfg.creates && !cfg.names
    ensures !AllOrNothing(cfg)
  {
    ReachChanging(cfg);
    var files := Live(Cell(Some(NewPages()), false, Born), OnDisk(None));
    ReachStep(cfg, Changing(cfg), Write(1, false, Some(NewPages())));
    var live := Two(StartLive().notes, files);
    assert Step(cfg, Changing(cfg), Write(1, false, Some(NewPages()))).value.disk
        == Still(live, ReadyDir(cfg), {Journal});
    ReachFlushed(cfg, live);
    var flushed := Two(Flush(cfg, live.notes), Flush(cfg, live.files));
    ReachMarked(cfg, flushed, Values(live));
    var t := CrashMarked(cfg, flushed, Values(live), StartLive());
    assert ValueOf(files).Db? && ValueOf(StartLive().files).Gone?;
  }

  /** A database file the change removes comes back after a durable marker. */
  lemma {:induction false} RemovedFileReturns(cfg: Config)
    requires cfg.unlinks
    ensures !AllOrNothing(cfg)
  {
    ReachChanging(cfg);
    ReachStep(cfg, Changing(cfg), Write(0, false, None));
    var live := Two(Live(Cell(None, true, Loose), OnDisk(None)), Absent());
    assert Step(cfg, Changing(cfg), Write(0, false, None)).value.disk == Still(live, ReadyDir(cfg), {Journal});
    ReachFlushed(cfg, live);
    var flushed := Two(Flush(cfg, live.notes), Flush(cfg, live.files));
    ReachMarked(cfg, flushed, Values(live));
    var t := CrashMarked(cfg, flushed, Values(live), StartLive());
    assert ValueOf(live.notes).Gone? && ValueOf(StartLive().notes).Db?;
  }

  /** The ready manifest can outlive the name of an image, and recovery then raises for ever. */
  ghost function Unnamed(cfg: Config): Disk {
    Still(StartLive(), FreshDir().(ready := OnDisk(Some(TheManifest(cfg)))), {Journal})
  }

  lemma {:induction false} ManifestOutlivesImage(cfg: Config)
    requires !cfg.names
    ensures Crashes(AtPublish(cfg).disk, Unnamed(cfg))
  {
    assert CrashedTo(Image(cfg), OnDisk(None));
  }

  lemma {:induction false} ImageNameLost(cfg: Config)
    requires !cfg.names
    ensures !NeverFails(cfg)
  {
    ReachPublished(cfg);
    ManifestOutlivesImage(cfg);
    var s0 := State(Unnamed(cfg), Down, StartPair(), StartPair(), Never);
    Reach(cfg, AtPublish(cfg), PowerLoss(Unnamed(cfg)), s0);
    InspectUnnamed(cfg, s0);
  }

  lemma {:induction false} InspectUnnamed(cfg: Config, s0: State)
    requires s0.disk == Unnamed(cfg).(live := s0.disk.live) && s0.pc.Down? && s0.marker.Never?
    requires Reachable(cfg, s0)
    ensures !NeverFails(cfg)
  {
    hide Reachable, Values, BeginNext, CommitNext, WriteLive, DeleteOne, Crashes;
    SyncedAlready(cfg);
    var s1 := s0.(pc := RecoveryStart(cfg, AtStartup));
    Reach(cfg, s0, Startup, s1);
    var s2 := ReachInspect(cfg, s1, AtStartup);
    assert TheManifest(cfg).files[0].existed;
    Reach(cfg, s2, Next(map[], 0), s2.(pc := Failed));
  }

  lemma {:induction false} SyncedAlready(cfg: Config)
    ensures SyncDir(Unnamed(cfg).dir) == Unnamed(cfg).dir && SyncDir(MarkedDir(cfg)) == MarkedDir(cfg)
  {
  }

  // ---------- the exact conditions ----------

  /** All or nothing holds over every run, power losses and kills included, exactly when a live file the change may
      create has its name made durable by fsync, the change removes no live file, and no process is
      killed between a rename and its syncs, or recovery starts by making up for that. */
  lemma {:induction false} ExactlyWhenAllOrNothing(cfg: Config)
    ensures AllOrNothing(cfg) <==> (cfg.creates ==> cfg.names) && !cfg.unlinks && (cfg.settles || cfg.kills == {})
  {
    hide AllOrNothing;
    if Sound(cfg) {
      SoundIsAllOrNothing(cfg);
    } else if cfg.unlinks {
      RemovedFileReturns(cfg);
    } else if cfg.creates && !cfg.names {
      CreatedFileLost(cfg);
    } else {
      var gap :| gap in cfg.kills;
      if gap.Renamed? {
        CommittedChangeUndone(cfg);
      } else {
        UnsyncedJournalUsed(cfg);
      }
    }
  }

  /** Recovery also never gets stuck exactly when, besides, every fsync makes names durable. */
  lemma {:induction false} ExactlyWhenNeverStuck(cfg: Config)
    ensures AllOrNothing(cfg) && NeverFails(cfg) <==> cfg.names && !cfg.unlinks && (cfg.settles || cfg.kills == {})
  {
    hide AllOrNothing, NeverFails;
    ExactlyWhenAllOrNothing(cfg);
    if Sound(cfg) && cfg.names {
      SoundNeverFails(cfg);
    } else if !cfg.names {
      ImageNameLost(cfg);
    }
  }
}

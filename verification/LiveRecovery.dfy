/**
 The durable rollback journal around a change to a namespace's two live databases.

 The protocol is a step machine over a small file system.  Every step is one call
 that reaches the disk.  After any step, those of recovery included, power may be
 lost, which settles every name and content one way or the other, or the process may
 be killed, which settles nothing: the next process sees the disk as it was left.
 `orig`, `goal` and `marker` are bookkeeping for the theorems: the pair found when
 the change began, the pair it wrote, and what is known of the marker.
 */
module LiveRecovery {
  import opened Wrappers
  import opened Durability

  /** A database file is a map from page numbers to pages; its write-ahead log holds newer pages. */
  type Pages = map<nat, int>

  /** One item for each of the two databases of a namespace. */
  datatype Two<T> = Two(notes: T, files: T) {
    function At(k: nat): T { if k == 0 then notes else files }

    function Set(k: nat, v: T): Two<T> { if k == 0 then Two(v, files) else Two(notes, v) }
  }

  datatype Live = Live(main: Cell<Pages>, wal: Cell<Pages>)

  /** What a reader finds: nothing, a log without its database, or a database. */
  datatype Value = Gone | Stray(log: Pages) | Db(pages: Pages)

  datatype Entry = Entry(name: nat, existed: bool, sha256: int)
  datatype Manifest = Manifest(version: int, files: seq<Entry>)

  datatype Dir = Dir(
    img: Two<Cell<Pages>>, preparing: Cell<Manifest>, ready: Cell<Manifest>, committed: Cell<()>)

  datatype Loc = Nowhere | Journal | Finished

  /** `loc` is where the journal directory is seen and `may` where a power loss may leave it.
      `stale` is an older `.finished` directory that a power loss brought back. */
  datatype Disk = Disk(live: Two<Live>, dir: Dir, loc: Loc, may: set<Loc>, stale: bool, staleMay: bool)

  datatype Why = AtStartup | BeforeChange | AfterChange

  datatype Pc =
    | Idle | Down | Failed
      // the remedy: sync the journal directory and the one that holds it before recovering
    | SettleDir(why: Why) | SettleTop(why: Why)
      // _recover_locked
    | Sweep(why: Why) | Inspect(why: Why) | Restore(why: Why, k: nat, i: nat) | RestoreSync(why: Why)
    | Retire(why: Why) | RetireSync(why: Why) | Discard(why: Why) | DiscardSync(why: Why)
      // _write_snapshot
    | MakeDirectory | Snapshot(k: nat, i: nat) | WritePreparing | SyncPreparing | Publish
    | SyncJournal | SyncParent
      // the body of the change, then commit
    | Active | CommitSync(i: nat) | CommitMark | CommitMarkSync | CommitDirSync

  datatype Marker = Never | Tried | Durable

  datatype State = State(disk: Disk, pc: Pc, orig: Two<Value>, goal: Two<Value>, marker: Marker)

  /** The moments between a rename and the syncs that make it last: `.finished` renamed and its
      parent not synced; `ready.json` renamed and the journal not synced; the journal synced and
      its parent not. */
  datatype Gap = Renamed | Published | Placed

  /** `names`: fsync of a file also makes its name durable.  `creates` and `unlinks`: whether a
      change may create or remove live files.  `kills`: the gaps in which a process may be killed,
      as it may at every other moment.  `settles`: whether recovery starts with the remedy, which the
      program does not.  `hash` is the digest kept in the manifest. */
  datatype Config = Config(
    names: bool, creates: bool, unlinks: bool, kills: set<Gap>, settles: bool, hash: Pages -> int)

  datatype Action =
    | Next(torn: Pages, victim: nat)  // the process makes its next step
    | OrdinaryWrite(live: Two<Live>)  // settled writes made outside any change
    | Begin
    | Write(k: nat, inLog: bool, v: Option<Pages>)
    | Commit
    | Abandon                         // the body or commit raised: rollback
    | PowerLoss(after: Disk)
    | Kill
    | Startup                         // recover_pending_change

  // ---------- reading the disk ----------

  function ValueOf(g: Live): Value {
    if g.main.cur.Some? then Db(g.main.cur.value + (if g.wal.cur.Some? then g.wal.cur.value else map[]))
    else if g.wal.cur.Some? then Stray(g.wal.cur.value)
    else Gone
  }

  ghost function Values(live: Two<Live>): Two<Value>
  {
    Two(ValueOf(live.notes), ValueOf(live.files))
  }

  ghost predicate SettledGroup(g: Live) {
    g.main.Settled() && g.wal.Settled()
  }

  ghost predicate Settled(live: Two<Live>)
  {
    SettledGroup(live.notes) && SettledGroup(live.files)
  }

  function EntryFor(cfg: Config, k: nat, v: Value): Entry {
    Entry(k, v.Db?, if v.Db? then cfg.hash(v.pages) else 0)
  }

  function ManifestFor(cfg: Config, orig: Two<Value>): Manifest
  {
    Manifest(1, [EntryFor(cfg, 0, orig.notes), EntryFor(cfg, 1, orig.files)])
  }

  predicate ImageMatches(cfg: Config, d: Disk, k: nat, e: Entry)
  {
    e.name == k
    && (e.existed ==> d.dir.img.At(k).cur.Some? && cfg.hash(d.dir.img.At(k).cur.value) == e.sha256)
  }

  /** Version, target names, presence and checksum of both images. */
  predicate Validates(cfg: Config, d: Disk, m: Manifest)
  {
    m.version == 1 && |m.files| == 2
    && ImageMatches(cfg, d, 0, m.files[0]) && ImageMatches(cfg, d, 1, m.files[1])
  }

  // ---------- directory operations ----------

  function FreshDir(): Dir {
    Dir(Two(OnDisk(None), OnDisk(None)), OnDisk(None), OnDisk(None), OnDisk(None))
  }

  predicate DirEmpty(d: Dir)
  {
    d.img.notes.cur.None? && d.img.files.cur.None? && d.preparing.cur.None? && d.ready.cur.None? &&
        d.committed.cur.None?
  }

  function SyncDir(d: Dir): Dir
  {
    Dir(Two(SyncName(d.img.notes), SyncName(d.img.files)), SyncName(d.preparing), SyncName(d.ready),
        SyncName(d.committed))
  }

  function SyncGroup(g: Live): Live {
    Live(SyncName(g.main), SyncName(g.wal))
  }

  /** fsync of the directory that holds the live files, the journal and the finished directory. */
  function SyncTop(d: Disk): Disk
  {
    d.(live := Two(SyncGroup(d.live.notes), SyncGroup(d.live.files)), may := {d.loc}, staleMay := d.stale)
  }

  /** One step of removing `.finished`: some entry, or the emptied directory, or an older one. */
  function DeleteOne(d: Disk, victim: nat): Option<Disk>
  {
    if d.loc.Finished? && victim < 2 && d.dir.img.At(victim).cur.Some? then
      Some(d.(dir := d.dir.(img := d.dir.img.Set(victim, Remove(d.dir.img.At(victim))))))
    else if d.loc.Finished? && victim == 2 && d.dir.preparing.cur.Some? then
      Some(d.(dir := d.dir.(preparing := Remove(d.dir.preparing))))
    else if d.loc.Finished? && victim == 3 && d.dir.ready.cur.Some? then
      Some(d.(dir := d.dir.(ready := Remove(d.dir.ready))))
    else if d.loc.Finished? && victim == 4 && d.dir.committed.cur.Some? then
      Some(d.(dir := d.dir.(committed := Remove(d.dir.committed))))
    else if d.loc.Finished? && victim == 5 && DirEmpty(d.dir) then
      Some(d.(loc := Nowhere, may := d.may + {Nowhere}))
    else if d.stale && victim == 6 then
      Some(d.(stale := false))
    else None
  }

  // ---------- the machine ----------

  ghost predicate Shaped(s: State) {
    && s.disk.loc in s.disk.may && (s.disk.stale ==> s.disk.staleMay)
    && (s.pc.Restore? || s.pc.Snapshot? ==> s.pc.k < 2)
    && (s.pc.CommitSync? ==> s.pc.i < 4)
  }

  ghost predicate Recovering(pc: Pc) {
    || pc.SettleDir? || pc.SettleTop? || pc.Sweep? || pc.Inspect? || pc.Restore? || pc.RestoreSync?
    || pc.Retire? || pc.RetireSync? || pc.Discard? || pc.DiscardSync?
  }

  ghost predicate Beginning(pc: Pc) {
    || pc.MakeDirectory? || pc.Snapshot? || pc.WritePreparing? || pc.SyncPreparing? || pc.Publish?
    || pc.SyncJournal? || pc.SyncParent?
  }

  ghost predicate Committing(pc: Pc) {
    pc.CommitSync? || pc.CommitMark? || pc.CommitMarkSync? || pc.CommitDirSync?
  }

  ghost function GapAt(pc: Pc): Option<Gap> {
    match pc
    case RetireSync(_) => Some(Renamed)
    case SyncJournal => Some(Published)
    case SyncParent => Some(Placed)
    case _ => None
  }

  /** Where recovery starts. */
  ghost function RecoveryStart(cfg: Config, why: Why): Pc {
    if cfg.settles then SettleDir(why) else Sweep(why)
  }

  /** The end of recovery.  A change that follows starts from the pair that recovery left. */
  ghost function Recovered(s: State, why: Why): State {
    if why.BeforeChange? then State(s.disk, MakeDirectory, Values(s.disk.live), Values(s.disk.live), Never)
    else s.(pc := Idle)
  }

  ghost predicate NoStray(vs: Two<Value>) {
    !vs.notes.Stray? && !vs.files.Stray?
  }

  ghost function RecoverNext(cfg: Config, s: State, torn: Pages, victim: nat): Option<State>
    requires Shaped(s) && Recovering(s.pc)
  {
    var d := s.disk;
    match s.pc
    case SettleDir(why) =>
      if !d.loc.Journal? then Some(s.(pc := SettleTop(why)))
      else Some(s.(disk := d.(dir := SyncDir(d.dir)), pc := SettleTop(why), marker := if s.marker.Never? then Never
        else Durable))
    case SettleTop(why) => Some(s.(disk := SyncTop(d), pc := Sweep(why)))
    case Sweep(why) =>
      if d.loc.Finished? || d.stale then
        var d' := DeleteOne(d, victim);
        if d'.None? then None else Some(s.(disk := d'.value))
      else Some(s.(pc := Inspect(why)))
    case Inspect(why) =>
      if !d.loc.Journal? then Some(Recovered(s, why))
      else if d.dir.ready.cur.Some? && d.dir.committed.cur.None? then
        Some(s.(pc := if Validates(cfg, d, d.dir.ready.cur.value) then Restore(why, 0, 0) else Failed))
      else Some(s.(pc := Retire(why)))
    case Restore(why, k, i) =>
      if d.dir.ready.cur.None? || |d.dir.ready.cur.value.files| != 2 then None
      else
        var g := d.live.At(k);
        var next := if k == 0 then Restore(why, 1, 0) else RestoreSync(why);
        if d.dir.ready.cur.value.files[k].existed then
          // _copy_sqlite(image, target): a torn copy, the finished copy, then fsync
          if d.dir.img.At(k).cur.None? then None
          else if i == 0 then
            Some(s.(disk := d.(live := d.live.Set(k, Live(Put(g.main, torn), Put(g.wal, torn)))),
                pc := Restore(why, k, 1)))
          else if i == 1 then
            Some(s.(disk := d.(live := d.live.Set(k, Live(Put(g.main, d.dir.img.At(k).cur.value), Remove(g.wal)))),
                    pc := Restore(why, k, 2)))
          else Some(s.(disk := d.(live := d.live.Set(k, g.(main := Fsync(cfg.names, g.main)))), pc := next))
        else if i == 0 then
          Some(s.(disk := d.(live := d.live.Set(k, g.(main := Remove(g.main)))), pc := Restore(why, k, 1)))
        else Some(s.(disk := d.(live := d.live.Set(k, g.(wal := Remove(g.wal)))), pc := next))
    case RestoreSync(why) => Some(s.(disk := SyncTop(d), pc := Retire(why)))
    case Retire(why) =>
      if d.stale then Some(s.(pc := Failed))  // the rename target exists
      else Some(s.(disk := d.(loc := Finished, may := d.may + {Finished}), pc := RetireSync(why)))
    case RetireSync(why) => Some(s.(disk := SyncTop(d), pc := Discard(why)))
    case Discard(why) =>
      if d.loc.Finished? then
        var d' := DeleteOne(d, victim);
        if d'.None? then None else Some(s.(disk := d'.value))
      else Some(s.(pc := DiscardSync(why)))
    case DiscardSync(why) => Some(Recovered(s.(disk := SyncTop(d)), why))
  }

  ghost function BeginNext(cfg: Config, s: State, torn: Pages): Option<State>
    requires Shaped(s) && Beginning(s.pc)
  {
    var d := s.disk;
    match s.pc
    case MakeDirectory =>
      if d.loc.Journal? then Some(s.(pc := Failed))
      else Some(s.(disk := d.(dir := FreshDir(), loc := Journal, may := {Nowhere, Journal},
                              staleMay := d.staleMay || Finished in d.may),
                   pc := Snapshot(0, 0)))
    case Snapshot(k, i) =>
      var next := if k == 0 then Snapshot(1, 0) else WritePreparing;
      var c := d.dir.img.At(k);
      if d.live.At(k).main.cur.None? then Some(s.(pc := next))
      else if i == 0 then
        Some(s.(disk := d.(dir := d.dir.(img := d.dir.img.Set(k, Put(c, map[])))), pc := Snapshot(k, 1)))
      else if i == 1 then
        Some(s.(disk := d.(dir := d.dir.(img := d.dir.img.Set(k, Put(c, torn)))), pc := Snapshot(k, 2)))
      else if i == 2 then
        Some(s.(disk := d.(dir := d.dir.(img := d.dir.img.Set(k, Put(c, ValueOf(d.live.At(k)).pages)))),
            pc := Snapshot(k, 3)))
      else Some(s.(disk := d.(dir := d.dir.(img := d.dir.img.Set(k, Fsync(cfg.names, c)))), pc := next))
    case WritePreparing =>
      Some(s.(disk := d.(dir := d.dir.(preparing := Put(d.dir.preparing, SnapshotManifest(cfg, d)))),
          pc := SyncPreparing))
    case SyncPreparing =>
      Some(s.(disk := d.(dir := d.dir.(preparing := Fsync(cfg.names, d.dir.preparing))), pc := Publish))
    case Publish =>
      var c := d.dir.preparing;
      Some(s.(disk := d.(dir := d.dir.(preparing := Remove(c), ready := Cell(c.cur, c.clean, Born))),
          pc := SyncJournal))
    case SyncJournal => Some(s.(disk := d.(dir := SyncDir(d.dir)), pc := SyncParent))
    case SyncParent => Some(s.(disk := SyncTop(d), pc := Active))
  }

  /** The manifest records what was seen of each target and the digest of its image. */
  function SnapshotManifest(cfg: Config, d: Disk): Manifest
  {
    Manifest(1, [SnapshotEntry(cfg, d, 0), SnapshotEntry(cfg, d, 1)])
  }

  function SnapshotEntry(cfg: Config, d: Disk, k: nat): Entry
  {
    var existed := d.live.At(k).main.cur.Some?;
    Entry(k, existed, if existed && d.dir.img.At(k).cur.Some? then cfg.hash(d.dir.img.At(k).cur.value) else 0)
  }

  ghost function CommitNext(cfg: Config, s: State): Option<State>
    requires Shaped(s) && Committing(s.pc)
  {
    var d := s.disk;
    match s.pc
    case CommitSync(i) =>
      var g := d.live.At(i / 2);
      var g' := if i % 2 == 0 then g.(main := Fsync(cfg.names, g.main)) else g.(wal := Fsync(cfg.names, g.wal));
      Some(s.(disk := d.(live := d.live.Set(i / 2, g')), pc := if i == 3 then CommitMark else CommitSync(i + 1)))
    case CommitMark =>
      Some(s.(disk := d.(dir := d.dir.(committed := Put(d.dir.committed, ()))), pc := CommitMarkSync, marker := Tried))
    case CommitMarkSync =>
      var c := Fsync(cfg.names, d.dir.committed);
      Some(s.(disk := d.(dir := d.dir.(committed := c)), pc := CommitDirSync,
              marker := if c.name.Named? then Durable else Tried))
    case CommitDirSync =>
      Some(s.(disk := d.(dir := SyncDir(d.dir)), pc := RecoveryStart(cfg, AfterChange), marker := Durable))
  }

  ghost predicate GroupCrashedTo(g: Live, after: Live) {
    CrashedTo(g.main, after.main) && CrashedTo(g.wal, after.wal)
  }

  ghost predicate Crashes(d: Disk, after: Disk)
  {
    && GroupCrashedTo(d.live.notes, after.live.notes) && GroupCrashedTo(d.live.files, after.live.files)
    && CrashedTo(d.dir.img.notes, after.dir.img.notes) && CrashedTo(d.dir.img.files, after.dir.img.files)
    && CrashedTo(d.dir.preparing, after.dir.preparing)
    && CrashedTo(d.dir.ready, after.dir.ready)
    && CrashedTo(d.dir.committed, after.dir.committed)
    && after.loc in d.may && after.may == {after.loc}
    && (after.stale ==> d.staleMay) && after.staleMay == after.stale
  }

  ghost function WriteLive(cfg: Config, s: State, k: nat, inLog: bool, v: Option<Pages>): Option<State>
    requires Shaped(s)
  {
    if k >= 2 then None
    else
      var g := s.disk.live.At(k);
      var c := if inLog then g.wal else g.main;
      if (c.cur.None? && v.Some? && !cfg.creates) || (c.cur.Some? && v.None? && !cfg.unlinks) then None
      // a log is written beside its database and goes before it
      else if if inLog then v.Some? && g.main.cur.None? else v.None? && g.wal.cur.Some? then None
      else
        var c' := if v.Some? then Put(c, v.value) else Remove(c);
        var g' := if inLog then g.(wal := c') else g.(main := c');
        Some(s.(disk := s.disk.(live := s.disk.live.Set(k, g'))))
  }

  ghost function Step(cfg: Config, s: State, a: Action): Option<State>
    requires Shaped(s)
  {
    match a
    case Next(torn, victim) =>
      if Recovering(s.pc) then RecoverNext(cfg, s, torn, victim)
      else if Beginning(s.pc) then BeginNext(cfg, s, torn)
      else if Committing(s.pc) then CommitNext(cfg, s)
      else None
    case OrdinaryWrite(live) =>
      if s.pc.Idle? && Settled(live) && NoStray(Values(live)) then
        Some(s.(disk := s.disk.(live := live), orig := Values(live), goal := Values(live), marker := Never))
      else None
    case Begin =>
      if s.pc.Idle? || s.pc.Down? || s.pc.Failed? then Some(s.(pc := RecoveryStart(cfg, BeforeChange))) else None
    case Write(k, inLog, v) => if s.pc.Active? then WriteLive(cfg, s, k, inLog, v) else None
    case Commit => if s.pc.Active? then Some(s.(pc := CommitSync(0), goal := Values(s.disk.live))) else None
    case Abandon =>
      if s.pc.Active? || Committing(s.pc) then Some(s.(pc := RecoveryStart(cfg, AfterChange)))
      else None
    case PowerLoss(after) =>
      if Crashes(s.disk, after) then
        Some(s.(disk := after, pc := Down,
                marker := if s.marker.Durable? || !after.loc.Journal? then s.marker
                          else if after.dir.committed.cur.Some? then Durable else Never))
      else None
    case Kill => if GapAt(s.pc).None? || GapAt(s.pc).value in cfg.kills then Some(s.(pc := Down)) else None
    case Startup =>
      if s.pc.Idle? || s.pc.Down? || s.pc.Failed? then Some(s.(pc := RecoveryStart(cfg, AtStartup))) else None
  }
}

/** What a reader of the live databases sees, page by page, and which journals recovery refuses. */
module LivePages {
  import opened Wrappers
  import opened Durability
  import opened LiveRecovery

  /** Page `p` as a reader of database `k` sees it. */
  ghost function Read(live: Two<Live>, k: nat, p: nat): Option<int> {
    match Values(live).At(k)
    case Db(pages) => if p in pages then Some(pages[p]) else None
    case _ => None
  }

  /** Page `p` of one file. */
  ghost function PageOf(c: Cell<Pages>, p: nat): Option<int> {
    if c.cur.Some? && p in c.cur.value then Some(c.cur.value[p]) else None
  }

  /** What is written to the log is read back at once; other pages are read from the main file. */
  lemma {:induction false} LogWriteIsRead(cfg: Config, s: State, k: nat, v: Pages, p: nat)
    requires Shaped(s) && WriteLive(cfg, s, k, true, Some(v)).Some?
    ensures var live := WriteLive(cfg, s, k, true, Some(v)).value.disk.live;
      && Read(live, k, p) == (if p in v then Some(v[p]) else PageOf(s.disk.live.At(k).main, p))
      && Values(live).At(1 - k) == Values(s.disk.live).At(1 - k)
  {
  }

  /** Behind a write to the main file the log still has the newer pages. */
  lemma {:induction false} MainWriteIsRead(cfg: Config, s: State, k: nat, v: Pages, p: nat)
    requires Shaped(s) && WriteLive(cfg, s, k, false, Some(v)).Some?
    ensures var live, log := WriteLive(cfg, s, k, false, Some(v)).value.disk.live, s.disk.live.At(k).wal;
      && Read(live, k, p) == (if PageOf(log, p).Some? then PageOf(log, p) else if p in v then Some(v[p]) else None)
      && Values(live).At(1 - k) == Values(s.disk.live).At(1 - k)
  {
  }

  /** Without the log the main file is read, and without both there is no database. */
  lemma {:induction false} RemovalIsRead(cfg: Config, s: State, k: nat, inLog: bool, p: nat)
    requires Shaped(s) && WriteLive(cfg, s, k, inLog, None).Some?
    ensures var live := WriteLive(cfg, s, k, inLog, None).value.disk.live;
      && Read(live, k, p) == (if inLog then PageOf(s.disk.live.At(k).main, p) else None)
      && (!inLog ==> Values(live).At(k) == Gone)
      && Values(live).At(1 - k) == Values(s.disk.live).At(1 - k)
  {
  }

  /** The finished image of a database holds each page as a reader sees it, log included. */
  lemma {:induction false} ImageHoldsWhatIsRead(cfg: Config, s: State, torn: Pages, k: nat, p: nat)
    requires Shaped(s) && s.pc == Snapshot(k, 2) && s.disk.live.At(k).main.cur.Some?
    ensures var g := s.disk.live.At(k);
      && BeginNext(cfg, s, torn).Some?
      && PageOf(BeginNext(cfg, s, torn).value.disk.dir.img.At(k), p)
         == (if PageOf(g.wal, p).Some? then PageOf(g.wal, p) else PageOf(g.main, p))
  {
  }

  // ---------- journals that recovery refuses ----------

  /** An entry does not fit its image: another name, no image for a database that existed, or another digest. */
  ghost predicate Unfit(cfg: Config, d: Disk, k: nat, e: Entry) {
    || e.name != k
    || (e.existed && (d.dir.img.At(k).cur.None? || cfg.hash(d.dir.img.At(k).cur.value) != e.sha256))
  }

  /** Recovery restores from a journal without marker exactly if the whole manifest fits; else it raises and
      touches nothing. */
  lemma {:induction false} UnfitJournalIsRefused(cfg: Config, s: State, torn: Pages, victim: nat)
    requires Shaped(s) && s.pc.Inspect? && s.disk.loc.Journal?
    requires s.disk.dir.ready.cur.Some? && s.disk.dir.committed.cur.None?
    ensures var m, t := s.disk.dir.ready.cur.value, RecoverNext(cfg, s, torn, victim);
      && t.Some? && t.value.disk == s.disk
      && (t.value.pc.Failed? <==>
            m.version != 1 || |m.files| != 2 || Unfit(cfg, s.disk, 0, m.files[0]) || Unfit(cfg, s.disk, 1, m.files[1]))
      && (!t.value.pc.Failed? ==> t.value.pc == Restore(s.pc.why, 0, 0))
  {
  }

  /** Without a ready manifest, or with the marker, recovery restores nothing. */
  lemma {:induction false} OtherJournalIsRetired(cfg: Config, s: State, torn: Pages, victim: nat)
    requires Shaped(s) && s.pc.Inspect? && s.disk.loc.Journal?
    requires s.disk.dir.ready.cur.None? || s.disk.dir.committed.cur.Some?
    ensures RecoverNext(cfg, s, torn, victim) == Some(s.(pc := Retire(s.pc.why)))
  {
  }
}

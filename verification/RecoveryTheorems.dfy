/** What the journal promises over whole runs, and exactly when it does. */
module RecoveryTheorems {
  import opened Wrappers
  import opened Durability
  import opened LiveRecovery
  import opened RecoverySafety

  /** A namespace with settled files, no journal and no change under way. */
  ghost predicate Fresh(s: State) {
    && s.pc.Idle? && Settled(s.disk.live) && s.disk.loc.Nowhere? && s.disk.may == {Nowhere}
    && !s.disk.stale && !s.disk.staleMay && s.disk.dir == FreshDir()
    && s.orig == Values(s.disk.live) && s.goal == s.orig && s.marker.Never? && NoStray(s.orig)
  }

  ghost function Run(cfg: Config, s: State, acts: seq<Action>): Option<State>
    decreases |acts|
  {
    if acts == [] then Some(s)
    else
      var before := Run(cfg, s, acts[..|acts| - 1]);
      if before.None? || !Shaped(before.value) then None else Step(cfg, before.value, acts[|acts| - 1])
  }

  /** `s` is reached by some run of the protocol, whatever the crashes in it. */
  ghost predicate Reachable(cfg: Config, s: State) {
    exists s0: State, acts: seq<Action> :: Fresh(s0) && Run(cfg, s0, acts) == Some(s)
  }

  lemma {:induction false} ReachStep(cfg: Config, s: State, a: Action)
    requires Reachable(cfg, s) && Shaped(s) && Step(cfg, s, a).Some?
    ensures Reachable(cfg, Step(cfg, s, a).value)
  {
    var s0: State, acts: seq<Action> :| Fresh(s0) && Run(cfg, s0, acts) == Some(s);
    var longer := acts + [a];
    assert longer[..|longer| - 1] == acts;
    assert Run(cfg, s0, longer) == Step(cfg, s, a);
  }

  lemma {:induction false} RunKeeps(cfg: Config, s: State, acts: seq<Action>)
    requires Sound(cfg) && Fresh(s) && Run(cfg, s, acts).Some?
    ensures Inv(cfg, Run(cfg, s, acts).value)
    decreases |acts|
  {
    if acts != [] {
      RunKeeps(cfg, s, acts[..|acts| - 1]);
      StepKeeps(cfg, Run(cfg, s, acts[..|acts| - 1]).value, acts[|acts| - 1]);
    }
  }

  lemma {:induction false} ReachableInv(cfg: Config, s: State)
    requires Sound(cfg) && Reachable(cfg, s)
    ensures Inv(cfg, s)
  {
    var s0: State, acts: seq<Action> :| Fresh(s0) && Run(cfg, s0, acts) == Some(s);
    RunKeeps(cfg, s0, acts);
  }

  /** Whenever no change and no recovery is under way, both databases are on disk and are exactly
      the original pair if the marker was never written, and exactly the changed pair if it was. */
  ghost predicate AllOrNothing(cfg: Config) {
    forall s :: Reachable(cfg, s) && s.pc.Idle? ==>
      Settled(s.disk.live) && Values(s.disk.live) == (if s.marker.Never? then s.orig else s.goal)
  }

  /** No run ends in an exception raised by recovery itself. */
  ghost predicate NeverFails(cfg: Config) {
    forall s :: Reachable(cfg, s) ==> !s.pc.Failed?
  }

  lemma {:induction false} SoundIsAllOrNothing(cfg: Config)
    requires Sound(cfg)
    ensures AllOrNothing(cfg)
  {
    forall s | Reachable(cfg, s) && s.pc.Idle?
      ensures Settled(s.disk.live) && Values(s.disk.live) == (if s.marker.Never? then s.orig else s.goal)
    {
      ReachableInv(cfg, s);
    }
  }

  lemma {:induction false} SoundNeverFails(cfg: Config)
    requires cfg.names && !cfg.unlinks && KillsSpareGaps(cfg)
    ensures NeverFails(cfg)
  {
    forall s | Reachable(cfg, s)
      ensures !s.pc.Failed?
    {
      ReachableInv(cfg, s);
    }
  }

  // ---------- what the marker means ----------

  /** Only the commit of a change writes a marker; a durable one is found again wherever its journal is;
      and what is owed stays the same through every crash, kill and recovery, until a change begins with it. */
  lemma {:induction false} MarkerDecides(cfg: Config, s: State, a: Action)
    requires Sound(cfg) && Reachable(cfg, s) && Shaped(s) && Step(cfg, s, a).Some? && !a.OrdinaryWrite?
    ensures var t := Step(cfg, s, a).value;
            && (s.marker.Never? && !t.marker.Never? ==> s.pc.CommitMark?)
            && (t.marker.Durable? && t.disk.loc.Journal? ==> t.disk.dir.committed.cur.Some?)
            && (t.marker.Never? && t.disk.loc.Journal? ==> t.disk.dir.committed.cur.None?)
            && if t.pc.MakeDirectory? then t.orig == t.goal == Expected(s) && t.marker.Never?
               else
                 && t.orig == s.orig && (s.marker.Durable? ==> t.marker.Durable?)
                 && (!s.marker.Never? ==> t.goal == s.goal)
  {
    hide Step, Inv, AtPc, Shaped, Sound, Reachable;
    ReachableInv(cfg, s);
    InvIsShaped(cfg, s);
    StepKeeps(cfg, s, a);
    MarkerFound(cfg, Step(cfg, s, a).value);
    if a.PowerLoss? {
      CrashMarker(cfg, s, a.after);
    } else if a.Next? && Recovering(s.pc) {
      NextRecovers(cfg, s, a.torn, a.victim);
      RecoveryOwes(cfg, s, a.torn, a.victim);
    } else {
      MarkerStep(cfg, s, a);
    }
  }

  lemma {:induction false} NextRecovers(cfg: Config, s: State, torn: Pages, victim: nat)
    requires Shaped(s) && Recovering(s.pc)
    ensures Step(cfg, s, Next(torn, victim)) == RecoverNext(cfg, s, torn, victim)
  {
  }

  /** The steps of a change and of the power supply. */
  lemma {:induction false} MarkerStep(cfg: Config, s: State, a: Action)
    requires Inv(cfg, s) && Shaped(s) && Step(cfg, s, a).Some? && !a.OrdinaryWrite? && !(a.Next? && Recovering(s.pc))
    requires !a.PowerLoss?
    ensures var t := Step(cfg, s, a).value;
            && !t.pc.MakeDirectory? && t.orig == s.orig
            && (s.marker.Never? && !t.marker.Never? ==> s.pc.CommitMark?)
            && (s.marker.Durable? ==> t.marker.Durable?) && (!s.marker.Never? ==> t.goal == s.goal)
  {
    hide RecoverNext, Crashes, JournalOk, Quiet, Core, Validates;
  }

  lemma {:induction false} MarkerFound(cfg: Config, s: State)
    requires Inv(cfg, s)
    ensures s.disk.loc.Journal? && s.marker.Durable? ==> s.disk.dir.committed.cur.Some?
    ensures s.disk.loc.Journal? && s.marker.Never? ==> s.disk.dir.committed.cur.None?
  {
  }

  lemma {:induction false} CrashMarker(cfg: Config, s: State, after: Disk)
    requires Inv(cfg, s) && Shaped(s) && Step(cfg, s, PowerLoss(after)).Some?
    ensures var t := Step(cfg, s, PowerLoss(after)).value;
            && (s.marker.Durable? ==> t.marker.Durable?) && (s.marker.Never? ==> t.marker.Never?)
            && t.pc.Down? && t.orig == s.orig && t.goal == s.goal
  {
  }

  /** Once removal of the journal has begun, and until the next change makes one, no power loss
      can bring it back; and the name it is moved to is free when it is moved. */
  lemma {:induction false} JournalNeverReturns(cfg: Config, s: State, after: Disk)
    requires Sound(cfg) && Reachable(cfg, s) && Crashes(s.disk, after)
    ensures s.pc.Discard? || s.pc.DiscardSync? || s.pc.Idle? ==> !after.loc.Journal?
    ensures s.disk.loc.Finished? && s.pc.Sweep? ==> !after.loc.Journal?
    ensures s.pc.Retire? ==> s.disk.loc.Journal? && !s.disk.stale
  {
    ReachableInv(cfg, s);
  }

  // ---------- recovery always finishes ----------

  ghost function Left<V>(c: Cell<V>): nat { if c.cur.Some? then 1 else 0 }

  /** What is still to be deleted of finished journals. */
  ghost function Debris(d: Disk): nat {
    (if d.loc.Finished? then
       1 + Left(d.dir.img.notes) + Left(d.dir.img.files) + Left(d.dir.preparing) + Left(d.dir.ready)
           + Left(d.dir.committed)
     else 0)
    + (if d.stale then 1 else 0)
  }

  /** Falls with every step of recovery. */
  ghost function Rank(s: State): nat {
    match s.pc
    case SettleDir(_) => 51
    case SettleTop(_) => 50
    case Sweep(_) => 40 + Debris(s.disk)
    case Inspect(_) => 39
    case Restore(_, k, i) => 30 - (if k == 0 then 0 else 3) - (if i < 2 then i else 2)
    case RestoreSync(_) => 20
    case Retire(_) => 19
    case RetireSync(_) => 18
    case Discard(_) => 10 + Debris(s.disk)
    case DiscardSync(_) => 9
    case _ => 0
  }

  lemma {:induction false} DeleteAdvances(d: Disk, victim: nat)
    requires DeleteOne(d, victim).Some?
    ensures Debris(DeleteOne(d, victim).value) < Debris(d)
  {
  }

  lemma {:induction false} DebrisIsSmall(d: Disk)
    ensures Debris(d) <= 7 && Debris(SyncTop(d)) == Debris(d)
    ensures !d.loc.Finished? && !d.stale ==> Debris(d) == 0
  {
  }

  lemma {:induction false} DeleteEnabled(d: Disk) returns (victim: nat)
    requires d.loc.Finished? || d.stale
    ensures DeleteOne(d, victim).Some? && (!d.stale ==> victim != 6)
  {
    if d.stale { return 6; }
    if d.dir.img.notes.cur.Some? { return 0; }
    if d.dir.img.files.cur.Some? { return 1; }
    if d.dir.preparing.cur.Some? { return 2; }
    if d.dir.ready.cur.Some? { return 3; }
    if d.dir.committed.cur.Some? { return 4; }
    return 5;
  }

  /** A step of recovery leaves what is owed; a change that it ends before starts from that. */
  lemma {:induction false} RecoveryOwes(cfg: Config, s: State, torn: Pages, victim: nat)
    requires Inv(cfg, s) && Recovering(s.pc) && RecoverNext(cfg, s, torn, victim).Some?
    ensures var t := RecoverNext(cfg, s, torn, victim).value;
            if t.pc.MakeDirectory? then t.orig == t.goal == Expected(s) && t.marker.Never?
            else
              && t.orig == s.orig && t.goal == s.goal && (t.marker.Never? <==> s.marker.Never?)
              && (s.marker.Durable? ==> t.marker.Durable?)
  {
  }

  /** Every step of recovery goes forward, raises nothing, and leaves what is owed. */
  lemma {:induction false} RecoveryAdvances(cfg: Config, s: State, torn: Pages, victim: nat)
    requires cfg.names && Inv(cfg, s) && Recovering(s.pc) && RecoverNext(cfg, s, torn, victim).Some?
    ensures var t := RecoverNext(cfg, s, torn, victim).value;
            && Inv(cfg, t) && !t.pc.Failed? && Expected(t) == Expected(s)
            && (Recovering(t.pc) ==> Rank(t) < Rank(s) && t.pc.why == s.pc.why)
            && (!Recovering(t.pc) ==> t.pc == if s.pc.why.BeforeChange? then MakeDirectory else Idle)
  {
    RecoverKeeps(cfg, s, torn, victim);
    RecoveryOwes(cfg, s, torn, victim);
    RecoveryForward(cfg, s, torn, victim);
    NeverRefused(cfg, RecoverNext(cfg, s, torn, victim).value);
  }

  lemma {:induction false} NeverRefused(cfg: Config, s: State)
    requires cfg.names && Inv(cfg, s)
    ensures !s.pc.Failed?
  {
  }

  lemma {:induction false} RecoveryForward(cfg: Config, s: State, torn: Pages, victim: nat)
    requires Shaped(s) && Recovering(s.pc) && RecoverNext(cfg, s, torn, victim).Some?
    ensures var t := RecoverNext(cfg, s, torn, victim).value;
            && (Recovering(t.pc) ==> Rank(t) < Rank(s) && t.pc.why == s.pc.why)
            && (!Recovering(t.pc) && !t.pc.Failed? ==> t.pc == if s.pc.why.BeforeChange? then MakeDirectory else Idle)
  {
    hide Validates, SyncTop, SyncDir, Debris, DeleteOne, Values;
    DebrisIsSmall(s.disk);
    if DeleteOne(s.disk, victim).Some? {
      DeleteAdvances(s.disk, victim);
      DebrisIsSmall(DeleteOne(s.disk, victim).value);
    }
  }

  lemma {:induction false} RecoveryEnabled(cfg: Config, s: State) returns (victim: nat)
    requires Inv(cfg, s) && Recovering(s.pc)
    ensures RecoverNext(cfg, s, map[], victim).Some?
  {
    victim := 0;
    if s.disk.loc.Finished? || s.disk.stale {
      victim := DeleteEnabled(s.disk);
    }
  }

  /** A journal left by a power loss or a killed process can be recovered by whoever comes next: the
      steps of recovery alone reach its end, with the pair that the marker decides on both databases,
      and a change that follows starts from that pair. */
  lemma {:induction false} CrashRecovers(cfg: Config, s: State, a: Action) returns (acts: seq<Action>, t: State)
    requires cfg.names && Sound(cfg) && Reachable(cfg, s) && s.pc.Down? && (a.Startup? || a.Begin?)
    ensures acts != [] && acts[0] == a && forall i :: 1 <= i < |acts| ==> acts[i].Next?
    ensures Run(cfg, s, acts) == Some(t) && t.pc == if a.Begin? then MakeDirectory else Idle
    ensures Holds(t.disk.live, Expected(s)) && (a.Begin? ==> t.orig == Expected(s))
  {
    ReachableInv(cfg, s);
    EntryKeeps(cfg, s, a);
    acts, t := [a], Step(cfg, s, a).value;
    assert Run(cfg, s, []) == Some(s);
    assert acts[..0] == [];
    hide RecoverNext, Inv, Step, Run, Rank, Expected;
    while Recovering(t.pc)
      invariant acts != [] && acts[0] == a && forall i :: 1 <= i < |acts| ==> acts[i].Next?
      invariant Run(cfg, s, acts) == Some(t) && Inv(cfg, t) && Expected(t) == Expected(s)
      invariant Recovering(t.pc) ==> t.pc.why.BeforeChange? == a.Begin?
      invariant Recovering(t.pc) || t.pc == if a.Begin? then MakeDirectory else Idle
      decreases Recovering(t.pc), Rank(t)
    {
      var victim := RecoveryEnabled(cfg, t);
      RecoveryAdvances(cfg, t, map[], victim);
      RunLonger(cfg, s, acts, t, victim);
      InvIsShaped(cfg, t);
      acts, t := acts + [Next(map[], victim)], RecoverNext(cfg, t, map[], victim).value;
    }
    RestsOnWhatIsOwed(cfg, t);
  }

  lemma {:induction false} RunLonger(cfg: Config, s: State, acts: seq<Action>, t: State, victim: nat)
    requires Run(cfg, s, acts) == Some(t) && Shaped(t) && Recovering(t.pc)
    ensures Run(cfg, s, acts + [Next(map[], victim)]) == RecoverNext(cfg, t, map[], victim)
  {
    hide RecoverNext;
    var longer := acts + [Next(map[], victim)];
    assert longer[..|longer| - 1] == acts;
  }

  lemma {:induction false} InvIsShaped(cfg: Config, s: State)
    requires Inv(cfg, s)
    ensures Shaped(s)
  {
  }

  lemma {:induction false} RestsOnWhatIsOwed(cfg: Config, s: State)
    requires Inv(cfg, s) && (s.pc.Idle? || s.pc.MakeDirectory?)
    ensures Holds(s.disk.live, Expected(s)) && (s.pc.MakeDirectory? ==> s.orig == Expected(s))
  {
  }
}

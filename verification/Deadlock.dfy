/** Threads that wait for each other: both locks of a change block, and a request may open several databases. */
module Deadlock {
  import opened Wrappers
  import opened Ownership

  /** A thread that has the first database open may ask for the second. */
  type Asks = iset<(Db, Db)>

  ghost predicate Allowed(asks: Asks, s: State, a: Action)
    requires Enabled(s, a)
  {
    a.CallBegin? || a.CallRecover? ==>
      forall o :: o in ThreadAt(s, a.p, a.t).open ==> o == a.db || (o, a.db) in asks
  }

  ghost predicate RunOf(asks: Asks, states: seq<State>, actions: seq<Action>, s: State) {
    && Run(states, actions) && Initial(states[0]) && states[|actions|] == s
    && forall i :: 0 <= i < |actions| ==> Allowed(asks, states[i], actions[i])
  }

  /** Some run gets there, whatever else its processes and threads do. */
  ghost predicate Reachable(asks: Asks, s: State) {
    exists states, actions :: RunOf(asks, states, actions, s)
  }

  /** Whom a blocked thread waits for. */
  function WaitsFor(s: State, p: nat, t: nat): Option<(nat, nat)>
    requires There(s, p, t)
  {
    match ThreadAt(s, p, t).pc
    case WaitLock(_, _) =>
      if s.processes[p].lock in {None, Some(t)} then None else Some((p, s.processes[p].lock.value))
    case WaitFile(db, _) => if db in s.files then Some((s.files[db].process, s.files[db].thread)) else None
    case _ => None
  }

  /** A thread that asks for a lock waits for someone exactly as long as it cannot get it. */
  lemma {:induction false} WaitsExactly(s: State, p: nat, t: nat)
    requires There(s, p, t)
    ensures WaitsFor(s, p, t).Some? <==>
      || (ThreadAt(s, p, t).pc.WaitLock? && !Enabled(s, GetLock(p, t)))
      || (ThreadAt(s, p, t).pc.WaitFile? && !Enabled(s, GetFile(p, t)))
  {
  }

  /** Each of these threads waits for one of them. */
  ghost predicate Deadlocked(s: State, w: set<(nat, nat)>) {
    w != {} && forall p, t :: (p, t) in w ==>
      There(s, p, t) && WaitsFor(s, p, t).Some? && WaitsFor(s, p, t).value in w
  }

  ghost predicate NeverDeadlocked(asks: Asks) {
    forall s, w :: Reachable(asks, s) ==> !Deadlocked(s, w)
  }

  function After(ds: seq<Db>, i: nat): Db
    requires i < |ds|
  {
    if i + 1 < |ds| then ds[i + 1] else ds[0]
  }

  ghost predicate Cycle(asks: Asks, ds: seq<Db>) {
    && |ds| >= 2 && (forall i, j :: 0 <= i < j < |ds| ==> ds[i] != ds[j])
    && forall i :: 0 <= i < |ds| ==> (ds[i], After(ds, i)) in asks
  }

  ghost predicate HasCycle(asks: Asks) {
    exists ds :: Cycle(asks, ds)
  }

  lemma {:induction false} ReachStep(asks: Asks, s: State, a: Action)
    requires Reachable(asks, s) && Enabled(s, a) && Allowed(asks, s, a)
    ensures Reachable(asks, Step(s, a))
  {
    hide Step, Enabled, Allowed, Initial;
    var states, actions :| RunOf(asks, states, actions, s);
    var longer := states + [Step(s, a)];
    assert RunOf(asks, longer, actions + [a], Step(s, a));
  }

  // ---------- a deadlock needs a cycle ----------

  /** A thread that waits, or is about to, asks as it may. */
  ghost predicate AsksAsItMay(asks: Asks, thread: Thread) {
    thread.pc.WaitLock? || thread.pc.WaitFile? ==>
      forall o :: o in thread.open ==> o == thread.pc.db || (o, thread.pc.db) in asks
  }

  ghost predicate AskOk(asks: Asks, s: State) {
    forall p, t :: There(s, p, t) ==> AsksAsItMay(asks, ThreadAt(s, p, t))
  }

  lemma {:induction false} AskKept(asks: Asks, s: State, a: Action)
    requires AskOk(asks, s) && Enabled(s, a) && Allowed(asks, s, a)
    ensures AskOk(asks, Step(s, a))
  {
    if a.Crash? {
      forall p, t | There(Step(s, a), p, t)
        ensures AsksAsItMay(asks, ThreadAt(Step(s, a), p, t))
      {
        assert p != a.p ==> ThreadAt(Step(s, a), p, t) == ThreadAt(s, p, t);
      }
    } else {
      StepIsLocal(s, a);
      OwnAsks(asks, s, a);
      hide AsksAsItMay, Step, Enabled;
      forall p, t | There(Step(s, a), p, t)
        ensures AsksAsItMay(asks, ThreadAt(Step(s, a), p, t))
      {
        assert p != a.p || t != a.t ==> ThreadAt(Step(s, a), p, t) == ThreadAt(s, p, t);
      }
    }
  }

  lemma {:induction false} OwnAsks(asks: Asks, s: State, a: Action)
    requires AskOk(asks, s) && Enabled(s, a) && Allowed(asks, s, a) && !a.Crash?
    requires There(s, a.p, a.t) && There(Step(s, a), a.p, a.t)
    ensures AsksAsItMay(asks, ThreadAt(Step(s, a), a.p, a.t))
  {
    assert AsksAsItMay(asks, ThreadAt(s, a.p, a.t));
  }

  lemma {:induction false} RunAsks(asks: Asks, states: seq<State>, actions: seq<Action>, s: State, i: nat)
    requires RunOf(asks, states, actions, s) && i < |states|
    ensures AskOk(asks, states[i])
  {
    if i > 0 {
      RunAsks(asks, states, actions, s, i - 1);
      hide AskOk, Step, Enabled, Allowed;
      AskKept(asks, states[i - 1], actions[i - 1]);
      assert states[i - 1 + 1] == Step(states[i - 1], actions[i - 1]);
    }
  }

  lemma {:induction false} ReachableIsOk(asks: Asks, s: State)
    requires Reachable(asks, s)
    ensures Inv(s) && AskOk(asks, s)
  {
    hide Inv, AskOk, Initial;
    var states, actions :| RunOf(asks, states, actions, s);
    RunKeeps(states, actions, |actions|);
    RunAsks(asks, states, actions, s, |actions|);
  }

  /** A thread of a deadlock that has a change open waits for a file lock, which one of them holds with a change. */
  lemma {:induction false} WaitsForFile(s: State, w: set<(nat, nat)>, p: nat, t: nat) returns (q: nat, u: nat)
    requires Inv(s) && Deadlocked(s, w) && (p, t) in w && s.processes[p].lock == Some(t)
    ensures ThreadAt(s, p, t).pc.WaitFile? && ThreadAt(s, p, t).pc.db !in ThreadAt(s, p, t).open
    ensures (q, u) in w && HasOpen(s, q, u, ThreadAt(s, p, t).pc.db) && ThreadAt(s, p, t).pc.db in s.files
  {
    assert ThreadOk(s, p, t);
    var db := ThreadAt(s, p, t).pc.db;
    var who := s.files[db];
    q, u := who.process, who.thread;
    assert db in Holds(ThreadAt(s, q, u)) && WaitsFor(s, q, u).Some?;
  }

  lemma {:induction false} OpenHasLock(s: State, p: nat, t: nat, db: Db)
    requires Inv(s) && HasOpen(s, p, t, db)
    ensures s.processes[p].lock == Some(t) && db in s.files
  {
    assert ThreadOk(s, p, t);
    assert db in Holds(ThreadAt(s, p, t));
  }

  /** Databases asked for one after the other. */
  ghost predicate Path(asks: Asks, ds: seq<Db>) {
    && ds != [] && (forall i, j :: 0 <= i < j < |ds| ==> ds[i] != ds[j])
    && forall i :: 0 <= i < |ds| - 1 ==> (ds[i], ds[i + 1]) in asks
  }

  lemma {:induction false} PathCloses(asks: Asks, ds: seq<Db>, i: nat)
    requires Path(asks, ds) && i < |ds| - 1 && (ds[|ds| - 1], ds[i]) in asks
    ensures Cycle(asks, ds[i..])
  {
    var back := ds[i..];
    forall j | 0 <= j < |back|
      ensures (back[j], After(back, j)) in asks
    {
      if j + 1 < |back| {
        assert (ds[i + j], ds[i + j + 1]) in asks;
      }
    }
  }

  lemma {:induction false} FollowWaits(asks: Asks, s: State, w: set<(nat, nat)>, ds: seq<Db>, p: nat, t: nat)
    requires Inv(s) && AskOk(asks, s) && Deadlocked(s, w) && (p, t) in w
    requires Path(asks, ds) && HasOpen(s, p, t, ds[|ds| - 1])
    ensures HasCycle(asks)
    decreases s.files.Keys - (set d | d in ds)
  {
    assert ds != [];
    hide Inv, Deadlocked, Path, Cycle;
    OpenHasLock(s, p, t, ds[|ds| - 1]);
    var q, u := WaitsForFile(s, w, p, t);
    var db := ThreadAt(s, p, t).pc.db;
    assert (ds[|ds| - 1], db) in asks;
    if db in ds {
      var i :| 0 <= i < |ds| && ds[i] == db;
      PathCloses(asks, ds, i);
    } else {
      PathGoesOn(asks, ds, db);
      assert db in s.files.Keys - (set d | d in ds) && db in ds + [db];
      FollowWaits(asks, s, w, ds + [db], q, u);
    }
  }

  lemma {:induction false} PathGoesOn(asks: Asks, ds: seq<Db>, db: Db)
    requires Path(asks, ds) && db !in ds && (ds[|ds| - 1], db) in asks
    ensures Path(asks, ds + [db])
  {
  }

  lemma {:induction false} DeadlockHasCycle(asks: Asks, s: State, w: set<(nat, nat)>)
    requires Inv(s) && AskOk(asks, s) && Deadlocked(s, w)
    ensures HasCycle(asks)
  {
    var first :| first in w;
    var p, t := first.0, first.1;
    assert There(s, p, t) && ThreadOk(s, p, t);
    hide Inv, AskOk, HasCycle;
    if ThreadAt(s, p, t).pc.WaitLock? {
      t := s.processes[p].lock.value;
    }
    var q, u := WaitsForFile(s, w, p, t);
    FollowWaits(asks, s, w, [ThreadAt(s, p, t).pc.db], q, u);
  }

  // ---------- a cycle can deadlock ----------

  const NEW := Process([Thread(Free, {})], None, {}, 0)

  function WithOpen(db: Db): Process {
    Process([Thread(Free, {db})], Some(0), {db}, 0)
  }

  function Asking(db: Db, next: Db): Process {
    Process([Thread(WaitFile(next, false), {db})], Some(0), {db}, 0)
  }

  /** The process of one thread, as `pc` and `lock` say. */
  function Single(pc: Pc, open: set<Db>, lock: Option<nat>): Process {
    Process([Thread(pc, open)], lock, open, 0)
  }

  /** A new process asks for a database and gets both locks. */
  lemma {:induction false} GetsLocks(asks: Asks, s: State, p: nat, db: Db) returns (t: State)
    requires Reachable(asks, s) && p < |s.processes| && s.processes[p] == NEW && db !in s.files
    ensures Reachable(asks, t)
    ensures t.processes == s.processes[p := Single(Opening(db, false), {}, Some(0))]
    ensures t.files == s.files[db := Who(p, 0, 0)]
  {
    hide Reachable;
    var s1 := Step(s, CallBegin(p, 0, db));
    ReachStep(asks, s, CallBegin(p, 0, db));
    assert s1.processes[p] == Single(WaitLock(db, false), {}, None);
    var s2 := Step(s1, GetLock(p, 0));
    ReachStep(asks, s1, GetLock(p, 0));
    assert s2.processes[p] == Single(WaitFile(db, false), {}, Some(0));
    t := Step(s2, GetFile(p, 0));
    ReachStep(asks, s2, GetFile(p, 0));
    assert t.processes[p] == Single(Opening(db, false), {}, Some(0));
  }

  /** It makes its journal, and the change is open. */
  lemma {:induction false} PublishesIt(asks: Asks, s: State, p: nat, db: Db) returns (t: State)
    requires Reachable(asks, s) && p < |s.processes|
    requires s.processes[p] == Single(Opening(db, false), {}, Some(0))
    ensures Reachable(asks, t) && t.processes == s.processes[p := WithOpen(db)] && t.files == s.files
  {
    hide Reachable;
    var s1 := Step(s, Empty(p, 0));
    ReachStep(asks, s, Empty(p, 0));
    assert s1.processes[p] == Single(Opening(db, true), {}, Some(0));
    var s2 := Step(s1, MakeJournal(p, 0));
    ReachStep(asks, s1, MakeJournal(p, 0));
    t := Step(s2, Publish(p, 0));
    ReachStep(asks, s2, Publish(p, 0));
    assert s2.processes[p] == s1.processes[p] && {} + {db} == {db};
    assert t.processes[p].threads == [Thread(Free, {db})] && t.processes[p] == WithOpen(db);
  }

  /** With it open it asks for another. */
  lemma {:induction false} AsksNext(asks: Asks, s: State, p: nat, db: Db, next: Db) returns (t: State)
    requires Reachable(asks, s) && p < |s.processes| && s.processes[p] == WithOpen(db)
    requires (db, next) in asks && next != db
    ensures Reachable(asks, t) && t.processes == s.processes[p := Asking(db, next)] && t.files == s.files
  {
    hide Reachable;
    var s1 := Step(s, CallBegin(p, 0, next));
    ReachStep(asks, s, CallBegin(p, 0, next));
    assert s1.processes[p] == Single(WaitLock(next, false), {db}, Some(0));
    t := Step(s1, GetLock(p, 0));
    ReachStep(asks, s1, GetLock(p, 0));
    assert t.processes[p] == Asking(db, next);
  }

  /** Of as many processes as databases, the first `n` have one open each. */
  ghost predicate FirstOpen(s: State, ds: seq<Db>, n: nat) {
    && n <= |ds| == |s.processes|
    && (forall i :: 0 <= i < |ds| ==> s.processes[i] == if i < n then WithOpen(ds[i]) else NEW)
    && (forall db :: db in s.files ==> db in ds[..n])
    && forall i :: 0 <= i < n ==> ds[i] in s.files && s.files[ds[i]] == Who(i, 0, 0)
  }

  lemma {:induction false} AllOpen(asks: Asks, ds: seq<Db>, n: nat) returns (s: State)
    requires n <= |ds| && forall i, j :: 0 <= i < j < |ds| ==> ds[i] != ds[j]
    ensures Reachable(asks, s) && FirstOpen(s, ds, n)
  {
    if n == 0 {
      s := State(seq(|ds|, _ => NEW), map[], map[]);
      assert RunOf(asks, [s], [], s);
    } else {
      var before := AllOpen(asks, ds, n - 1);
      hide Reachable;
      var mid := GetsLocks(asks, before, n - 1, ds[n - 1]);
      s := PublishesIt(asks, mid, n - 1, ds[n - 1]);
      assert ds[..n] == ds[..n - 1] + [ds[n - 1]];
    }
  }

  /** All have one open, and the first `n` wait for the next. */
  ghost predicate FirstWait(s: State, ds: seq<Db>, n: nat) {
    && n <= |ds| == |s.processes|
    && (forall i :: 0 <= i < |ds| ==>
         s.processes[i] == if i < n then Asking(ds[i], After(ds, i)) else WithOpen(ds[i]))
    && forall i :: 0 <= i < |ds| ==> ds[i] in s.files && s.files[ds[i]] == Who(i, 0, 0)
  }

  lemma {:induction false} AllWait(asks: Asks, ds: seq<Db>, n: nat) returns (s: State)
    requires Cycle(asks, ds) && n <= |ds|
    ensures Reachable(asks, s) && FirstWait(s, ds, n)
  {
    if n == 0 {
      s := AllOpen(asks, ds, |ds|);
    } else {
      var before := AllWait(asks, ds, n - 1);
      hide Reachable;
      s := AsksNext(asks, before, n - 1, ds[n - 1], After(ds, n - 1));
    }
  }

  lemma {:induction false} CycleDeadlocks(asks: Asks, ds: seq<Db>) returns (s: State, w: set<(nat, nat)>)
    requires Cycle(asks, ds)
    ensures Reachable(asks, s) && Deadlocked(s, w)
  {
    s := AllWait(asks, ds, |ds|);
    w := set i: nat | i < |ds| :: (i, 0);
    assert (0, 0) in w;
    forall p, t | (p, t) in w
      ensures There(s, p, t) && WaitsFor(s, p, t).Some? && WaitsFor(s, p, t).value in w
    {
      assert s.processes[p] == Asking(ds[p], After(ds, p));
      var next := if p + 1 < |ds| then p + 1 else 0;
      assert s.files[After(ds, p)] == Who(next, 0, 0) && (next, 0) in w;
    }
  }

  // ---------- the exact condition ----------

  /** Over all runs of any processes and threads: no deadlock exactly if the databases that are asked for
      while others are open are in no cycle. */
  lemma {:induction false} NeverDeadlockedExactly(asks: Asks)
    ensures NeverDeadlocked(asks) <==> !HasCycle(asks)
  {
    hide Reachable, Deadlocked, Cycle;
    if HasCycle(asks) {
      var ds :| Cycle(asks, ds);
      var s, w := CycleDeadlocks(asks, ds);
    } else {
      forall s, w | Reachable(asks, s)
        ensures !Deadlocked(s, w)
      {
        ReachableIsOk(asks, s);
        if Deadlocked(s, w) {
          DeadlockHasCycle(asks, s, w);
        }
      }
    }
  }

  /** Opening databases in one order is enough. */
  lemma {:induction false} OneOrderIsSafe(asks: Asks)
    requires forall o, db :: (o, db) in asks ==> o < db
    ensures NeverDeadlocked(asks)
  {
    hide Reachable, Deadlocked;
    forall ds
      ensures !Cycle(asks, ds)
    {
      if Cycle(asks, ds) {
        Climbs(asks, ds, |ds| - 1);
      }
    }
    NeverDeadlockedExactly(asks);
  }

  lemma {:induction false} Climbs(asks: Asks, ds: seq<Db>, i: nat)
    requires Cycle(asks, ds) && i < |ds| && forall o, db :: (o, db) in asks ==> o < db
    ensures ds[0] <= ds[i]
  {
    if i > 0 {
      Climbs(asks, ds, i - 1);
      assert (ds[i - 1], After(ds, i - 1)) in asks;
    }
  }

  /** Two requests that open the same two databases in opposite orders can wait for each other. */
  lemma {:induction false} OppositeOrdersDeadlock(a: Db, b: Db) returns (s: State, w: set<(nat, nat)>)
    requires a != b
    ensures Reachable(iset{(a, b), (b, a)}, s) && Deadlocked(s, w)
  {
    assert Cycle(iset{(a, b), (b, a)}, [a, b]);
    s, w := CycleDeadlocks(iset{(a, b), (b, a)}, [a, b]);
  }

  // ---------- a deadlock lasts ----------

  lemma {:induction false} WaiterIsStill(s: State, a: Action)
    requires Enabled(s, a) && !a.Crash? && There(s, a.p, a.t)
    ensures WaitsFor(s, a.p, a.t).None?
  {
  }

  /** The lock of the process, and the holder of the file, that a thread of a deadlock waits for stay as they are. */
  lemma {:induction false} LockStays(s: State, w: set<(nat, nat)>, a: Action, p: nat, t: nat)
    requires Inv(s) && Deadlocked(s, w) && Enabled(s, a) && !a.Crash? && (p, t) in w
    requires ThreadAt(s, p, t).pc.WaitLock? && a.p == p
    ensures p < |Step(s, a).processes| && Step(s, a).processes[p].lock == s.processes[p].lock
  {
    var u := s.processes[p].lock.value;
    assert (p, u) in w && WaitsFor(s, p, u).Some?;
    WaiterIsStill(s, a);
    assert There(s, p, u) && ThreadOk(s, p, u) && ThreadOk(s, a.p, a.t) && u != a.t;
    assert ThreadAt(s, p, u).pc.WaitFile?;
    hide Step, Enabled;
    LockIsKept(s, a, u);
  }

  lemma {:induction false} FileStays(s: State, w: set<(nat, nat)>, a: Action, p: nat, t: nat)
    requires Inv(s) && Deadlocked(s, w) && Enabled(s, a) && !a.Crash? && (p, t) in w
    requires ThreadAt(s, p, t).pc.WaitFile?
    ensures var db := ThreadAt(s, p, t).pc.db;
      db in s.files && db in Step(s, a).files && Step(s, a).files[db] == s.files[db]
  {
    var db := ThreadAt(s, p, t).pc.db;
    assert WaitsFor(s, p, t).Some?;
    var q, u := s.files[db].process, s.files[db].thread;
    assert (q, u) in w && WaitsFor(s, q, u).Some?;
    ThreadIsThere(s, a);
    WaiterIsStill(s, a);
    assert ThreadOk(s, a.p, a.t);
    hide Step, Enabled, ThreadOk, Deadlocked;
    StepTouchesOwn(s, a);
    if db in Holds(ThreadAt(s, a.p, a.t)) {
      Exclusive(s, a.p, a.t, q, u, db);
    }
  }

  /** Until one of its processes dies, a deadlock stays, and its threads do not move. */
  lemma {:induction false} DeadlockLasts(s: State, w: set<(nat, nat)>, a: Action)
    requires Inv(s) && Deadlocked(s, w) && Enabled(s, a) && (a.Crash? ==> forall t :: (a.p, t) !in w)
    ensures Deadlocked(Step(s, a), w)
    ensures forall p, t :: (p, t) in w ==>
      There(s, p, t) && There(Step(s, a), p, t) && ThreadAt(Step(s, a), p, t) == ThreadAt(s, p, t)
  {
    forall p, t | (p, t) in w
      ensures There(s, p, t) && There(Step(s, a), p, t) && ThreadAt(Step(s, a), p, t) == ThreadAt(s, p, t)
      ensures WaitsFor(Step(s, a), p, t) == WaitsFor(s, p, t) && WaitsFor(s, p, t).Some?
      ensures WaitsFor(s, p, t).value in w
    {
      if a.Crash? {
        CrashElsewhere(s, w, a.p, p, t);
      } else {
        StillWaits(s, w, a, p, t);
      }
    }
  }

  lemma {:induction false} CrashElsewhere(s: State, w: set<(nat, nat)>, q: nat, p: nat, t: nat)
    requires Deadlocked(s, w) && q < |s.processes| && (p, t) in w && forall u :: (q, u) !in w
    ensures There(Step(s, Crash(q)), p, t) && ThreadAt(Step(s, Crash(q)), p, t) == ThreadAt(s, p, t)
    ensures WaitsFor(Step(s, Crash(q)), p, t) == WaitsFor(s, p, t)
  {
  }

  lemma {:induction false} StillWaits(s: State, w: set<(nat, nat)>, a: Action, p: nat, t: nat)
    requires Inv(s) && Deadlocked(s, w) && Enabled(s, a) && !a.Crash? && (p, t) in w
    ensures There(Step(s, a), p, t) && ThreadAt(Step(s, a), p, t) == ThreadAt(s, p, t)
    ensures WaitsFor(Step(s, a), p, t) == WaitsFor(s, p, t)
  {
    ThreadIsThere(s, a);
    WaiterIsStill(s, a);
    StepIsLocal(s, a);
    assert WaitsFor(s, p, t).Some? && !(a.p == p && a.t == t);
    hide Step, Enabled, Inv;
    if ThreadAt(s, p, t).pc.WaitFile? {
      FileStays(s, w, a, p, t);
    } else if a.p == p {
      LockStays(s, w, a, p, t);
    }
  }
}

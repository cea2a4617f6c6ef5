/**
 Who may touch a rollback journal: processes with several threads, the re-entrant lock of each
 process, its set of active changes, and one file lock per database.
 */
module Ownership {
  import opened Wrappers

  type Db = nat

  /** A thread of a process in one of its lives: a process that crashes and comes back is another. */
  datatype Who = Who(process: nat, thread: nat, life: nat)

  /** The journal directory of a database: who made it, and whether its manifest is published. */
  datatype Journal = Journal(owner: Who, ready: bool)

  datatype Pc =
    | Free
    | WaitLock(db: Db, recovering: bool)  // before the lock of the process
    | WaitFile(db: Db, recovering: bool)  // holding it, before the lock of the database
    | Opening(db: Db, emptied: bool)      // holding both: _write_snapshot, before and after its _recover_locked
    | Recovering(db: Db)                  // holding both: recover_pending_change
    | Finishing(db: Db)                   // commit or rollback has reached _recover_locked

  /** `open` are the changes this thread has begun and not finished. */
  datatype Thread = Thread(pc: Pc, open: set<Db>)

  datatype Process = Process(threads: seq<Thread>, lock: Option<nat>, active: set<Db>, life: nat)

  datatype State = State(processes: seq<Process>, files: map<Db, Who>, journals: map<Db, Journal>)

  datatype Action =
    | CallBegin(p: nat, t: nat, db: Db)
    | CallRecover(p: nat, t: nat, db: Db)
    | GetLock(p: nat, t: nat)       // acquire the process lock, then look at _active and, to recover, at the disk
    | GetFile(p: nat, t: nat)
    | Empty(p: nat, t: nat)         // _recover_locked of a new change
    | MakeJournal(p: nat, t: nat)
    | Publish(p: nat, t: nat)       // rename to ready.json, then _active.add
    | OpeningFails(p: nat, t: nat, ready: bool)  // an exception, before or after the manifest is published
    | CallFinish(p: nat, t: nat, db: Db)
    | Finish(p: nat, t: nat, emptied: bool)   // _recover_locked, which may raise and leave the journal
    | Recover(p: nat, t: nat, emptied: bool)
    | Crash(p: nat)

  predicate There(s: State, p: nat, t: nat) {
    p < |s.processes| && t < |s.processes[p].threads|
  }

  function ThreadAt(s: State, p: nat, t: nat): Thread
    requires There(s, p, t)
  {
    s.processes[p].threads[t]
  }

  function Me(s: State, p: nat, t: nat): Who
    requires There(s, p, t)
  {
    Who(p, t, s.processes[p].life)
  }

  function WithThread(s: State, p: nat, t: nat, thread: Thread): State
    requires There(s, p, t)
  {
    var process := s.processes[p];
    s.(processes := s.processes[p := process.(threads := process.threads[t := thread])])
  }

  function WithProcess(s: State, p: nat, lock: Option<nat>, active: set<Db>): State
    requires p < |s.processes|
  {
    s.(processes := s.processes[p := s.processes[p].(lock := lock, active := active)])
  }

  /** The lock is re-entrant: it stays with a thread that still has a change open. */
  function Released(thread: Thread, t: nat): Option<nat> {
    if thread.open == {} then None else Some(t)
  }

  /** Give back the process lock and stop. */
  function Leave(s: State, p: nat, t: nat): State
    requires There(s, p, t)
  {
    var thread := ThreadAt(s, p, t);
    WithProcess(WithThread(s, p, t, thread.(pc := Free)), p, Released(thread, t), s.processes[p].active)
  }

  predicate Enabled(s: State, a: Action) {
    match a
    case CallBegin(p, t, _) => There(s, p, t) && ThreadAt(s, p, t).pc.Free?
    case CallRecover(p, t, _) => There(s, p, t) && ThreadAt(s, p, t).pc.Free?
    case GetLock(p, t) => There(s, p, t) && ThreadAt(s, p, t).pc.WaitLock? && s.processes[p].lock in {None, Some(t)}
    case GetFile(p, t) => There(s, p, t) && ThreadAt(s, p, t).pc.WaitFile? && ThreadAt(s, p, t).pc.db !in s.files
    case Empty(p, t) => There(s, p, t) && ThreadAt(s, p, t).pc.Opening? && !ThreadAt(s, p, t).pc.emptied
    case MakeJournal(p, t) =>
      There(s, p, t) && ThreadAt(s, p, t).pc.Opening? && ThreadAt(s, p, t).pc.emptied &&
          ThreadAt(s, p, t).pc.db !in s.journals
    case Publish(p, t) =>
      There(s, p, t) && ThreadAt(s, p, t).pc.Opening? && ThreadAt(s, p, t).pc.emptied &&
          ThreadAt(s, p, t).pc.db in s.journals
    case OpeningFails(p, t, _) => There(s, p, t) && ThreadAt(s, p, t).pc.Opening?
    case CallFinish(p, t, db) => There(s, p, t) && ThreadAt(s, p, t).pc.Free? && db in ThreadAt(s, p, t).open
    case Finish(p, t, _) => There(s, p, t) && ThreadAt(s, p, t).pc.Finishing?
    case Recover(p, t, _) => There(s, p, t) && ThreadAt(s, p, t).pc.Recovering?
    case Crash(p) => p < |s.processes|
  }

  function Step(s: State, a: Action): State
    requires Enabled(s, a)
  {
    match a
    case CallBegin(p, t, db) => WithThread(s, p, t, ThreadAt(s, p, t).(pc := WaitLock(db, false)))
    case CallRecover(p, t, db) => WithThread(s, p, t, ThreadAt(s, p, t).(pc := WaitLock(db, true)))
    case GetLock(p, t) =>
      var pc := ThreadAt(s, p, t).pc;
      if pc.db in s.processes[p].active || (pc.recovering && pc.db !in s.journals) then Leave(s, p, t)
      else
        WithProcess(WithThread(s, p, t, ThreadAt(s, p, t).(pc := WaitFile(pc.db, pc.recovering))), p, Some(t),
            s.processes[p].active)
    case GetFile(p, t) =>
      var pc := ThreadAt(s, p, t).pc;
      WithThread(s.(files := s.files[pc.db := Me(s, p, t)]), p, t,
                 ThreadAt(s, p, t).(pc := if pc.recovering then Recovering(pc.db) else Opening(pc.db, false)))
    case Empty(p, t) =>
      var db := ThreadAt(s, p, t).pc.db;
      WithThread(s.(journals := s.journals - {db}), p, t, ThreadAt(s, p, t).(pc := Opening(db, true)))
    case MakeJournal(p, t) => s.(journals := s.journals[ThreadAt(s, p, t).pc.db := Journal(Me(s, p, t), false)])
    case Publish(p, t) =>
      var thread := ThreadAt(s, p, t);
      var published := s.(journals := s.journals[thread.pc.db := s.journals[thread.pc.db].(ready := true)]);
      WithProcess(WithThread(published, p, t, Thread(Free, thread.open + {thread.pc.db})), p, Some(t),
          s.processes[p].active + {thread.pc.db})
    case OpeningFails(p, t, ready) =>
      var pc := ThreadAt(s, p, t).pc;
      var journals := if pc.emptied && pc.db in s.journals then s.journals[pc.db := s.journals[pc.db].(ready := ready)]
          else s.journals;
      Leave(State(s.processes, s.files - {pc.db}, journals), p, t)
    case CallFinish(p, t, db) => WithThread(s, p, t, ThreadAt(s, p, t).(pc := Finishing(db)))
    case Finish(p, t, emptied) =>
      var thread := ThreadAt(s, p, t);
      var db := thread.pc.db;
      var left := Thread(Free, thread.open - {db});
      var after := State(s.processes, s.files - {db}, if emptied then s.journals - {db} else s.journals);
      WithProcess(WithThread(after, p, t, left), p, Released(left, t), s.processes[p].active - {db})
    case Recover(p, t, emptied) =>
      var db := ThreadAt(s, p, t).pc.db;
      Leave(State(s.processes, s.files - {db}, if emptied then s.journals - {db} else s.journals), p, t)
    case Crash(p) =>
      var process := s.processes[p];
      var threads := seq(|process.threads|, i => Thread(Free, {}));
      State(s.processes[p := Process(threads, None, {}, process.life + 1)],
            map db | db in s.files && s.files[db].process != p :: s.files[db], s.journals)
  }

  // ---------- what every reachable state satisfies ----------

  /** The databases whose file lock this thread holds. */
  function Holds(thread: Thread): set<Db> {
    thread.open + (if thread.pc.Opening? || thread.pc.Recovering? then {thread.pc.db} else {})
  }

  /** The thread is inside the lock of its process. */
  predicate Inside(thread: Thread) {
    thread.open != {} || thread.pc.WaitFile? || thread.pc.Opening? || thread.pc.Recovering?
  }

  ghost predicate FilesOk(s: State) {
    && (forall p, t, db :: There(s, p, t) && db in Holds(ThreadAt(s, p, t)) ==>
         db in s.files && s.files[db] == Me(s, p, t))
    && forall db :: db in s.files ==>
         There(s, s.files[db].process, s.files[db].thread)
         && db in Holds(ThreadAt(s, s.files[db].process, s.files[db].thread))
         && s.files[db] == Me(s, s.files[db].process, s.files[db].thread)
  }

  ghost predicate ThreadOk(s: State, p: nat, t: nat)
    requires There(s, p, t)
  {
    var thread := ThreadAt(s, p, t);
    && (Inside(thread) ==> s.processes[p].lock == Some(t))
    && thread.open <= s.processes[p].active
    && ((thread.pc.WaitFile? || thread.pc.Opening? || thread.pc.Recovering?) ==> thread.pc.db !in thread.open)
    && (thread.pc.Finishing? ==> thread.pc.db in thread.open)
    && forall db :: db in thread.open ==> db in s.journals && s.journals[db] == Journal(Me(s, p, t), true)
  }

  /** A change being prepared is the only one to have put a journal there since it emptied the place. */
  ghost predicate OpeningOk(s: State, p: nat, t: nat)
    requires There(s, p, t)
  {
    var pc := ThreadAt(s, p, t).pc;
    pc.Opening? && pc.emptied && pc.db in s.journals ==> s.journals[pc.db].owner == Me(s, p, t)
  }

  ghost predicate ActiveOk(s: State) {
    forall p, db :: 0 <= p < |s.processes| && db in s.processes[p].active ==>
      s.processes[p].lock.Some? && There(s, p, s.processes[p].lock.value)
      && db in ThreadAt(s, p, s.processes[p].lock.value).open
  }

  ghost predicate ThreadsOk(s: State) {
    forall p, t :: There(s, p, t) ==> ThreadOk(s, p, t) && OpeningOk(s, p, t)
  }

  ghost predicate Inv(s: State) {
    FilesOk(s) && ActiveOk(s) && ThreadsOk(s)
  }

  // ---------- preservation ----------

  /** Only thread (p, t) differs between the processes of two states, and perhaps the fields of process p. */
  ghost predicate OnlyThread(s: State, s': State, p: nat, t: nat) {
    && There(s, p, t) && There(s', p, t) && |s'.processes| == |s.processes|
    && |s'.processes[p].threads| == |s.processes[p].threads| && s'.processes[p].life == s.processes[p].life
    && (forall q :: 0 <= q < |s.processes| && q != p ==> s'.processes[q] == s.processes[q])
    && forall u :: 0 <= u < |s.processes[p].threads| && u != t ==>
         s'.processes[p].threads[u] == s.processes[p].threads[u]
  }

  lemma {:induction false} StepIsLocal(s: State, a: Action)
    requires Enabled(s, a) && !a.Crash?
    ensures OnlyThread(s, Step(s, a), a.p, a.t)
  {
  }

  /** A step touches the locks and journals of databases that its thread holds, before or after. */
  ghost predicate TouchesOwn(s: State, s': State, p: nat, t: nat)
    requires There(s, p, t) && There(s', p, t)
  {
    var own := Holds(ThreadAt(s, p, t)) + Holds(ThreadAt(s', p, t));
    && (forall db :: db !in own ==>
         (db in s'.files <==> db in s.files) && (db in s.files ==> s'.files[db] == s.files[db]))
    && (forall db :: db !in own ==>
          (db in s'.journals <==> db in s.journals) && (db in s.journals ==> s'.journals[db] == s.journals[db]))
    && (forall db :: db in Holds(ThreadAt(s, p, t)) && db !in Holds(ThreadAt(s', p, t)) ==> db !in s'.files)
    && (forall db :: db in Holds(ThreadAt(s', p, t)) ==>
         db in s'.files && (db in s.files ==> s'.files[db] == s.files[db]))
    && forall db :: db in Holds(ThreadAt(s', p, t)) && db !in Holds(ThreadAt(s, p, t)) ==>
         db !in s.files && s'.files[db] == Me(s, p, t)
  }

  lemma {:induction false} EntriesTouchOwn(s: State, a: Action)
    requires FilesOk(s) && Enabled(s, a) && !a.Crash? && ThreadOk(s, a.p, a.t)
    requires a.CallBegin? || a.CallRecover? || a.GetLock? || a.CallFinish?
    ensures There(Step(s, a), a.p, a.t) && TouchesOwn(s, Step(s, a), a.p, a.t)
  {
    assert forall db :: db in Holds(ThreadAt(s, a.p, a.t)) ==> db in s.files && s.files[db] == Me(s, a.p, a.t);
  }

  lemma {:induction false} OpeningsTouchOwn(s: State, a: Action)
    requires FilesOk(s) && Enabled(s, a) && !a.Crash? && ThreadOk(s, a.p, a.t)
    requires a.Empty? || a.MakeJournal? || a.Publish?
    ensures There(Step(s, a), a.p, a.t) && TouchesOwn(s, Step(s, a), a.p, a.t)
  {
    assert forall db :: db in Holds(ThreadAt(s, a.p, a.t)) ==> db in s.files && s.files[db] == Me(s, a.p, a.t);
  }

  lemma {:induction false} FailureTouchesOwn(s: State, a: Action)
    requires FilesOk(s) && Enabled(s, a) && !a.Crash? && ThreadOk(s, a.p, a.t)
    requires a.OpeningFails?
    ensures There(Step(s, a), a.p, a.t) && TouchesOwn(s, Step(s, a), a.p, a.t)
  {
    assert forall db :: db in Holds(ThreadAt(s, a.p, a.t)) ==> db in s.files && s.files[db] == Me(s, a.p, a.t);
  }

  lemma {:induction false} RecoverTouchesOwn(s: State, a: Action)
    requires FilesOk(s) && Enabled(s, a) && a.Recover? && ThreadOk(s, a.p, a.t)
    ensures There(Step(s, a), a.p, a.t) && TouchesOwn(s, Step(s, a), a.p, a.t)
  {
    assert forall db :: db in Holds(ThreadAt(s, a.p, a.t)) ==> db in s.files && s.files[db] == Me(s, a.p, a.t);
  }

  lemma {:induction false} GetFileTouchesOwn(s: State, a: Action)
    requires FilesOk(s) && Enabled(s, a) && a.GetFile? && ThreadOk(s, a.p, a.t)
    ensures There(Step(s, a), a.p, a.t) && TouchesOwn(s, Step(s, a), a.p, a.t)
  {
    assert forall db :: db in Holds(ThreadAt(s, a.p, a.t)) ==> db in s.files && s.files[db] == Me(s, a.p, a.t);
  }

  lemma {:induction false} FinishTouchesOwn(s: State, a: Action)
    requires FilesOk(s) && Enabled(s, a) && a.Finish? && ThreadOk(s, a.p, a.t)
    ensures There(Step(s, a), a.p, a.t) && TouchesOwn(s, Step(s, a), a.p, a.t)
  {
    assert forall db :: db in Holds(ThreadAt(s, a.p, a.t)) ==> db in s.files && s.files[db] == Me(s, a.p, a.t);
  }

  lemma {:induction false} StepTouchesOwn(s: State, a: Action)
    requires FilesOk(s) && Enabled(s, a) && !a.Crash? && ThreadOk(s, a.p, a.t)
    ensures There(Step(s, a), a.p, a.t) && TouchesOwn(s, Step(s, a), a.p, a.t)
  {
    hide FilesOk, ThreadOk, Step, TouchesOwn, Enabled;
    if a.CallBegin? || a.CallRecover? || a.GetLock? || a.CallFinish? {
      EntriesTouchOwn(s, a);
    } else if a.GetFile? {
      GetFileTouchesOwn(s, a);
    } else if a.Recover? {
      RecoverTouchesOwn(s, a);
    } else if a.Empty? || a.MakeJournal? || a.Publish? {
      OpeningsTouchOwn(s, a);
    } else if a.Finish? {
      FinishTouchesOwn(s, a);
    } else {
      FailureTouchesOwn(s, a);
    }
  }

  lemma {:induction false} Exclusive(s: State, p: nat, t: nat, q: nat, u: nat, db: Db)
    requires FilesOk(s) && There(s, p, t) && There(s, q, u)
    requires db in Holds(ThreadAt(s, p, t)) && db in Holds(ThreadAt(s, q, u))
    ensures p == q && t == u
  {
    assert s.files[db] == Me(s, p, t) && s.files[db] == Me(s, q, u);
  }

  lemma {:induction false} FilesKept(s: State, s': State, p: nat, t: nat)
    requires FilesOk(s) && OnlyThread(s, s', p, t) && TouchesOwn(s, s', p, t)
    ensures FilesOk(s')
  {
    hide Holds;
    forall q, u, db | There(s', q, u) && db in Holds(ThreadAt(s', q, u))
      ensures db in s'.files && s'.files[db] == Me(s', q, u)
    {
      HolderKept(s, s', p, t, q, u, db);
    }
    forall db | db in s'.files
      ensures There(s', s'.files[db].process, s'.files[db].thread)
        && db in Holds(ThreadAt(s', s'.files[db].process, s'.files[db].thread))
        && s'.files[db] == Me(s', s'.files[db].process, s'.files[db].thread)
    {
      if db !in Holds(ThreadAt(s', p, t)) {
        assert db !in Holds(ThreadAt(s, p, t));
        var who := s.files[db];
        assert There(s, who.process, who.thread) && db in Holds(ThreadAt(s, who.process, who.thread));
      }
    }
  }

  lemma {:induction false} HolderKept(s: State, s': State, p: nat, t: nat, q: nat, u: nat, db: Db)
    requires FilesOk(s) && OnlyThread(s, s', p, t) && TouchesOwn(s, s', p, t)
    requires There(s', q, u) && db in Holds(ThreadAt(s', q, u))
    ensures db in s'.files && s'.files[db] == Me(s', q, u)
  {
    hide Holds;
    if q == p && u == t {
      assert db in Holds(ThreadAt(s, p, t)) ==> s.files[db] == Me(s, p, t);
    } else {
      assert ThreadAt(s', q, u) == ThreadAt(s, q, u) && s.files[db] == Me(s, q, u);
      assert db in Holds(ThreadAt(s, p, t)) ==> s.files[db] == Me(s, p, t);
    }
  }

  /** What a thread knows is untouched by the steps of the others. */
  lemma {:induction false} OthersKept(s: State, s': State, p: nat, t: nat, q: nat, u: nat)
    requires FilesOk(s) && OnlyThread(s, s', p, t) && TouchesOwn(s, s', p, t)
    requires There(s, q, u) && !(q == p && u == t) && ThreadOk(s, q, u) && OpeningOk(s, q, u)
    requires q == p ==> ProcessKept(s, s', p, u)
    ensures ThreadOk(s', q, u) && OpeningOk(s', q, u)
  {
    assert ThreadAt(s', q, u) == ThreadAt(s, q, u) && Me(s', q, u) == Me(s, q, u);
    forall db | db in Holds(ThreadAt(s, q, u))
      ensures (db in s'.journals <==> db in s.journals) && (db in s.journals ==> s'.journals[db] == s.journals[db])
    {
      if db in Holds(ThreadAt(s, p, t)) {
        Exclusive(s, p, t, q, u, db);
      }
    }
  }

  /** A step of another thread leaves the process lock and the changes of thread `u` in place. */
  ghost predicate ProcessKept(s: State, s': State, p: nat, u: nat)
    requires There(s, p, u) && There(s', p, u)
  {
    && (Inside(ThreadAt(s, p, u)) ==> s'.processes[p].lock == s.processes[p].lock)
    && forall db :: db in ThreadAt(s, p, u).open ==> db in s.processes[p].active ==> db in s'.processes[p].active
  }

  lemma {:induction false} LockIsKept(s: State, a: Action, u: nat)
    requires FilesOk(s) && Enabled(s, a) && !a.Crash? && ThreadOk(s, a.p, a.t) && There(s, a.p, u) && u != a.t
    requires ThreadOk(s, a.p, u)
    ensures There(Step(s, a), a.p, u) && ProcessKept(s, Step(s, a), a.p, u)
  {
  }

  lemma {:induction false} OwnKept(s: State, a: Action)
    requires FilesOk(s) && Enabled(s, a) && !a.Crash? && ThreadOk(s, a.p, a.t) && OpeningOk(s, a.p, a.t)
    requires There(Step(s, a), a.p, a.t)
    ensures ThreadOk(Step(s, a), a.p, a.t) && OpeningOk(Step(s, a), a.p, a.t)
  {
  }

  lemma {:induction false} ActiveKept(s: State, a: Action)
    requires ActiveOk(s) && ThreadsOk(s) && Enabled(s, a) && !a.Crash?
    ensures ActiveOk(Step(s, a))
  {
    StepIsLocal(s, a);
    assert ThreadOk(s, a.p, a.t);
  }

  lemma {:induction false} CrashKeeps(s: State, p: nat)
    requires Inv(s) && p < |s.processes|
    ensures Inv(Step(s, Crash(p)))
  {
    var s' := Step(s, Crash(p));
    assert forall u :: 0 <= u < |s'.processes[p].threads| ==> s'.processes[p].threads[u] == Thread(Free, {});
    forall q, u | There(s', q, u)
      ensures ThreadOk(s', q, u) && OpeningOk(s', q, u)
      ensures forall db :: db in Holds(ThreadAt(s', q, u)) ==> db in s'.files && s'.files[db] == Me(s', q, u)
    {
      if q != p {
        assert ThreadOk(s, q, u) && OpeningOk(s, q, u);
        assert forall db :: db in Holds(ThreadAt(s, q, u)) ==> s.files[db] == Me(s, q, u);
      }
    }
  }

  lemma {:induction false} StepKeeps(s: State, a: Action)
    requires Inv(s) && Enabled(s, a)
    ensures Inv(Step(s, a))
  {
    if a.Crash? {
      CrashKeeps(s, a.p);
    } else {
      hide FilesOk, ActiveOk, ThreadOk, OpeningOk, TouchesOwn, OnlyThread, ProcessKept, Step;
      var s' := Step(s, a);
      ThreadIsThere(s, a);
      StepIsLocal(s, a);
      StepTouchesOwn(s, a);
      FilesKept(s, s', a.p, a.t);
      ActiveKept(s, a);
      forall q, u | There(s', q, u)
        ensures ThreadOk(s', q, u) && OpeningOk(s', q, u)
      {
        SameThere(s, s', a.p, a.t, q, u);
        if q == a.p && u == a.t {
          OwnKept(s, a);
        } else {
          if q == a.p { LockIsKept(s, a, u); }
          OthersKept(s, s', a.p, a.t, q, u);
        }
      }
    }
  }

  lemma {:induction false} ThreadIsThere(s: State, a: Action)
    requires Enabled(s, a) && !a.Crash?
    ensures There(s, a.p, a.t)
  {
  }

  lemma {:induction false} SameThere(s: State, s': State, p: nat, t: nat, q: nat, u: nat)
    requires OnlyThread(s, s', p, t)
    ensures There(s', q, u) <==> There(s, q, u)
  {
  }

  // ---------- runs ----------

  ghost predicate Initial(s: State) {
    && s.files == map[]
    && (forall p :: 0 <= p < |s.processes| ==> s.processes[p].lock == None && s.processes[p].active == {})
    && forall p, t :: There(s, p, t) ==> ThreadAt(s, p, t) == Thread(Free, {})
  }

  ghost predicate Run(states: seq<State>, actions: seq<Action>) {
    && |states| == |actions| + 1
    && forall i :: 0 <= i < |actions| ==> Enabled(states[i], actions[i]) && states[i + 1] == Step(states[i], actions[i])
  }

  lemma {:induction false} RunKeeps(states: seq<State>, actions: seq<Action>, i: nat)
    requires Run(states, actions) && Initial(states[0]) && i < |states|
    ensures Inv(states[i])
  {
    if i > 0 {
      RunKeeps(states, actions, i - 1);
      assert states[i - 1 + 1] == Step(states[i - 1], actions[i - 1]);
      StepKeeps(states[i - 1], actions[i - 1]);
    }
  }

  /** Thread (p, t) has a change of the database open. */
  predicate HasOpen(s: State, p: nat, t: nat, db: Db) {
    There(s, p, t) && db in ThreadAt(s, p, t).open
  }

  /** While a change is open its journal is there, published and its own, and nobody else opens one. */
  lemma {:induction false} OpenChangeOwnsItsJournal(states: seq<State>, actions: seq<Action>, i: nat, p: nat, t: nat,
        db: Db)
    requires Run(states, actions) && Initial(states[0]) && i < |states| && HasOpen(states[i], p, t, db)
    ensures db in states[i].journals && states[i].journals[db] == Journal(Me(states[i], p, t), true)
    ensures forall q, u :: HasOpen(states[i], q, u, db) ==> q == p && u == t
  {
    RunKeeps(states, actions, i);
    var s := states[i];
    assert ThreadOk(s, p, t);
    forall q, u | HasOpen(s, q, u, db)
      ensures q == p && u == t
    {
      Exclusive(s, p, t, q, u, db);
    }
  }

  /** Only its owner's own finish touches the journal of an open change: not a recovery, not another process. */
  lemma {:induction false} OnlyTheOwnerTouches(states: seq<State>, actions: seq<Action>, i: nat, p: nat, t: nat, db: Db)
    requires Run(states, actions) && Initial(states[0]) && i < |actions| && HasOpen(states[i], p, t, db)
    requires !(actions[i].Finish? && actions[i].p == p && actions[i].t == t && ThreadAt(states[i], p, t).pc.db == db)
    ensures db in states[i].journals && db in states[i + 1].journals
    ensures states[i + 1].journals[db] == states[i].journals[db]
  {
    RunKeeps(states, actions, i);
    var s, a := states[i], actions[i];
    assert ThreadOk(s, p, t);
    if !a.Crash? {
      ThreadIsThere(s, a);
      assert ThreadOk(s, a.p, a.t);
      StepTouchesOwn(s, a);
      NotHeldByOthers(s, a, p, t, db);
    }
  }

  lemma {:induction false} NotHeldByOthers(s: State, a: Action, p: nat, t: nat, db: Db)
    requires Inv(s) && Enabled(s, a) && !a.Crash? && There(s, a.p, a.t) && HasOpen(s, p, t, db) && ThreadOk(s, p, t)
    requires !(a.Finish? && a.p == p && a.t == t && ThreadAt(s, p, t).pc.db == db)
    ensures db in s.journals && db in Step(s, a).journals && Step(s, a).journals[db] == s.journals[db]
  {
    if db in Holds(ThreadAt(s, a.p, a.t)) {
      Exclusive(s, p, t, a.p, a.t, db);
    }
    assert ThreadOk(s, a.p, a.t);
  }

  /** Under the file lock nothing is open, so whatever changed since the look at the disk does no harm. */
  lemma {:induction false} RecoveryMeetsNoOpenChange(states: seq<State>, actions: seq<Action>, i: nat, p: nat, t: nat,
        emptied: bool)
    requires Run(states, actions) && Initial(states[0]) && i < |actions| && actions[i] == Recover(p, t, emptied)
    ensures var db := ThreadAt(states[i], p, t).pc.db;
            && (forall q, u :: !HasOpen(states[i], q, u, db))
            && (db in states[i].journals && states[i].journals[db].ready ==>
                  forall q, u :: There(states[i], q, u) && Me(states[i], q, u) == states[i].journals[db].owner ==>
                    !HasOpen(states[i], q, u, db))
  {
    RunKeeps(states, actions, i);
    var s := states[i];
    var db := ThreadAt(s, p, t).pc.db;
    assert ThreadOk(s, p, t);
    forall q, u
      ensures !HasOpen(s, q, u, db)
    {
      if HasOpen(s, q, u, db) {
        Exclusive(s, p, t, q, u, db);
      }
    }
  }

  /** The next taker: a free thread that asks for recovery gets to run it, and the journal goes. */
  lemma {:induction false} CrashedJournalIsRecovered(states: seq<State>, actions: seq<Action>, i: nat, p: nat, t: nat,
        db: Db)
    requires Run(states, actions) && Initial(states[0]) && i < |states| && There(states[i], p, t)
    requires ThreadAt(states[i], p, t).pc.Free? && states[i].processes[p].lock in {None, Some(t)}
    requires db in states[i].journals && db !in states[i].files
    ensures var s0 := states[i];
            && Enabled(s0, CallRecover(p, t, db))
            && var s1 := Step(s0, CallRecover(p, t, db));
            && Enabled(s1, GetLock(p, t))
            && var s2 := Step(s1, GetLock(p, t));
            && Enabled(s2, GetFile(p, t))
            && var s3 := Step(s2, GetFile(p, t));
            && Enabled(s3, Recover(p, t, true))
            && db !in Step(s3, Recover(p, t, true)).journals
  {
    RunKeeps(states, actions, i);
    if db in states[i].processes[p].active {
      ActiveIsLocked(states[i], p, db);
    }
  }

  lemma {:induction false} ActiveIsLocked(s: State, p: nat, db: Db)
    requires Inv(s) && p < |s.processes| && db in s.processes[p].active
    ensures db in s.files
  {
    assert db in Holds(ThreadAt(s, p, s.processes[p].lock.value));
  }

  predicate Alive(s: State, who: Who) {
    There(s, who.process, who.thread) && Me(s, who.process, who.thread) == who
  }

  /** After a crash nobody holds what the crashed process held, so the lemma above applies to its journals. */
  lemma {:induction false} CrashFreesItsLocks(states: seq<State>, actions: seq<Action>, i: nat, p: nat, t: nat, db: Db)
    requires Run(states, actions) && Initial(states[0]) && i < |actions| && actions[i] == Crash(p)
    requires HasOpen(states[i], p, t, db)
    ensures db in states[i + 1].journals && states[i + 1].journals[db] == Journal(Me(states[i], p, t), true)
    ensures db !in states[i + 1].files
    ensures !Alive(states[i + 1], Me(states[i], p, t))
  {
    RunKeeps(states, actions, i);
    assert ThreadOk(states[i], p, t);
    assert db in Holds(ThreadAt(states[i], p, t));
  }

  // ---------- how calls end ----------

  /** The thread is out of the call, and has the process lock only as long as it has a change open. */
  ghost predicate OutOfCall(s: State, p: nat, t: nat, open: set<Db>) {
    There(s, p, t) && ThreadAt(s, p, t) == Thread(Free, open)
    && s.processes[p].lock == (if open == {} then None else Some(t))
  }

  /** A change that this process has open is not opened again, and without a journal there is nothing to recover:
      such a call ends at once and touches neither locks nor journals of databases. */
  lemma {:induction false} CallTurnsBack(s: State, p: nat, t: nat)
    requires Enabled(s, GetLock(p, t))
    requires var pc := ThreadAt(s, p, t).pc; pc.db in s.processes[p].active || (pc.recovering && pc.db !in s.journals)
    ensures var after := Step(s, GetLock(p, t));
      after.files == s.files && after.journals == s.journals && OutOfCall(after, p, t, ThreadAt(s, p, t).open)
  {
  }

  /** Any other call goes on to wait for the lock of its database. */
  lemma {:induction false} CallGoesOn(s: State, p: nat, t: nat)
    requires Enabled(s, GetLock(p, t))
    requires var pc := ThreadAt(s, p, t).pc; pc.db !in s.processes[p].active && (pc.recovering ==> pc.db in s.journals)
    ensures There(Step(s, GetLock(p, t)), p, t) && ThreadAt(Step(s, GetLock(p, t)), p, t).pc.WaitFile?
    ensures ThreadAt(Step(s, GetLock(p, t)), p, t).pc.db == ThreadAt(s, p, t).pc.db
  {
  }

  /** An opening that fails gives back both locks and leaves a journal that the next taker will find. */
  lemma {:induction false} FailedOpeningReleases(s: State, p: nat, t: nat, ready: bool)
    requires Enabled(s, OpeningFails(p, t, ready))
    ensures var after, db := Step(s, OpeningFails(p, t, ready)), ThreadAt(s, p, t).pc.db;
      && OutOfCall(after, p, t, ThreadAt(s, p, t).open) && after.files == s.files - {db}
      && after.journals.Keys == s.journals.Keys
      && forall d :: d in s.journals && d != db ==> after.journals[d] == s.journals[d]
  {
  }

  /** The end of a change, or of a recovery, gives back both locks, and the journal goes unless recovery raised. */
  lemma {:induction false} FinishReleases(s: State, p: nat, t: nat, emptied: bool, a: Action)
    requires a in {Finish(p, t, emptied), Recover(p, t, emptied)} && Enabled(s, a)
    ensures var after, db := Step(s, a), ThreadAt(s, p, t).pc.db;
      && OutOfCall(after, p, t, ThreadAt(s, p, t).open - (if a.Finish? then {db} else {}))
      && after.files == s.files - {db} && after.journals == (if emptied then s.journals - {db} else s.journals)
      && (a.Finish? ==> db !in after.processes[p].active)
  {
  }
}

/**
 One request's transaction: a lazily opened session, a journalled change for each database
 touched, and the callbacks to run when the request fails.
 */
module RequestTransaction {
  import opened Wrappers

  datatype Callback = Teardown(id: nat) | UndoOf(database: nat)

  /** `marked`: the committed marker is written, so recovery keeps the new content.
      `settled`: the journal was taken away; otherwise the next start does it. */
  datatype Change = Change(marked: bool, finished: bool, settled: bool)

  datatype Session = NotOpened | Clean | InTransaction | Closed

  /** How one commit ends.  Only `FailsUnmarked` raises before the marker is there. */
  datatype Fate = Completes | FailsUnmarked | FailsMarked | FailsInCleanup

  /** Which calls outside this module raise: commits not named complete. */
  datatype Faults = Faults(body: bool, sessionCommit: bool, sessionRollback: bool, sessionClose: bool,
                           commit: map<nat, Fate>, undo: set<nat>, teardown: set<nat>) {
    function Commit(database: nat): Fate { if database in commit then commit[database] else Completes }
  }

  datatype Raised =
    | Body | SessionCommit | SessionRollback | SessionClose | CommitOf(database: nat) | FromCallback(callback: Callback)

  const OPEN := Change(false, false, false)

  function Reversed(cs: seq<Callback>): seq<Callback> {
    if cs == [] then [] else [cs[|cs| - 1]] + Reversed(cs[..|cs| - 1])
  }

  /** The databases whose rollback is registered, in order. */
  function Undos(cs: seq<Callback>): seq<nat> {
    if cs == [] then []
    else Undos(cs[..|cs| - 1]) + (if cs[|cs| - 1].UndoOf? then [cs[|cs| - 1].database] else [])
  }

  ghost predicate Distinct(dbs: seq<nat>) {
    forall i, j :: 0 <= i < j < |dbs| ==> dbs[i] != dbs[j]
  }

  /** A rollback of a finished change does nothing. */
  predicate Raises(faults: Faults, changes: map<nat, Change>, c: Callback) {
    match c
    case Teardown(id) => id in faults.teardown
    case UndoOf(database) => database in changes && !changes[database].finished && database in faults.undo
  }

  /** Of the callbacks that raise, the one registered first. */
  ghost function FirstRaised(faults: Faults, changes: map<nat, Change>, cs: seq<Callback>): Option<Raised> {
    if cs == [] then None
    else
      var earlier := FirstRaised(faults, changes, cs[..|cs| - 1]);
      if earlier.Some? then earlier
      else if Raises(faults, changes, cs[|cs| - 1]) then Some(FromCallback(cs[|cs| - 1]))
      else None
  }

  lemma {:induction false} FirstRaisedIsFirst(faults: Faults, changes: map<nat, Change>, cs: seq<Callback>)
    ensures FirstRaised(faults, changes, cs).None? <==> forall c :: c in cs ==> !Raises(faults, changes, c)
    ensures FirstRaised(faults, changes, cs).Some? ==>
      exists i :: 0 <= i < |cs| && FirstRaised(faults, changes, cs) == Some(FromCallback(cs[i])) &&
          Raises(faults, changes, cs[i])
        && forall j :: 0 <= j < i ==> !Raises(faults, changes, cs[j])
  {
    hide Raises;
    if cs != [] {
      var front := cs[..|cs| - 1];
      FirstRaisedIsFirst(faults, changes, front);
      assert cs == front + [cs[|cs| - 1]];
      if FirstRaised(faults, changes, front).Some? {
        var i :| 0 <= i < |front| && FirstRaised(faults, changes, front) == Some(FromCallback(front[i]))
          && Raises(faults, changes, front[i]) && forall j :: 0 <= j < i ==> !Raises(faults, changes, front[j]);
        assert cs[i] == front[i] && cs[i] in cs;
      }
    }
  }

  /** Every change of `dbs` that was still open is finished, and settled unless its recovery raised. */
  function Undone(faults: Faults, changes: map<nat, Change>, dbs: seq<nat>): map<nat, Change> {
    map db | db in changes ::
      if db in dbs && !changes[db].finished then
        changes[db].(finished := true, settled := db !in faults.undo) else changes[db]
  }

  ghost predicate UndoesKnown(changes: map<nat, Change>, cs: seq<Callback>) {
    Distinct(Undos(cs)) && forall db :: db in Undos(cs) ==> db in changes
  }

  lemma {:induction false} NothingUndone(faults: Faults, changes: map<nat, Change>)
    ensures Undone(faults, changes, Undos([])) == changes && FirstRaised(faults, changes, []) == None
    ensures Reversed([]) == []
  {
  }

  lemma {:induction false} StepReversed(ran: seq<Callback>, cs: seq<Callback>)
    requires cs != []
    ensures ran + [cs[|cs| - 1]] + Reversed(cs[..|cs| - 1]) == ran + Reversed(cs)
  {
  }

  lemma {:induction false} UndosIn(cs: seq<Callback>)
    ensures forall db :: db in Undos(cs) <==> UndoOf(db) in cs
  {
    if cs != [] {
      UndosIn(cs[..|cs| - 1]);
      assert cs == cs[..|cs| - 1] + [cs[|cs| - 1]];
    }
  }

  /** Running the callback registered last leaves the others as they were. */
  lemma {:induction false} UndoLast(faults: Faults, changes: map<nat, Change>, cs: seq<Callback>)
    requires cs != [] && UndoesKnown(changes, cs)
    ensures var front, last := cs[..|cs| - 1], cs[|cs| - 1];
      var mid := if last.UndoOf? then Undone(faults, changes, [last.database]) else changes;
      && UndoesKnown(mid, front)
      && Undone(faults, mid, Undos(front)) == Undone(faults, changes, Undos(cs))
      && FirstRaised(faults, mid, front) == FirstRaised(faults, changes, front)
  {
    var front, last := cs[..|cs| - 1], cs[|cs| - 1];
    var mid := if last.UndoOf? then Undone(faults, changes, [last.database]) else changes;
    UndosIn(front);
    if last.UndoOf? {
      assert Undos(cs)[|Undos(front)|] == last.database;
      forall db | db in Undos(front)
        ensures db != last.database && db in Undos(cs)
      {
        var i :| 0 <= i < |Undos(front)| && Undos(front)[i] == db;
        assert Undos(cs)[i] == db;
      }
      assert last.database in Undos(cs);
    } else {
      assert Undos(cs) == Undos(front);
    }
    forall i, j | 0 <= i < j < |Undos(front)|
      ensures Undos(front)[i] != Undos(front)[j]
    {
      assert Undos(cs)[i] == Undos(front)[i] && Undos(cs)[j] == Undos(front)[j];
    }
    SameRaised(faults, changes, mid, front);
  }

  lemma {:induction false} StepRaised(faults: Faults, changes: map<nat, Change>, cs: seq<Callback>)
    requires cs != []
    ensures FirstRaised(faults, changes, cs) == (
      var earlier := FirstRaised(faults, changes, cs[..|cs| - 1]);
      if earlier.Some? then earlier
      else if Raises(faults, changes, cs[|cs| - 1]) then Some(FromCallback(cs[|cs| - 1])) else None)
  {
  }

  lemma {:induction false} SameRaised(faults: Faults, changes: map<nat, Change>, mid: map<nat, Change>,
        cs: seq<Callback>)
    requires forall c :: c in cs ==> Raises(faults, changes, c) == Raises(faults, mid, c)
    ensures FirstRaised(faults, changes, cs) == FirstRaised(faults, mid, cs)
  {
    if cs != [] {
      SameRaised(faults, changes, mid, cs[..|cs| - 1]);
    }
  }

  /** How many changes are marked when the commits are run in order of registration. */
  ghost function Marks(faults: Faults, dbs: seq<nat>): (m: nat)
    ensures m <= |dbs|
  {
    if dbs == [] then 0
    else match faults.Commit(dbs[0])
      case Completes => 1 + Marks(faults, dbs[1..])
      case FailsUnmarked => 0
      case _ => 1
  }

  function AfterCommit(fate: Fate, changes: map<nat, Change>, db: nat): Change {
    match fate
    case Completes => Change(true, true, true)
    case FailsUnmarked => if db in changes then changes[db] else OPEN
    case FailsMarked => Change(true, false, false)
    case FailsInCleanup => Change(true, true, false)
  }

  /** The changes after committing `dbs` in order, up to the first that raises. */
  ghost function Committed(faults: Faults, changes: map<nat, Change>, dbs: seq<nat>): map<nat, Change>
    decreases |dbs|
  {
    if dbs == [] then changes
    else
      var after := changes[dbs[0] := AfterCommit(faults.Commit(dbs[0]), changes, dbs[0])];
      if faults.Commit(dbs[0]).Completes? then Committed(faults, after, dbs[1..]) else after
  }

  ghost predicate AllComplete(faults: Faults, dbs: seq<nat>) {
    forall db :: db in dbs ==> faults.Commit(db).Completes?
  }

  lemma {:induction false} CompleteFromStart(faults: Faults, dbs: seq<nat>)
    ensures dbs[0..] == dbs && AllComplete(faults, [])
  {
  }

  lemma {:induction false} CompleteStep(faults: Faults, dbs: seq<nat>)
    requires dbs != []
    ensures AllComplete(faults, dbs) <==> faults.Commit(dbs[0]).Completes? && AllComplete(faults, dbs[1..])
  {
    assert dbs == [dbs[0]] + dbs[1..];
  }

  /** The marked changes are the first `Marks` in order of registration. */
  lemma {:induction false} MarkedArePrefix(faults: Faults, changes: map<nat, Change>, dbs: seq<nat>)
    requires Distinct(dbs) && forall db :: db in dbs ==> db in changes && changes[db] == OPEN
    ensures var after := Committed(faults, changes, dbs);
      && after.Keys == changes.Keys
      && (forall i :: 0 <= i < |dbs| ==> (after[dbs[i]].marked <==> i < Marks(faults, dbs)))
      && (AllComplete(faults, dbs) ==> forall i :: 0 <= i < |dbs| ==> after[dbs[i]] == Change(true, true, true))
      && forall db :: db in changes && db !in dbs ==> after[db] == changes[db]
  {
    if dbs != [] {
      var db, rest := dbs[0], dbs[1..];
      var after := changes[db := AfterCommit(faults.Commit(db), changes, db)];
      assert forall i :: 0 <= i < |rest| ==> rest[i] == dbs[i + 1];
      assert db !in rest;
      if faults.Commit(db).Completes? {
        MarkedArePrefix(faults, after, rest);
        CompleteStep(faults, dbs);
        assert forall i :: 0 < i < |dbs| ==> dbs[i] == rest[i - 1];
      }
    }
  }

  class RequestTransaction {
    var session: Session
    var callbacks: seq<Callback>
    var recoveries: seq<nat>
    var changes: map<nat, Change>
    var active: bool
    ghost var ran: seq<Callback>
    ghost var wrote: bool

    ghost predicate Valid()
      reads this
    {
      && Distinct(recoveries) && (forall db :: db in changes <==> db in recoveries)
      && (session.InTransaction? ==> wrote)
    }

    /** Each change begun has exactly one rollback registered, in the order they were begun. */
    ghost predicate Running()
      reads this
    {
      && Valid() && active && Undos(callbacks) == recoveries && ran == [] && !session.Closed?
      && (forall db :: db in changes ==> changes[db] == OPEN)
      && (wrote ==> session.InTransaction?)
    }

    constructor ()
      ensures Running() && recoveries == [] && callbacks == [] && session.NotOpened?
    {
      session, callbacks, recoveries, changes, active := NotOpened, [], [], map[], true;
      ran, wrote := [], false;
    }

    method AfterRequestRollback(id: nat)
      requires Running()
      modifies `callbacks
      ensures Running() && callbacks == old(callbacks) + [Teardown(id)]
    {
      callbacks := callbacks + [Teardown(id)];
    }

    method Write()
      requires Running()
      modifies `session, `wrote
      ensures Running() && session.InTransaction?
    {
      session, wrote := InTransaction, true;
    }

    /** A second change to the same database joins the first; no change begins after a write. */
    method RecoverableDatabaseChange(database: nat, beginRaises: bool) returns (raised: bool)
      requires Running()
      modifies `callbacks, `recoveries, `changes
      ensures Running()
      ensures raised <==> database !in old(changes) && (wrote || beginRaises)
      ensures if raised || database in old(changes)
        then callbacks == old(callbacks) && recoveries == old(recoveries)
        else callbacks == old(callbacks) + [UndoOf(database)] && recoveries == old(recoveries) + [database]
    {
      if database in changes {
        return false;
      }
      if session.InTransaction? || beginRaises {
        return true;
      }
      callbacks := callbacks + [UndoOf(database)];
      recoveries := recoveries + [database];
      changes := changes[database := OPEN];
      return false;
    }

    /** Last registered first; a callback that raises does not stop the others. */
    method RunRollbackCallbacks(faults: Faults) returns (raised: Option<Raised>)
      requires UndoesKnown(changes, callbacks)
      modifies `callbacks, `changes, `ran
      ensures callbacks == [] && ran == old(ran) + Reversed(old(callbacks))
      ensures changes == Undone(faults, old(changes), Undos(old(callbacks)))
      ensures raised == FirstRaised(faults, old(changes), old(callbacks))
      decreases |callbacks|
    {
      hide *;
      if callbacks == [] {
        NothingUndone(faults, changes);
        assert ran == ran + [];
        return None;
      }
      ghost var all, front := callbacks, callbacks[..|callbacks| - 1];
      UndoLast(faults, changes, all);
      StepRaised(faults, changes, all);
      StepReversed(ran, all);
      var callback := callbacks[|callbacks| - 1];
      callbacks := callbacks[..|callbacks| - 1];
      ran := ran + [callback];
      raised := if Raises(faults, changes, callback) then Some(FromCallback(callback)) else None;
      if callback.UndoOf? {
        changes := Undone(faults, changes, [callback.database]);
      }
      var later := RunRollbackCallbacks(faults);
      raised := if later.Some? then later else raised;
    }

    /** The commits in order of registration, up to the first that raises. */
    method CommitAll(faults: Faults) returns (raised: Option<Raised>)
      modifies `changes
      ensures changes == Committed(faults, old(changes), recoveries)
      ensures raised.None? <==> AllComplete(faults, recoveries)
    {
      hide AllComplete;
      CompleteFromStart(faults, recoveries);
      for i := 0 to |recoveries|
        invariant Committed(faults, changes, recoveries[i..]) == Committed(faults, old(changes), recoveries)
        invariant AllComplete(faults, recoveries) <==> AllComplete(faults, recoveries[i..])
      {
        var db := recoveries[i];
        CompleteStep(faults, recoveries[i..]);
        assert recoveries[i..][1..] == recoveries[i + 1..];
        var fate := faults.Commit(db);
        changes := changes[db := AfterCommit(fate, changes, db)];
        if !fate.Completes? {
          return Some(CommitOf(db));
        }
      }
      assert recoveries[|recoveries|..] == [];
      return None;
    }

    /** The end of the request, whatever raised. */
    method Finish(faults: Faults) returns (raised: Option<Raised>)
      requires Running()
      modifies this
      ensures !active && recoveries == old(recoveries) && !session.Clean? && !session.InTransaction?
      ensures changes == Outcome(faults, old(!session.NotOpened?), old(changes), recoveries)
      ensures ran == (if Succeeds(faults, old(!session.NotOpened?), recoveries) then [] else Reversed(old(callbacks)))
      ensures raised.None? <==>
          Succeeds(faults, old(!session.NotOpened?), recoveries) && !(old(!session.NotOpened?) && faults.sessionClose)
    {
      hide AllComplete, Committed, Undone, Undos, Distinct, FirstRaised, Reversed;
      ghost var opening := changes;
      BeforeFinish(faults, changes, callbacks, recoveries);
      raised := None;
      var succeeded := false;
      if faults.body {
        raised := Some(Body);
      } else if !session.NotOpened? && faults.sessionCommit {
        raised := Some(SessionCommit);
      } else {
        raised := CommitAll(faults);
        succeeded := raised.None?;
      }
      if !session.NotOpened? {
        if !succeeded && faults.sessionRollback {
          raised := Some(SessionRollback);
        }
        if faults.sessionClose {
          raised := Some(SessionClose);
        }
        session := Closed;
      }
      active := false;
      if !succeeded {
        NotLost(ran, callbacks);
        var fromCallbacks := RunRollbackCallbacks(faults);
        raised := if fromCallbacks.Some? then fromCallbacks else raised;
      }
    }
  }

  /** What a commit and the rollback that may follow leave of a change: its rollback raises only while the change
      is unfinished, and a finished change stays as it is. */
  lemma {:induction false} CommitThenRollback(faults: Faults, changes: map<nat, Change>, db: nat)
    requires db in changes && changes[db] == OPEN
    ensures var mid := changes[db := AfterCommit(faults.Commit(db), changes, db)];
      var after := Undone(faults, mid, [db]);
      match faults.Commit(db)
      case Completes => after == mid && after[db] == Change(true, true, true) && !Raises(faults, mid, UndoOf(db))
      case FailsUnmarked =>
        && after[db] == Change(false, true, db !in faults.undo)
        && (Raises(faults, mid, UndoOf(db)) <==> db in faults.undo)
      case FailsMarked =>
        && after[db] == Change(true, true, db !in faults.undo)
        && (Raises(faults, mid, UndoOf(db)) <==> db in faults.undo)
      case FailsInCleanup => after == mid && after[db] == Change(true, true, false) && !Raises(faults, mid, UndoOf(db))
  {
  }

  /** A callback other than a rollback raises whenever it is one that does, a rollback only while its change is open. */
  lemma {:induction false} CallbackRaises(faults: Faults, changes: map<nat, Change>, id: nat)
    ensures FirstRaised(faults, changes, [Teardown(id)]).Some? <==> id in faults.teardown
    ensures FirstRaised(faults, changes, [UndoOf(id)]).Some? <==>
      id in changes && !changes[id].finished && id in faults.undo
  {
    FirstRaisedIsFirst(faults, changes, [Teardown(id)]);
    FirstRaisedIsFirst(faults, changes, [UndoOf(id)]);
    assert Teardown(id) in [Teardown(id)] && UndoOf(id) in [UndoOf(id)];
  }

  /** A second rollback changes nothing and raises nothing. */
  lemma {:induction false} SecondRollbackIsInert(faults: Faults, changes: map<nat, Change>, db: nat)
    requires db in changes
    ensures var after := Undone(faults, changes, [db]);
      && after[db].finished && !Raises(faults, after, UndoOf(db)) && Undone(faults, after, [db]) == after
      && forall other :: other in changes && other != db ==> after[other] == changes[other]
  {
  }

  /** The body and the session's commit come before any database commits. */
  ghost predicate Reaches(faults: Faults, inUse: bool) {
    !faults.body && !(inUse && faults.sessionCommit)
  }

  ghost predicate Succeeds(faults: Faults, inUse: bool, dbs: seq<nat>) {
    Reaches(faults, inUse) && AllComplete(faults, dbs)
  }

  ghost function Outcome(faults: Faults, inUse: bool, changes: map<nat, Change>, dbs: seq<nat>): map<nat, Change> {
    var after := if Reaches(faults, inUse) then Committed(faults, changes, dbs) else changes;
    if Succeeds(faults, inUse, dbs) then after else Undone(faults, after, dbs)
  }

  lemma {:induction false} BeforeFinish(faults: Faults, changes: map<nat, Change>, cs: seq<Callback>, dbs: seq<nat>)
    requires Distinct(dbs) && Undos(cs) == dbs && forall db :: db in dbs ==> db in changes && changes[db] == OPEN
    ensures UndoesKnown(changes, cs) && UndoesKnown(Committed(faults, changes, dbs), cs)
  {
    MarkedArePrefix(faults, changes, dbs);
  }

  lemma {:induction false} NotLost(ran: seq<Callback>, cs: seq<Callback>)
    requires ran == []
    ensures ran + Reversed(cs) == Reversed(cs)
  {
  }

  /** However a request ends, every change is finished; the databases that keep what was
      written are the first so many begun, all of them if the request succeeded. */
  lemma {:induction false} EveryChangeIsFinished(faults: Faults, inUse: bool, changes: map<nat, Change>, dbs: seq<nat>)
    requires Distinct(dbs) && (forall db :: db in changes <==> db in dbs) && forall db :: db in changes ==>
        changes[db] == OPEN
    ensures var after := Outcome(faults, inUse, changes, dbs);
      && after.Keys == changes.Keys && (forall db :: db in after ==> after[db].finished)
      && (forall i :: 0 <= i < |dbs| ==> (after[dbs[i]].marked <==> Reaches(faults, inUse) && i < Marks(faults, dbs)))
      && (Succeeds(faults, inUse, dbs) ==> forall db :: db in after ==> after[db] == Change(true, true, true))
  {
    MarkedArePrefix(faults, changes, dbs);
    hide Committed, Marks;
  }

  lemma {:induction false} ReversedAt(cs: seq<Callback>, i: nat)
    requires i < |cs|
    ensures |Reversed(cs)| == |cs| && Reversed(cs)[i] == cs[|cs| - 1 - i]
  {
    if i > 0 {
      ReversedAt(cs[..|cs| - 1], i - 1);
    } else if |cs| > 1 {
      ReversedAt(cs[..|cs| - 1], 0);
    }
  }

  lemma {:induction false} MarksExactly(faults: Faults, dbs: seq<nat>)
    ensures Marks(faults, dbs) == 0 <==> dbs == [] || faults.Commit(dbs[0]).FailsUnmarked?
    ensures Marks(faults, dbs) == |dbs| <==> AllButLastComplete(faults, dbs)
  {
    if dbs != [] {
      var rest := dbs[1..];
      MarksExactly(faults, rest);
      assert forall i :: 0 < i < |dbs| ==> dbs[i] == rest[i - 1];
    }
  }

  ghost predicate AllButLastComplete(faults: Faults, dbs: seq<nat>) {
    && (forall i :: 0 <= i < |dbs| - 1 ==> faults.Commit(dbs[i]).Completes?)
    && (dbs == [] || !faults.Commit(dbs[|dbs| - 1]).FailsUnmarked?)
  }

  ghost predicate AllOrNone(changes: map<nat, Change>) {
    (forall db :: db in changes ==> changes[db].marked) || forall db :: db in changes ==> !changes[db].marked
  }

  /** The databases of one request are kept or undone together unless a commit other than the
      first raises before its marker, or one other than the last after it. */
  lemma {:induction false} RequestIsAllOrNone(faults: Faults, inUse: bool, changes: map<nat, Change>, dbs: seq<nat>)
    requires Distinct(dbs) && (forall db :: db in changes <==> db in dbs) && forall db :: db in changes ==>
        changes[db] == OPEN
    ensures AllOrNone(Outcome(faults, inUse, changes, dbs)) <==>
      || !Reaches(faults, inUse) || dbs == [] || faults.Commit(dbs[0]).FailsUnmarked? || AllButLastComplete(faults, dbs)
  {
    EveryChangeIsFinished(faults, inUse, changes, dbs);
    MarksExactly(faults, dbs);
    hide Outcome, Marks, Reaches, AllButLastComplete, Distinct;
    var after := Outcome(faults, inUse, changes, dbs);
    if Reaches(faults, inUse) && 0 < Marks(faults, dbs) < |dbs| {
      assert after[dbs[0]].marked && !after[dbs[|dbs| - 1]].marked;
    }
  }

  /** Whatever may raise, a request is sure to be all or none exactly if it changes at most one database. */
  lemma {:induction false} SureForOneDatabase(changes: map<nat, Change>, dbs: seq<nat>)
    requires Distinct(dbs) && (forall db :: db in changes <==> db in dbs) && forall db :: db in changes ==>
        changes[db] == OPEN
    ensures (forall faults, inUse :: AllOrNone(Outcome(faults, inUse, changes, dbs))) <==> |dbs| <= 1
  {
    hide Outcome, AllOrNone;
    if |dbs| <= 1 {
      forall faults, inUse
        ensures AllOrNone(Outcome(faults, inUse, changes, dbs))
      {
        RequestIsAllOrNone(faults, inUse, changes, dbs);
      }
    } else {
      var faults := Faults(false, false, false, false, map[dbs[1] := FailsUnmarked], {}, {});
      RequestIsAllOrNone(faults, false, changes, dbs);
      assert dbs[0] != dbs[1] && faults.Commit(dbs[0]).Completes? && faults.Commit(dbs[1]).FailsUnmarked?;
      assert |dbs| == 2 ==> dbs[|dbs| - 1] == dbs[1];
      assert |dbs| > 2 ==> 1 < |dbs| - 1;
      assert !AllOrNone(Outcome(faults, false, changes, dbs));
    }
  }

  /** A request over two databases can raise and still keep the change to the first. */
  lemma {:induction false} SecondCommitCanFail(a: nat, b: nat)
    requires a != b
    ensures var faults := Faults(false, false, false, false, map[b := FailsUnmarked], {}, {});
      var after := Outcome(faults, true, map[a := OPEN, b := OPEN], [a, b]);
      !Succeeds(faults, true, [a, b]) && a in after && b in after && after[a].marked && !after[b].marked
  {
    var faults := Faults(false, false, false, false, map[b := FailsUnmarked], {}, {});
    EveryChangeIsFinished(faults, true, map[a := OPEN, b := OPEN], [a, b]);
    assert [a, b][1..] == [b];
    assert Marks(faults, [a, b]) == 1;
    assert [a, b][1] == b && [a, b][0] == a;
  }
}

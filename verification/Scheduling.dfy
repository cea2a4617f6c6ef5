/** Shared-prefix warm-up: the first successful call of a prefix goes alone, later ones overlap. */
module Scheduling {
  type Key = string

  /** Where one call stands.  `owns` says that it holds the lock of its prefix. */
  datatype Pc = Start | WaitLock | WaitSlot(owns: bool) | Running(owns: bool) | Done | Failed | Cancelled

  datatype Call = Call(key: Key, pc: Pc)

  /** `held` is who holds which prefix lock, `free` the slots left in the semaphore. */
  datatype State = State(calls: seq<Call>, primed: set<Key>, held: map<Key, nat>, free: nat)

  /** One uninterrupted piece of one call, between two points where it can be suspended. */
  datatype Action = Begin(t: nat) | TakeLock(t: nat) | TakeSlot(t: nat) | Finish(t: nat) | Fail(t: nat) | Cancel(t: nat)

  function SetPc(s: State, t: nat, pc: Pc): State
    requires t < |s.calls|
  {
    s.(calls := s.calls[t := s.calls[t].(pc := pc)])
  }

  predicate Owns(pc: Pc) {
    (pc.WaitSlot? || pc.Running?) && pc.owns
  }

  /** Leaving the context: the slot and the lock are given back. */
  function Leave(s: State, t: nat, pc: Pc): State
    requires t < |s.calls|
  {
    var was := s.calls[t].pc;
    var released := if Owns(was) then s.(held := s.held - {s.calls[t].key}) else s;
    SetPc(if was.Running? then released.(free := s.free + 1) else released, t, pc)
  }

  predicate Unfinished(pc: Pc) {
    !pc.Done? && !pc.Failed? && !pc.Cancelled?
  }

  predicate Enabled(s: State, a: Action) {
    a.t < |s.calls| &&
    var call := s.calls[a.t];
    match a
    case Begin(_) => call.pc.Start?
    case TakeLock(_) => call.pc.WaitLock? && call.key !in s.held
    case TakeSlot(_) => call.pc.WaitSlot? && s.free > 0
    case Finish(_) => call.pc.Running?
    case Fail(_) => call.pc.Running?
    case Cancel(_) => Unfinished(call.pc)
  }

  function Step(s: State, a: Action): State
    requires Enabled(s, a)
  {
    var call := s.calls[a.t];
    match a
    case Begin(t) => SetPc(s, t, if call.key in s.primed then WaitSlot(false) else WaitLock)
    case TakeLock(t) =>
      if call.key in s.primed then SetPc(s, t, WaitSlot(false))
      else SetPc(s.(held := s.held[call.key := t]), t, WaitSlot(true))
    case TakeSlot(t) => SetPc(s.(free := s.free - 1), t, Running(call.pc.owns))
    case Finish(t) => Leave(s.(primed := s.primed + {call.key}), t, Done)
    case Fail(t) => Leave(s, t, Failed)
    case Cancel(t) => Leave(s, t, Cancelled)
  }

  // ---------- runs ----------

  ghost predicate Initial(s: State, concurrency: nat) {
    s.primed == {} && s.held == map[] && s.free == concurrency && forall t :: 0 <= t < |s.calls| ==>
        s.calls[t].pc == Start
  }

  /** The states of a run, one after each action. */
  ghost predicate Run(states: seq<State>, actions: seq<Action>) {
    && |states| == |actions| + 1
    && forall i :: 0 <= i < |actions| ==> Enabled(states[i], actions[i]) && states[i + 1] == Step(states[i], actions[i])
  }

  ghost function InFlight(calls: seq<Call>): nat {
    if calls == [] then 0 else InFlight(calls[..|calls| - 1]) + (if calls[|calls| - 1].pc.Running? then 1 else 0)
  }

  lemma {:induction false} InFlightSet(calls: seq<Call>, t: nat, call: Call)
    requires t < |calls|
    ensures InFlight(calls[t := call]) ==
      InFlight(calls) + (if call.pc.Running? then 1 else 0) - (if calls[t].pc.Running? then 1 else 0)
  {
    var after := calls[t := call];
    if t == |calls| - 1 {
      assert after[..|calls| - 1] == calls[..|calls| - 1];
    } else {
      InFlightSet(calls[..|calls| - 1], t, call);
      assert after[..|calls| - 1] == calls[..|calls| - 1][t := call];
    }
  }

  /** The lock of a prefix is held by exactly the call that says it holds it. */
  ghost predicate LocksOk(s: State) {
    OwnersHold(s) && HoldersOwn(s)
  }

  ghost predicate OwnersHold(s: State) {
    forall t :: 0 <= t < |s.calls| && Owns(s.calls[t].pc) ==> s.calls[t].key in s.held && s.held[s.calls[t].key] == t
  }

  ghost predicate HoldersOwn(s: State) {
    forall k :: k in s.held ==> s.held[k] < |s.calls| && s.calls[s.held[k]].key == k && Owns(s.calls[s.held[k]].pc)
  }

  /** A call that goes on without the lock has seen its prefix primed. */
  ghost predicate WarmOk(s: State) {
    forall t :: 0 <= t < |s.calls| && (s.calls[t].pc.WaitSlot? || s.calls[t].pc.Running?) && !s.calls[t].pc.owns ==>
      s.calls[t].key in s.primed
  }

  /** A prefix is primed exactly when a call with it has succeeded. */
  ghost predicate PrimedOk(s: State) {
    forall k :: k in s.primed <==> exists t :: 0 <= t < |s.calls| && s.calls[t] == Call(k, Done)
  }

  ghost predicate Inv(s: State, concurrency: nat) {
    s.free + InFlight(s.calls) == concurrency && LocksOk(s) && WarmOk(s) && PrimedOk(s)
  }

  lemma {:induction false} StepKeepsCount(s: State, a: Action, concurrency: nat)
    requires Enabled(s, a) && s.free + InFlight(s.calls) == concurrency
    ensures Step(s, a).free + InFlight(Step(s, a).calls) == concurrency
  {
    InFlightSet(s.calls, a.t, Step(s, a).calls[a.t]);
  }

  lemma {:induction false} StepKeepsOwners(s: State, a: Action)
    requires Enabled(s, a) && LocksOk(s)
    ensures OwnersHold(Step(s, a))
  {
  }

  lemma {:induction false} StepKeepsHolders(s: State, a: Action)
    requires Enabled(s, a) && LocksOk(s)
    ensures HoldersOwn(Step(s, a))
  {
  }

  lemma {:induction false} StepKeepsLocks(s: State, a: Action)
    requires Enabled(s, a) && LocksOk(s)
    ensures LocksOk(Step(s, a))
  {
    StepKeepsOwners(s, a);
    StepKeepsHolders(s, a);
  }

  lemma {:induction false} StepKeepsWarm(s: State, a: Action)
    requires Enabled(s, a) && WarmOk(s)
    ensures WarmOk(Step(s, a)) && s.primed <= Step(s, a).primed
  {
  }

  lemma {:induction false} StepKeepsPrimed(s: State, a: Action)
    requires Enabled(s, a) && PrimedOk(s)
    ensures PrimedOk(Step(s, a))
  {
    var after := Step(s, a);
    forall k
      ensures k in after.primed <==> exists t :: 0 <= t < |after.calls| && after.calls[t] == Call(k, Done)
    {
      if k in s.primed {
        var t :| 0 <= t < |s.calls| && s.calls[t] == Call(k, Done);
        assert after.calls[t] == Call(k, Done);
      } else if k in after.primed {
        assert after.calls[a.t] == Call(k, Done);
      } else {
        forall t | 0 <= t < |after.calls|
          ensures after.calls[t] != Call(k, Done)
        {
          assert t != a.t ==> after.calls[t] == s.calls[t];
        }
      }
    }
  }

  lemma {:induction false} RunKeeps(states: seq<State>, actions: seq<Action>, concurrency: nat, i: nat)
    requires Run(states, actions) && Initial(states[0], concurrency) && i < |states|
    ensures Inv(states[i], concurrency)
  {
    if i == 0 {
      NobodyRuns(states[0].calls);
    } else {
      RunKeeps(states, actions, concurrency, i - 1);
      var s, a := states[i - 1], actions[i - 1];
      assert states[i - 1 + 1] == Step(s, a);
      hide LocksOk, WarmOk, PrimedOk;
      StepKeeps(s, a, concurrency);
    }
  }

  lemma {:induction false} NobodyRuns(calls: seq<Call>)
    requires forall t :: 0 <= t < |calls| ==> calls[t].pc == Start
    ensures InFlight(calls) == 0
  {
    if calls != [] {
      NobodyRuns(calls[..|calls| - 1]);
    }
  }

  /** Two calls with the same prefix are in the provider at once. */
  ghost predicate Overlap(s: State, t: nat, u: nat) {
    && t < |s.calls| && u < |s.calls| && t != u && s.calls[t].key == s.calls[u].key
    && s.calls[t].pc.Running? && s.calls[u].pc.Running?
  }

  lemma {:induction false} OverlapIsWarm(s: State, t: nat, u: nat)
    requires LocksOk(s) && WarmOk(s) && Overlap(s, t, u)
    ensures s.calls[t].key in s.primed
  {
    if Owns(s.calls[t].pc) && Owns(s.calls[u].pc) {
      assert false;
    }
  }

  /** At every moment of every run: the bound, no cold overlap, and what primed means. */
  lemma {:induction false} NeverTooManyNeverCold(states: seq<State>, actions: seq<Action>, concurrency: nat, i: nat)
    requires Run(states, actions) && Initial(states[0], concurrency) && i < |states|
    ensures InFlight(states[i].calls) <= concurrency
    ensures forall t: nat, u: nat :: Overlap(states[i], t, u) ==> states[i].calls[t].key in states[i].primed
    ensures forall k :: k in states[i].primed <==>
      exists t :: 0 <= t < |states[i].calls| && states[i].calls[t] == Call(k, Done)
  {
    RunKeeps(states, actions, concurrency, i);
    hide PrimedOk, LocksOk, WarmOk;
    forall t: nat, u: nat | Overlap(states[i], t, u)
      ensures states[i].calls[t].key in states[i].primed
    {
      OverlapIsWarm(states[i], t, u);
    }
    PrimedMeans(states[i]);
  }

  lemma {:induction false} PrimedMeans(s: State)
    requires PrimedOk(s)
    ensures forall k :: k in s.primed <==> exists t :: 0 <= t < |s.calls| && s.calls[t] == Call(k, Done)
  {
  }

  /** While anything is unfinished, something other than a cancellation can happen. */
  lemma {:induction false} NeverStuck(s: State, concurrency: nat) returns (a: Action)
    requires Inv(s, concurrency) && concurrency > 0
    requires exists t :: 0 <= t < |s.calls| && Unfinished(s.calls[t].pc)
    ensures Enabled(s, a) && !a.Cancel?
  {
    var t :| 0 <= t < |s.calls| && Unfinished(s.calls[t].pc);
    if s.calls[t].pc.Start? {
      a := Begin(t);
    } else if exists u :: 0 <= u < |s.calls| && s.calls[u].pc.Running? {
      var u :| 0 <= u < |s.calls| && s.calls[u].pc.Running?;
      a := Finish(u);
    } else {
      NoneInFlight(s.calls);
      if s.calls[t].pc.WaitLock? {
        if s.calls[t].key in s.held {
          a := TakeSlot(s.held[s.calls[t].key]);
        } else {
          a := TakeLock(t);
        }
      } else {
        a := TakeSlot(t);
      }
    }
  }

  lemma {:induction false} NoneInFlight(calls: seq<Call>)
    requires forall t :: 0 <= t < |calls| ==> !calls[t].pc.Running?
    ensures InFlight(calls) == 0
  {
    if calls != [] {
      NoneInFlight(calls[..|calls| - 1]);
    }
  }

  /** A primer that fails or is cancelled hands over: a call waiting for the lock can take it and prime. */
  lemma {:induction false} FailedPrimerHandsOver(s: State, a: Action, concurrency: nat, u: nat)
    requires Inv(s, concurrency) && Enabled(s, a) && (a.Fail? || a.Cancel?) && Owns(s.calls[a.t].pc)
    requires u < |s.calls| && s.calls[u] == Call(s.calls[a.t].key, WaitLock)
    ensures var after := Step(s, a);
            && Enabled(after, TakeLock(u))
            && (s.calls[u].key !in s.primed ==> Step(after, TakeLock(u)).calls[u].pc == WaitSlot(true))
  {
    assert u != a.t;
    assert Step(s, a).calls[u] == s.calls[u];
  }

  // ---------- a primed prefix holds nobody up ----------

  /** Nobody holds the lock of a primed prefix. */
  ghost predicate NoneHeldWarm(s: State) {
    forall k :: k in s.primed ==> k !in s.held
  }

  lemma {:induction false} StepKeepsReleased(s: State, a: Action)
    requires Enabled(s, a) && LocksOk(s) && WarmOk(s) && NoneHeldWarm(s)
    ensures NoneHeldWarm(Step(s, a))
  {
  }

  lemma {:induction false} RunReleases(states: seq<State>, actions: seq<Action>, concurrency: nat, i: nat)
    requires Run(states, actions) && Initial(states[0], concurrency) && i < |states|
    ensures NoneHeldWarm(states[i])
  {
    if i > 0 {
      RunReleases(states, actions, concurrency, i - 1);
      RunKeeps(states, actions, concurrency, i - 1);
      hide LocksOk, WarmOk, NoneHeldWarm, Step, Enabled;
      StepKeepsReleased(states[i - 1], actions[i - 1]);
      assert states[i - 1 + 1] == Step(states[i - 1], actions[i - 1]);
    }
  }

  /** At every moment of every run, a call with a primed prefix waits for no other call with that prefix: it
      passes the lock, which is free, without keeping it, and then waits for a slot only. */
  lemma {:induction false} WarmCallsPass(states: seq<State>, actions: seq<Action>, concurrency: nat, i: nat, t: nat)
    requires Run(states, actions) && Initial(states[0], concurrency) && i < |states| && t < |states[i].calls|
    requires states[i].calls[t].key in states[i].primed
    ensures states[i].calls[t].key !in states[i].held
    ensures var s := states[i];
      match s.calls[t].pc
      case Start => Enabled(s, Begin(t)) && Step(s, Begin(t)).calls[t].pc == WaitSlot(false)
      case WaitLock =>
        && Enabled(s, TakeLock(t)) && Step(s, TakeLock(t)).calls[t].pc == WaitSlot(false)
        && Step(s, TakeLock(t)).held == s.held
      case WaitSlot(owns) => !owns && (Enabled(s, TakeSlot(t)) <==> s.free > 0)
      case Running(owns) => !owns
      case _ => true
  {
    RunReleases(states, actions, concurrency, i);
    RunKeeps(states, actions, concurrency, i);
  }

  /** A call with a cold prefix goes on with the lock in its hand, and nobody else has it. */
  lemma {:induction false} ColdCallsQueue(states: seq<State>, actions: seq<Action>, concurrency: nat, i: nat, t: nat)
    requires Run(states, actions) && Initial(states[0], concurrency) && i < |states| && t < |states[i].calls|
    requires states[i].calls[t].key !in states[i].primed
    ensures var s := states[i];
      match s.calls[t].pc
      case Start => Enabled(s, Begin(t)) && Step(s, Begin(t)).calls[t].pc == WaitLock
      case WaitLock =>
        && (Enabled(s, TakeLock(t)) <==> forall u :: 0 <= u < |s.calls| && s.calls[u].key == s.calls[t].key ==>
              !Owns(s.calls[u].pc))
        && (Enabled(s, TakeLock(t)) ==> Step(s, TakeLock(t)).calls[t].pc == WaitSlot(true))
      case WaitSlot(owns) => owns && (Enabled(s, TakeSlot(t)) <==> s.free > 0)
      case Running(owns) => owns
      case _ => true
  {
    RunKeeps(states, actions, concurrency, i);
    var s := states[i];
    assert s.calls[t].key in s.held ==> Owns(s.calls[s.held[s.calls[t].key]].pc);
  }

  // ---------- every run ends ----------

  function Rank(pc: Pc): nat {
    match pc case Start => 4 case WaitLock => 3 case WaitSlot(_) => 2 case Running(_) => 1 case _ => 0
  }

  ghost function Left(calls: seq<Call>): nat {
    if calls == [] then 0 else Left(calls[..|calls| - 1]) + Rank(calls[|calls| - 1].pc)
  }

  lemma {:induction false} LeftSet(calls: seq<Call>, t: nat, call: Call)
    requires t < |calls|
    ensures Left(calls[t := call]) == Left(calls) + Rank(call.pc) - Rank(calls[t].pc)
  {
    var after := calls[t := call];
    if t == |calls| - 1 {
      assert after[..|calls| - 1] == calls[..|calls| - 1];
    } else {
      LeftSet(calls[..|calls| - 1], t, call);
      assert after[..|calls| - 1] == calls[..|calls| - 1][t := call];
    }
  }

  lemma {:induction false} StepsShrink(s: State, a: Action)
    requires Enabled(s, a)
    ensures Left(Step(s, a).calls) < Left(s.calls)
  {
    LeftSet(s.calls, a.t, Step(s, a).calls[a.t]);
  }

  lemma {:induction false} RunsAreShort(states: seq<State>, actions: seq<Action>, concurrency: nat, i: nat)
    requires Run(states, actions) && Initial(states[0], concurrency) && i < |states|
    ensures i + Left(states[i].calls) <= 4 * |states[0].calls|
    ensures |states[i].calls| == |states[0].calls|
  {
    if i == 0 {
      LeftAtStart(states[0].calls);
    } else {
      RunsAreShort(states, actions, concurrency, i - 1);
      assert states[i - 1 + 1] == Step(states[i - 1], actions[i - 1]);
      StepsShrink(states[i - 1], actions[i - 1]);
    }
  }

  lemma {:induction false} LeftAtStart(calls: seq<Call>)
    ensures Left(calls) <= 4 * |calls|
  {
    if calls != [] {
      LeftAtStart(calls[..|calls| - 1]);
    }
  }

  /** A run of n calls takes at most 4n steps, and one that cannot go on has finished every call. */
  lemma {:induction false} EveryCallFinishes(states: seq<State>, actions: seq<Action>, concurrency: nat)
    requires Run(states, actions) && Initial(states[0], concurrency) && concurrency > 0
    ensures |actions| <= 4 * |states[0].calls|
    ensures (forall a :: Enabled(states[|actions|], a) ==> a.Cancel?) ==>
      forall t :: 0 <= t < |states[|actions|].calls| ==> !Unfinished(states[|actions|].calls[t].pc)
  {
    RunsAreShort(states, actions, concurrency, |actions|);
    RunKeeps(states, actions, concurrency, |actions|);
    var last := states[|actions|];
    if exists t :: 0 <= t < |last.calls| && Unfinished(last.calls[t].pc) {
      var a := NeverStuck(last, concurrency);
    }
  }

  // ---------- the adapter ----------

  /** The fields the calls share; every method is one uninterrupted piece of one call. */
  class CacheAwareAdapter {
    const concurrency: nat
    var primed: set<Key>
    var held: map<Key, nat>
    var free: nat
    var calls: seq<Call>

    ghost function Now(): State
      reads this
    {
      State(calls, primed, held, free)
    }

    ghost predicate Valid()
      reads this
    {
      Inv(Now(), concurrency)
    }

    constructor (concurrency: nat)
      ensures Valid() && Initial(Now(), concurrency) && calls == [] && this.concurrency == concurrency
    {
      this.concurrency := concurrency;
      primed, held, free, calls := {}, map[], concurrency, [];
    }

    /** A new call of the adapter. */
    method Arrive(key: Key) returns (t: nat)
      requires Valid()
      modifies this`calls
      ensures Valid() && t == |old(calls)| && calls == old(calls) + [Call(key, Start)]
    {
      t := |calls|;
      ArrivalKeeps(Now(), concurrency, key);
      calls := calls + [Call(key, Start)];
    }

    method Begin(t: nat)
      requires Valid() && t < |calls| && calls[t].pc == Start
      modifies this`calls
      ensures Valid() && Now() == Step(old(Now()), Action.Begin(t))
    {
      StepKeeps(Now(), Action.Begin(t), concurrency);
      calls := calls[t := calls[t].(pc := if calls[t].key in primed then WaitSlot(false) else WaitLock)];
    }

    /** The lock is acquired; a prefix primed in the meantime releases it at once. */
    method TakeLock(t: nat)
      requires Valid() && t < |calls| && calls[t].pc == WaitLock && calls[t].key !in held
      modifies this`calls, this`held
      ensures Valid() && Now() == Step(old(Now()), Action.TakeLock(t))
    {
      StepKeeps(Now(), Action.TakeLock(t), concurrency);
      var key := calls[t].key;
      held := held[key := t];
      var owns := true;
      if key in primed {
        held := held - {key};
        owns := false;
      }
      assert !owns ==> held == old(held);
      calls := calls[t := calls[t].(pc := WaitSlot(owns))];
    }

    method TakeSlot(t: nat)
      requires Valid() && t < |calls| && calls[t].pc.WaitSlot? && free > 0
      modifies this`calls, this`free
      ensures Valid() && Now() == Step(old(Now()), Action.TakeSlot(t))
    {
      StepKeeps(Now(), Action.TakeSlot(t), concurrency);
      free := free - 1;
      calls := calls[t := calls[t].(pc := Running(calls[t].pc.owns))];
    }

    /** The end of the context, with the outcome of the body. */
    method LeaveContext(t: nat, outcome: Pc)
      requires Valid() && t < |calls| && Unfinished(calls[t].pc)
      requires outcome in {Done, Failed, Cancelled} && (!outcome.Cancelled? ==> calls[t].pc.Running?)
      modifies this
      ensures Valid()
      ensures Now() == Step(old(Now()), match outcome case Done => Finish(t) case Failed => Fail(t) case _ => Cancel(t))
    {
      StepKeeps(Now(), match outcome case Done => Finish(t) case Failed => Fail(t) case _ => Cancel(t), concurrency);
      var was := calls[t].pc;
      if outcome == Done {
        primed := primed + {calls[t].key};
      }
      if was.Running? {
        free := free + 1;
      }
      if Owns(was) {
        held := held - {calls[t].key};
      }
      calls := calls[t := calls[t].(pc := outcome)];
    }
  }

  lemma {:induction false} StepKeeps(s: State, a: Action, concurrency: nat)
    requires Inv(s, concurrency) && Enabled(s, a)
    ensures Inv(Step(s, a), concurrency)
  {
    hide LocksOk, WarmOk, PrimedOk;
    StepKeepsCount(s, a, concurrency);
    StepKeepsLocks(s, a);
    StepKeepsWarm(s, a);
    StepKeepsPrimed(s, a);
  }

  lemma {:induction false} ArrivalKeeps(s: State, concurrency: nat, key: Key)
    requires Inv(s, concurrency)
    ensures Inv(s.(calls := s.calls + [Call(key, Start)]), concurrency)
  {
    var after := s.(calls := s.calls + [Call(key, Start)]);
    assert after.calls[..|s.calls|] == s.calls;
    forall k
      ensures k in after.primed <==> exists t :: 0 <= t < |after.calls| && after.calls[t] == Call(k, Done)
    {
      if k in s.primed {
        var t :| 0 <= t < |s.calls| && s.calls[t] == Call(k, Done);
        assert after.calls[t] == Call(k, Done);
      }
    }
  }
}

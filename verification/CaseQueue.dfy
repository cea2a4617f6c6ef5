/** The worker pool that runs the cases: a shared queue, and cancellation when a worker breaks. */
module CaseQueue {
  /** What one worker is doing. */
  datatype Worker = Idle | Busy(index: nat) | Stopped | Broken | Cancelled

  /** `reports` lists the finished cases in the order they finished, `lost` those given up. */
  datatype Pool = Pool(queue: seq<nat>, workers: seq<Worker>, reports: seq<nat>, lost: seq<nat>)

  /** A worker may break while it runs its case, or in the call that follows the report. */
  datatype Action = Take(w: nat) | Report(w: nat) | Stop(w: nat) | Break(w: nat, reported: bool) | Cancel(w: nat)

  predicate Enabled(s: Pool, a: Action) {
    a.w < |s.workers| &&
    match a
    case Take(w) => s.workers[w].Idle? && s.queue != []
    case Report(w) => s.workers[w].Busy?
    case Stop(w) => s.workers[w].Idle? && s.queue == []
    case Break(w, _) => s.workers[w].Busy?
    // after a worker broke, or when the caller is interrupted
    case Cancel(w) => s.workers[w].Idle? || s.workers[w].Busy?
  }

  function Set(s: Pool, w: nat, worker: Worker): Pool
    requires w < |s.workers|
  {
    s.(workers := s.workers[w := worker])
  }

  function Step(s: Pool, a: Action): Pool
    requires Enabled(s, a)
  {
    match a
    case Take(w) => Set(s.(queue := s.queue[1..]), w, Busy(s.queue[0]))
    case Report(w) => Set(s.(reports := s.reports + [s.workers[w].index]), w, Idle)
    case Stop(w) => Set(s, w, Stopped)
    case Break(w, reported) =>
      Set(if reported then s.(reports := s.reports + [s.workers[w].index])
          else s.(lost := s.lost + [s.workers[w].index]),
          w, Broken)
    case Cancel(w) =>
      Set(if s.workers[w].Busy? then s.(lost := s.lost + [s.workers[w].index]) else s, w, Cancelled)
  }

  ghost predicate Initial(s: Pool, order: seq<nat>) {
    s.queue == order && s.reports == [] && s.lost == [] && forall w :: 0 <= w < |s.workers| ==> s.workers[w] == Idle
  }

  ghost predicate Run(states: seq<Pool>, actions: seq<Action>) {
    && |states| == |actions| + 1
    && forall i :: 0 <= i < |actions| ==> Enabled(states[i], actions[i]) && states[i + 1] == Step(states[i], actions[i])
  }

  /** How many workers have the case in hand. */
  ghost function InHand(workers: seq<Worker>, index: nat): nat {
    if workers == [] then 0
    else InHand(workers[..|workers| - 1], index) + (if workers[|workers| - 1] == Busy(index) then 1 else 0)
  }

  lemma {:induction false} InHandSet(workers: seq<Worker>, w: nat, worker: Worker, index: nat)
    requires w < |workers|
    ensures InHand(workers[w := worker], index)
      == InHand(workers, index)
          + (if worker == Busy(index) then 1 else 0) - (if workers[w] == Busy(index) then 1 else 0)
  {
    var after := workers[w := worker];
    var n := |workers| - 1;
    if w == n {
      assert after[..n] == workers[..n];
    } else {
      InHandSet(workers[..n], w, worker, index);
      assert after[..n] == workers[..n][w := worker];
    }
  }

  /** How often the case is queued, in hand, reported or lost. */
  ghost function Count(s: Pool, index: nat): nat {
    multiset(s.queue)[index] + InHand(s.workers, index) + multiset(s.reports)[index] + multiset(s.lost)[index]
  }

  lemma {:induction false} StepConserves(s: Pool, a: Action, index: nat)
    requires Enabled(s, a)
    ensures Count(Step(s, a), index) == Count(s, index)
  {
    InHandSet(s.workers, a.w, Step(s, a).workers[a.w], index);
    hide InHand;
    if a.Take? {
      assert s.queue == [s.queue[0]] + s.queue[1..];
      assert multiset(s.queue) == multiset{s.queue[0]} + multiset(s.queue[1..]);
    }
  }

  lemma {:induction false} RunConserves(states: seq<Pool>, actions: seq<Action>, order: seq<nat>, i: nat)
    requires Run(states, actions) && Initial(states[0], order) && i < |states|
    ensures forall index: nat :: Count(states[i], index) == multiset(order)[index]
    ensures |states[i].workers| == |states[0].workers|
    ensures states[i].lost != [] ==> Broken in states[i].workers || Cancelled in states[i].workers
    ensures Stopped in states[i].workers ==> states[i].queue == []
  {
    if i == 0 {
      forall index: nat
        ensures Count(states[0], index) == multiset(order)[index]
      {
        NothingInHand(states[0].workers, index);
      }
    } else {
      RunConserves(states, actions, order, i - 1);
      var s, a := states[i - 1], actions[i - 1];
      assert states[i - 1 + 1] == Step(s, a);
      forall index: nat
        ensures Count(Step(s, a), index) == Count(s, index)
      {
        StepConserves(s, a, index);
      }
      hide Count;
      EndsStay(s, a);
    }
  }

  /** A worker that has ended stays as it is, and gives up its case only by breaking or being cancelled. */
  lemma {:induction false} EndsStay(s: Pool, a: Action)
    requires Enabled(s, a)
    ensures Broken in s.workers || Cancelled in s.workers ==>
        Broken in Step(s, a).workers || Cancelled in Step(s, a).workers
    ensures Step(s, a).lost != s.lost ==> Broken in Step(s, a).workers || Cancelled in Step(s, a).workers
    ensures Stopped in Step(s, a).workers ==> Stopped in s.workers || a.Stop?
  {
    var after := Step(s, a);
    forall w | 0 <= w < |s.workers| && s.workers[w] in {Broken, Cancelled}
      ensures after.workers[w] in after.workers && after.workers[w] == s.workers[w]
    {
    }
    assert after.workers[a.w] in after.workers;
  }

  lemma {:induction false} NothingInHand(workers: seq<Worker>, index: nat)
    requires forall w :: 0 <= w < |workers| ==> !workers[w].Busy?
    ensures InHand(workers, index) == 0
  {
    if workers != [] {
      NothingInHand(workers[..|workers| - 1], index);
    }
  }

  /** When every worker has come to the end of the queue, every case has been reported exactly once. */
  lemma {:induction false} AllReportedOnce(states: seq<Pool>, actions: seq<Action>, order: seq<nat>)
    requires Run(states, actions) && Initial(states[0], order) && states[0].workers != []
    requires forall worker :: worker in states[|actions|].workers ==> worker.Stopped?
    ensures multiset(states[|actions|].reports) == multiset(order)
  {
    var last := states[|actions|];
    RunConserves(states, actions, order, |actions|);
    assert last.workers[0] in last.workers;
    assert forall w :: 0 <= w < |last.workers| ==> last.workers[w] in last.workers;
    forall index: nat
      ensures multiset(last.reports)[index] == multiset(order)[index]
    {
      NothingInHand(last.workers, index);
      assert Count(last, index) == multiset(order)[index];
    }
  }

  /** Whatever breaks, no case is reported twice or goes on after its report. */
  lemma {:induction false} NoneReportedTwice(states: seq<Pool>, actions: seq<Action>, order: seq<nat>, i: nat,
        index: nat)
    requires Run(states, actions) && Initial(states[0], order) && i < |states| && multiset(order)[index] <= 1
    ensures multiset(states[i].reports)[index] <= 1
    ensures index in states[i].reports ==>
      index !in states[i].queue && index !in states[i].lost && InHand(states[i].workers, index) == 0
  {
    RunConserves(states, actions, order, i);
    assert Count(states[i], index) <= 1;
  }

  // ---------- the order ----------

  /** The cases that workers have got in hand during the first `i` steps, in the order they got them. */
  ghost function Taken(states: seq<Pool>, actions: seq<Action>, i: nat): seq<nat>
    requires Run(states, actions) && i < |states|
  {
    if i == 0 then []
    else
      var before, after, w := states[i - 1], states[i], actions[i - 1].w;
      assert after == Step(before, actions[i - 1]);
      Taken(states, actions, i - 1)
      + (if before.workers[w].Idle? && after.workers[w].Busy? then [after.workers[w].index] else [])
  }

  /** Cases are begun in the order of the queue, whoever takes them and however long each of them lasts. */
  lemma {:induction false} TakenInOrder(states: seq<Pool>, actions: seq<Action>, order: seq<nat>, i: nat)
    requires Run(states, actions) && Initial(states[0], order) && i < |states|
    ensures Taken(states, actions, i) + states[i].queue == order
  {
    if i > 0 {
      TakenInOrder(states, actions, order, i - 1);
      var before, a := states[i - 1], actions[i - 1];
      assert states[i - 1 + 1] == Step(before, a);
      if a.Take? {
        assert before.queue == [before.queue[0]] + before.queue[1..];
      }
    }
  }
}

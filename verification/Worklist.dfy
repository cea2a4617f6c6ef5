/** Walking note dictionaries with a stack: what is visited, in which order, and when it is refused. */
module Worklist {
  import opened Wrappers

  /** A dictionary object, by identity. */
  type Id = nat

  datatype Note = Note(content: string, tags: string, children: seq<Id>)

  /** The objects in memory. */
  type Heap = map<Id, Note>

  ghost predicate Closed(h: Heap) {
    forall n, i :: n in h && 0 <= i < |h[n].children| ==> h[n].children[i] in h
  }

  /** Child numbers from a note down. */
  type Path = seq<nat>

  ghost function Walk(h: Heap, n: Id, path: Path): Option<Id>
    decreases |path|
  {
    if n !in h then None
    else if path == [] then Some(n)
    else if path[0] < |h[n].children| then Walk(h, h[n].children[path[0]], path[1..])
    else None
  }

  lemma {:induction false} WalkDown(h: Heap, n: Id, path: Path, i: nat)
    requires Closed(h)
    ensures Walk(h, n, path + [i]) ==
      match Walk(h, n, path)
      case None => None
      case Some(m) => if m in h && i < |h[m].children| then Some(h[m].children[i]) else None
    decreases |path|
  {
    if n in h {
      if path == [] {
        assert [i][1..] == [];
      } else if path[0] < |h[n].children| {
        WalkDown(h, h[n].children[path[0]], path[1..], i);
        assert (path + [i])[1..] == path[1..] + [i];
      }
    }
  }

  lemma {:induction false} WalkStays(h: Heap, n: Id, path: Path)
    ensures Walk(h, n, path).Some? ==> Walk(h, n, path).value in h
    decreases |path|
  {
    if n in h && path != [] && path[0] < |h[n].children| {
      WalkStays(h, h[n].children[path[0]], path[1..]);
    }
  }

  lemma {:induction false} WalkPrefix(h: Heap, n: Id, path: Path, k: nat)
    requires k <= |path| && Walk(h, n, path).Some?
    ensures Walk(h, n, path[..k]).Some?
    decreases |path|
  {
    if k > 0 {
      WalkPrefix(h, h[n].children[path[0]], path[1..], k - 1);
      assert path[..k][1..] == path[1..][..k - 1];
    }
  }

  /** Two ways down from the root meet: a shared note, or a cycle. */
  ghost predicate ReachedTwice(h: Heap, root: Id) {
    exists p: Path, q: Path :: p != q && Walk(h, root, p).Some? && Walk(h, root, q) == Walk(h, root, p)
  }

  // ---------- the worklist ----------

  ghost predicate Valid(h: Heap, root: Id, stack: seq<Id>, paths: seq<Path>) {
    |stack| == |paths| && forall k :: 0 <= k < |stack| ==> Walk(h, root, paths[k]) == Some(stack[k])
  }

  ghost predicate Visited(h: Heap, root: Id, at: map<Id, Path>) {
    forall n :: n in at ==> Walk(h, root, at[n]) == Some(n)
  }

  /** No waiting path leads through another, or to where the walk has been. */
  ghost predicate Apart(at: map<Id, Path>, paths: seq<Path>) {
    && (forall n, k :: n in at && 0 <= k < |paths| ==> !(paths[k] <= at[n]))
    && forall j, k :: 0 <= j < |paths| && 0 <= k < |paths| && j != k ==> !(paths[j] <= paths[k])
  }

  ghost predicate Covered(h: Heap, root: Id, at: map<Id, Path>, paths: seq<Path>, path: Path) {
    || (Walk(h, root, path).Some? && Walk(h, root, path).value in at && at[Walk(h, root, path).value] == path)
    || exists k :: 0 <= k < |paths| && paths[k] <= path
  }

  /** Every way down has been walked, or starts with a waiting path. */
  ghost predicate Covers(h: Heap, root: Id, at: map<Id, Path>, paths: seq<Path>) {
    forall path: Path :: Walk(h, root, path).Some? ==> Covered(h, root, at, paths, path)
  }

  ghost predicate Inv(h: Heap, root: Id, stack: seq<Id>, paths: seq<Path>, at: map<Id, Path>) {
    Valid(h, root, stack, paths) && Visited(h, root, at) && Apart(at, paths) && Covers(h, root, at, paths)
  }

  lemma {:induction false} StartInv(h: Heap, root: Id)
    requires root in h
    ensures Inv(h, root, [root], [[]], map[])
  {
    forall path: Path | Walk(h, root, path).Some?
      ensures Covered(h, root, map[], [[]], path)
    {
      var paths: seq<Path> := [[]];
      assert paths[0] <= path;
    }
  }

  /** The children of a note, in the order they are pushed. */
  ghost function Below(p: Path, order: seq<nat>): (r: seq<Path>)
    ensures |r| == |order|
  {
    seq(|order|, k requires 0 <= k < |order| => p + [order[k]])
  }

  /** `order` lists the child numbers of a note with `n` children, each once. */
  ghost predicate Lists(order: seq<nat>, n: nat) {
    && |order| == n && (forall k :: 0 <= k < n ==> order[k] < n)
    && (forall j, k :: 0 <= j < k < n ==> order[j] != order[k])
    && forall i :: 0 <= i < n ==> i in order
  }

  lemma {:induction false} PopValid(h: Heap, root: Id, stack: seq<Id>, paths: seq<Path>, order: seq<nat>,
        pushed: seq<Id>)
    requires Closed(h) && Valid(h, root, stack, paths) && stack != []
    requires var top := stack[|stack| - 1];
             top in h && Lists(order, |h[top].children|) && |pushed| == |order|
             && forall k :: 0 <= k < |order| ==> pushed[k] == h[top].children[order[k]]
    ensures Valid(h, root, stack[..|stack| - 1] + pushed, paths[..|paths| - 1] + Below(paths[|paths| - 1], order))
  {
    var p := paths[|paths| - 1];
    forall k | 0 <= k < |order|
      ensures Walk(h, root, p + [order[k]]) == Some(pushed[k])
    {
      WalkDown(h, root, p, order[k]);
    }
  }

  lemma {:induction false} PopApart(at: map<Id, Path>, paths: seq<Path>, order: seq<nat>, node: Id)
    requires Apart(at, paths) && paths != [] && forall j, k :: 0 <= j < k < |order| ==> order[j] != order[k]
    ensures Apart(at[node := paths[|paths| - 1]], paths[..|paths| - 1] + Below(paths[|paths| - 1], order))
  {
    var p := paths[|paths| - 1];
    var rest, below := paths[..|paths| - 1], Below(p, order);
    var paths', at' := rest + below, at[node := p];
    forall n, k | n in at' && 0 <= k < |paths'|
      ensures !(paths'[k] <= at'[n])
    {
      if k >= |rest| && n != node {
        LongerPrefix(p, order[k - |rest|], at[n]);
      }
    }
    forall j, k | 0 <= j < |paths'| && 0 <= k < |paths'| && j != k
      ensures !(paths'[j] <= paths'[k])
    {
      if j >= |rest| {
        if k >= |rest| {
          assert order[j - |rest|] != order[k - |rest|];
          assert below[j - |rest|][|p|] == order[j - |rest|] && below[k - |rest|][|p|] == order[k - |rest|];
        } else {
          LongerPrefix(p, order[j - |rest|], rest[k]);
        }
      } else if k >= |rest| {
        PrefixOfLonger(rest[j], p, order[k - |rest|]);
      }
    }
  }

  lemma {:induction false} LongerPrefix(p: Path, i: nat, q: Path)
    ensures p + [i] <= q ==> p <= q
  {
  }

  lemma {:induction false} PrefixOfLonger(q: Path, p: Path, i: nat)
    ensures q <= p + [i] ==> q <= p || p <= q
  {
  }

  lemma {:induction false} PopCovers(h: Heap, root: Id, paths: seq<Path>, at: map<Id, Path>, order: seq<nat>, node: Id)
    requires Closed(h) && paths != [] && Covers(h, root, at, paths) && node !in at
    requires Walk(h, root, paths[|paths| - 1]) == Some(node) && node in h && Lists(order, |h[node].children|)
    ensures Covers(h, root, at[node := paths[|paths| - 1]], paths[..|paths| - 1] + Below(paths[|paths| - 1], order))
  {
    var p := paths[|paths| - 1];
    var rest, below := paths[..|paths| - 1], Below(p, order);
    forall path: Path | Walk(h, root, path).Some?
      ensures Covered(h, root, at[node := p], rest + below, path)
    {
      assert Covered(h, root, at, paths, path);
      if k :| 0 <= k < |paths| && paths[k] <= path {
        if k < |rest| {
          assert (rest + below)[k] <= path;
        } else if path != p {
          var i := path[|p|];
          WalkPrefix(h, root, path, |p| + 1);
          assert path[..|p| + 1] == p + [i];
          WalkDown(h, root, p, i);
          assert i in order;
          var j :| 0 <= j < |order| && order[j] == i;
          assert (rest + below)[|rest| + j] == p + [i];
        }
      }
    }
  }

  /** Popping a note that has not been seen, and pushing its children in any order. */
  lemma {:induction false} PopKeeps(
    h: Heap, root: Id, stack: seq<Id>, paths: seq<Path>, at: map<Id, Path>, order: seq<nat>, pushed: seq<Id>)
    requires Closed(h) && Inv(h, root, stack, paths, at) && stack != []
    requires var top := stack[|stack| - 1];
             top in h && top !in at && Lists(order, |h[top].children|) && |pushed| == |order|
             && forall k :: 0 <= k < |order| ==> pushed[k] == h[top].children[order[k]]
    ensures var p := paths[|paths| - 1];
            Inv(h, root, stack[..|stack| - 1] + pushed, paths[..|paths| - 1] + Below(p, order),
                at[stack[|stack| - 1] := p])
  {
    hide Covers, Apart, Below, Lists, Valid;
    ValidTop(h, root, stack, paths);
    PopValid(h, root, stack, paths, order, pushed);
    ListsApart(order, |h[stack[|stack| - 1]].children|);
    PopApart(at, paths, order, stack[|stack| - 1]);
    PopCovers(h, root, paths, at, order, stack[|stack| - 1]);
  }

  lemma {:induction false} ValidTop(h: Heap, root: Id, stack: seq<Id>, paths: seq<Path>)
    requires Valid(h, root, stack, paths) && stack != []
    ensures |stack| == |paths| && Walk(h, root, paths[|paths| - 1]) == Some(stack[|stack| - 1])
    ensures stack[|stack| - 1] in h
  {
    WalkStays(h, root, paths[|paths| - 1]);
  }

  lemma {:induction false} ListsApart(order: seq<nat>, n: nat)
    requires Lists(order, n)
    ensures forall j, k :: 0 <= j < k < |order| ==> order[j] != order[k]
  {
  }

  /** A note popped a second time has been reached in two ways. */
  lemma {:induction false} PoppedAgain(h: Heap, root: Id, stack: seq<Id>, paths: seq<Path>, at: map<Id, Path>)
    requires Inv(h, root, stack, paths, at) && stack != [] && stack[|stack| - 1] in at
    ensures ReachedTwice(h, root)
  {
    var p := paths[|paths| - 1];
    var q := at[stack[|stack| - 1]];
    assert !(p <= q);
    assert Walk(h, root, p) == Some(stack[|stack| - 1]) && Walk(h, root, q) == Walk(h, root, p);
  }

  /** When nothing waits any more, no note was reached twice. */
  lemma {:induction false} AllWalked(h: Heap, root: Id, at: map<Id, Path>)
    requires Inv(h, root, [], [], at)
    ensures !ReachedTwice(h, root)
  {
    forall p: Path, q: Path | Walk(h, root, p).Some? && Walk(h, root, q) == Walk(h, root, p)
      ensures p == q
    {
      assert Covered(h, root, at, [], p) && Covered(h, root, at, [], q);
    }
  }

  // ---------- trees ----------

  /** A note with everything below it. */
  datatype Tree = Tree(id: Id, children: seq<Tree>)

  ghost predicate Unfolds(h: Heap, t: Tree) {
    && t.id in h && |h[t.id].children| == |t.children|
    && forall i :: 0 <= i < |t.children| ==> t.children[i].id == h[t.id].children[i] && Unfolds(h, t.children[i])
  }

  lemma {:induction false} NewHere(h: Heap, root: Id, path: Path, j: nat, k: nat)
    requires !ReachedTwice(h, root) && Walk(h, root, path).Some? && j < k <= |path|
    ensures Walk(h, root, path[..j]) != Walk(h, root, path[..k])
  {
    hide Walk;
    WalkPrefix(h, root, path, k);
    assert |path[..j]| != |path[..k]|;
  }

  /** The notes on the way down, all different. */
  lemma {:induction false} OnTheWay(h: Heap, root: Id, path: Path, k: nat) returns (passed: set<Id>)
    requires !ReachedTwice(h, root) && Walk(h, root, path).Some? && k <= |path|
    ensures |passed| == k + 1 && passed <= h.Keys
    ensures forall n :: n in passed ==> exists j :: 0 <= j <= k && Walk(h, root, path[..j]) == Some(n)
  {
    hide Walk;
    WalkPrefix(h, root, path, k);
    WalkStays(h, root, path[..k]);
    var here := Walk(h, root, path[..k]).value;
    if k == 0 {
      passed := {here};
    } else {
      var before := OnTheWay(h, root, path, k - 1);
      forall j | 0 <= j <= k - 1
        ensures Walk(h, root, path[..j]) != Some(here)
      {
        NewHere(h, root, path, j, k);
      }
      passed := before + {here};
    }
  }

  /** What hangs below a note, if no note is reached twice. */
  lemma {:induction false} Grow(h: Heap, root: Id, path: Path) returns (t: Tree)
    requires Closed(h) && !ReachedTwice(h, root) && Walk(h, root, path).Some?
    ensures Unfolds(h, t) && Walk(h, root, path) == Some(t.id)
    decreases |h| - |path|
  {
    hide Walk, ReachedTwice;
    var passed := OnTheWay(h, root, path, |path|);
    SmallerOrSame(passed, h.Keys);
    WalkStays(h, root, path);
    var n := Walk(h, root, path).value;
    var children: seq<Tree> := [];
    while |children| < |h[n].children|
      invariant |children| <= |h[n].children|
      invariant forall i :: 0 <= i < |children| ==> children[i].id == h[n].children[i] && Unfolds(h, children[i])
    {
      WalkDown(h, root, path, |children|);
      var child := Grow(h, root, path + [|children|]);
      children := children + [child];
    }
    t := Tree(n, children);
  }

  lemma {:induction false} TheTree(h: Heap, root: Id) returns (t: Tree)
    requires Closed(h) && root in h
    ensures t.id == root && (!ReachedTwice(h, root) ==> Unfolds(h, t))
  {
    t := Tree(root, []);
    if !ReachedTwice(h, root) {
      t := Grow(h, root, []);
    }
  }

  lemma {:induction false} SmallerOrSame(x: set<Id>, y: set<Id>)
    requires x <= y
    ensures |x| <= |y|
  {
    assert y == x + (y - x);
  }

  /** The notes of a tree with their depths, parents first, children from left to right. */
  ghost function Preorder(t: Tree, depth: nat): seq<(Id, nat)>
    decreases t, 0
  {
    [(t.id, depth)] + PreorderAll(t.children, depth + 1)
  }

  ghost function PreorderAll(ts: seq<Tree>, depth: nat): seq<(Id, nat)>
    decreases ts, 1
  {
    if ts == [] then [] else Preorder(ts[0], depth) + PreorderAll(ts[1..], depth)
  }

  /** What a stack still has to give, from the top down. */
  ghost function Pending(ts: seq<Tree>, depths: seq<nat>): seq<(Id, nat)>
    requires |ts| == |depths|
  {
    if ts == [] then []
    else Preorder(ts[|ts| - 1], depths[|ts| - 1]) + Pending(ts[..|ts| - 1], depths[..|ts| - 1])
  }

  function Backwards<T>(xs: seq<T>): (r: seq<T>)
    ensures |r| == |xs|
  {
    seq(|xs|, i requires 0 <= i < |xs| => xs[|xs| - 1 - i])
  }

  /** The depth of every child. */
  function Levels(n: nat, depth: nat): (r: seq<nat>)
    ensures |r| == n
  {
    seq(n, _ => depth)
  }

  /** Child numbers, last first. */
  ghost function CountDown(n: nat): (r: seq<nat>)
    ensures |r| == n
  {
    seq(n, i requires 0 <= i < n => n - 1 - i)
  }

  lemma {:induction false} PendingPush(ts: seq<Tree>, depths: seq<nat>, more: seq<Tree>, depth: nat)
    requires |ts| == |depths|
    ensures Pending(ts + Backwards(more), depths + Levels(|more|, depth))
        == PreorderAll(more, depth) + Pending(ts, depths)
    decreases |more|
  {
    var same := Levels(|more|, depth);
    if more == [] {
      assert ts + Backwards(more) == ts && depths + same == depths;
    } else {
      var all, levels := ts + Backwards(more), depths + same;
      PendingPush(ts, depths, more[1..], depth);
      assert all[..|all| - 1] == ts + Backwards(more[1..]);
      assert levels[..|all| - 1] == depths + Levels(|more| - 1, depth);
      assert Levels(|more[1..]|, depth) == Levels(|more| - 1, depth);
      assert all[|all| - 1] == more[0];
      assert Preorder(more[0], depth) + PreorderAll(more[1..], depth) + Pending(ts, depths)
        == Preorder(more[0], depth) + (PreorderAll(more[1..], depth) + Pending(ts, depths));
    }
  }

  lemma {:induction false} TreeTop(h: Heap, t: Tree, depth: nat)
    requires Unfolds(h, t)
    ensures Preorder(t, depth) == [(t.id, depth)] + PreorderAll(t.children, depth + 1)
    ensures |t.children| == |h[t.id].children|
    ensures forall i :: 0 <= i < |t.children| ==> t.children[i].id == h[t.id].children[i] && Unfolds(h, t.children[i])
  {
  }

  lemma {:induction false} BackwardsLists(n: nat)
    ensures Lists(CountDown(n), n)
  {
    var order := CountDown(n);
    forall i | 0 <= i < n
      ensures i in order
    {
      assert order[n - 1 - i] == i;
    }
  }

  lemma {:induction false} ForwardsLists(n: nat)
    ensures Lists(seq(n, i requires 0 <= i < n => i), n)
  {
    var order := seq(n, i requires 0 <= i < n => i);
    forall i | 0 <= i < n
      ensures i in order
    {
      assert order[i] == i;
    }
  }

  /** The stack holds the trees still to come, and what is out already comes before them. */
  ghost predicate InOrder(h: Heap, t: Tree, stack: seq<Id>, depths: seq<nat>, trees: seq<Tree>, out: seq<(Id, nat)>) {
    && |trees| == |stack| == |depths|
    && (forall k :: 0 <= k < |trees| ==> trees[k].id == stack[k] && Unfolds(h, trees[k]))
    && out + Pending(trees, depths) == Preorder(t, 0)
  }

  ghost function Popped(trees: seq<Tree>): seq<Tree>
    requires trees != []
  {
    trees[..|trees| - 1] + Backwards(trees[|trees| - 1].children)
  }

  lemma {:induction false} PopInOrder(h: Heap, t: Tree, stack: seq<Id>, depths: seq<nat>, trees: seq<Tree>,
        out: seq<(Id, nat)>)
    requires InOrder(h, t, stack, depths, trees, out) && stack != []
    requires stack[|stack| - 1] in h
    ensures var n := |stack| - 1;
            var children := h[stack[n]].children;
            InOrder(h, t, stack[..n] + Backwards(children), depths[..n] + Levels(|children|, depths[n] + 1),
                Popped(trees),
                    out + [(stack[n], depths[n])])
  {
    var n := |stack| - 1;
    var top := trees[n];
    TreeTop(h, top, depths[n]);
    PendingPush(trees[..n], depths[..n], top.children, depths[n] + 1);
    var rest := Pending(trees[..n], depths[..n]);
    assert out + ([(top.id, depths[n])] + PreorderAll(top.children, depths[n] + 1) + rest)
      == out + [(top.id, depths[n])] + (PreorderAll(top.children, depths[n] + 1) + rest);
  }

  datatype WalkError = Cycle

  /** The loop's variables with the bookkeeping of the proof. */
  datatype Progress = Progress(
    stack: seq<Id>, depths: seq<nat>, visited: set<Id>, out: seq<(Id, nat)>, paths: seq<Path>, at: map<Id, Path>,
        trees: seq<Tree>)

  ghost predicate Good(h: Heap, root: Id, t: Tree, s: Progress) {
    && |s.stack| == |s.depths| == |s.trees| && s.visited == s.at.Keys && s.visited <= h.Keys
    && Inv(h, root, s.stack, s.paths, s.at)
    && (Unfolds(h, t) && t.id == root ==> InOrder(h, t, s.stack, s.depths, s.trees, s.out))
  }

  lemma {:induction false} StartGood(h: Heap, root: Id, t: Tree)
    requires root in h
    ensures Good(h, root, t, Progress([root], [0], {}, [], [[]], map[], [t]))
  {
    hide Inv, InOrder;
    StartInv(h, root);
    if Unfolds(h, t) && t.id == root { StartInOrder(h, t, root); }
  }

  lemma {:induction false} PushedBackwards(children: seq<Id>)
    ensures forall k :: 0 <= k < |children| ==>
        CountDown(|children|)[k] < |children| && Backwards(children)[k] == children[CountDown(|children|)[k]]
  {
  }

  lemma {:induction false} TurnInv(h: Heap, root: Id, s: Progress)
    requires Closed(h) && Inv(h, root, s.stack, s.paths, s.at) && s.stack != []
    requires s.stack[|s.stack| - 1] in h && s.stack[|s.stack| - 1] !in s.at && |s.paths| == |s.stack|
    ensures var n := |s.stack| - 1;
            var children := h[s.stack[n]].children;
            Inv(h, root, s.stack[..n] + Backwards(children), s.paths[..n] + Below(s.paths[n], CountDown(|children|)),
                s.at[s.stack[n] := s.paths[n]])
  {
    hide Inv, Lists, Closed, Walk, Below;
    var children := h[s.stack[|s.stack| - 1]].children;
    BackwardsLists(|children|);
    PushedBackwards(children);
    PopKeeps(h, root, s.stack, s.paths, s.at, CountDown(|children|), Backwards(children));
  }

  /** One turn of the loop on a note not seen before. */
  lemma {:induction false} TurnGood(h: Heap, root: Id, t: Tree, s: Progress) returns (next: Progress)
    requires Closed(h) && Good(h, root, t, s) && s.stack != []
    requires s.stack[|s.stack| - 1] in h && s.stack[|s.stack| - 1] !in s.visited
    ensures var n := |s.stack| - 1;
            var node, children := s.stack[n], h[s.stack[n]].children;
            && Good(h, root, t, next)
            && next.stack == s.stack[..n] + Backwards(children)
            && next.depths == s.depths[..n] + Levels(|children|, s.depths[n] + 1)
            && next.visited == s.visited + {node} && next.out == s.out + [(node, s.depths[n])]
  {
    hide Inv, InOrder, Unfolds, Lists, Preorder, Closed, Walk, CountDown, Backwards, Levels, Below, Popped;
    var n := |s.stack| - 1;
    var node, children := s.stack[n], h[s.stack[n]].children;
    InvTop(h, root, s.stack, s.paths, s.at);
    TurnInv(h, root, s);
    var trees := if Unfolds(h, t) && t.id == root then Popped(s.trees) else s.trees[..n] + seq(|children|, _ => t);
    if Unfolds(h, t) && t.id == root {
      PopInOrder(h, t, s.stack, s.depths, s.trees, s.out);
      SameLength(h, t, s.stack, s.depths, s.trees, s.out);
    }
    next := Progress(s.stack[..n] + Backwards(children), s.depths[..n] + Levels(|children|, s.depths[n] + 1),
                     s.visited + {node}, s.out + [(node, s.depths[n])],
                     s.paths[..n] + Below(s.paths[n], CountDown(|children|)), s.at[node := s.paths[n]], trees);
  }

  lemma {:induction false} SameLength(h: Heap, t: Tree, stack: seq<Id>, depths: seq<nat>, trees: seq<Tree>,
        out: seq<(Id, nat)>)
    requires InOrder(h, t, stack, depths, trees, out) && stack != [] && stack[|stack| - 1] in h
    ensures |Popped(trees)| == |stack| - 1 + |h[stack[|stack| - 1]].children|
  {
    TreeTop(h, trees[|trees| - 1], 0);
  }

  /** A note that waits although it has been seen has been reached twice. */
  lemma {:induction false} SeenAgain(h: Heap, root: Id, t: Tree, s: Progress)
    requires Good(h, root, t, s) && s.stack != []
    ensures |s.depths| == |s.stack| && s.visited <= h.Keys && s.stack[|s.stack| - 1] in h
    ensures s.stack[|s.stack| - 1] in s.visited ==> ReachedTwice(h, root)
  {
    hide Inv, InOrder, Unfolds, ReachedTwice;
    InvTop(h, root, s.stack, s.paths, s.at);
    if s.stack[|s.stack| - 1] in s.visited {
      PoppedAgain(h, root, s.stack, s.paths, s.at);
    }
  }

  lemma {:induction false} EndGood(h: Heap, root: Id, t: Tree, s: Progress)
    requires Good(h, root, t, s) && s.stack == []
    ensures !ReachedTwice(h, root) && (Unfolds(h, t) && t.id == root ==> s.out == Preorder(t, 0))
  {
    hide Inv, InOrder, Unfolds, ReachedTwice, Preorder;
    NothingWaits(h, root, s.stack, s.paths, s.at);
    AllWalked(h, root, s.at);
    if Unfolds(h, t) && t.id == root { FinishedInOrder(h, t, s.stack, s.depths, s.trees, s.out); }
  }

  /**
   The loop of note_data_to_plain_text and of note_data_to_html: each visited note with its depth.
   If no note is reached twice the notes form a tree, and this is its preorder.
   */
  method VisitInOrder(h: Heap, root: Id) returns (r: Result<seq<(Id, nat)>, WalkError>)
    requires Closed(h) && root in h
    ensures r.Err? <==> ReachedTwice(h, root)
    ensures r.Ok? ==> exists t :: Unfolds(h, t) && t.id == root && r.value == Preorder(t, 0)
  {
    hide Inv, InOrder, Unfolds, Preorder, Closed, ReachedTwice, Good, Backwards, Levels;
    ghost var t := TheTree(h, root);
    var out: seq<(Id, nat)> := [];
    var stack: seq<Id> := [root];
    var depths: seq<nat> := [0];
    var visited: set<Id> := {};
    StartGood(h, root, t);
    ghost var s := Progress([root], [0], {}, [], [[]], map[], [t]);
    while stack != []
      invariant s.stack == stack && s.depths == depths && s.visited == visited && s.out == out
      invariant Good(h, root, t, s)
      decreases |h| - |visited|
    {
      var n := |stack| - 1;
      SeenAgain(h, root, t, s);
      var node, depth := stack[n], depths[n];
      if node in visited { return Err(Cycle); }
      s := TurnGood(h, root, t, s);
      SmallerSet(visited, h.Keys, node);
      visited := visited + {node};
      out := out + [(node, depth)];
      var children := h[node].children;
      stack := stack[..n] + Backwards(children);
      depths := depths[..n] + Levels(|children|, depth + 1);
    }
    EndGood(h, root, t, s);
    assert Unfolds(h, t) && out == Preorder(t, 0);
    return Ok(out);
  }

  lemma {:induction false} StartInOrder(h: Heap, t: Tree, root: Id)
    requires Unfolds(h, t) && t.id == root
    ensures InOrder(h, t, [root], [0], [t], [])
  {
    assert Pending([t], [0]) == Preorder(t, 0) + Pending([], []);
    assert [] + Pending([t], [0]) == Preorder(t, 0);
  }

  lemma {:induction false} FinishedInOrder(h: Heap, t: Tree, stack: seq<Id>, depths: seq<nat>, trees: seq<Tree>,
        out: seq<(Id, nat)>)
    requires InOrder(h, t, stack, depths, trees, out) && stack == []
    ensures out == Preorder(t, 0)
  {
    assert trees == [] && Pending(trees, depths) == [];
  }

  lemma {:induction false} InvTop(h: Heap, root: Id, stack: seq<Id>, paths: seq<Path>, at: map<Id, Path>)
    requires Inv(h, root, stack, paths, at) && stack != []
    ensures |paths| == |stack| && stack[|stack| - 1] in h
  {
    ValidTop(h, root, stack, paths);
  }

  lemma {:induction false} NothingWaits(h: Heap, root: Id, stack: seq<Id>, paths: seq<Path>, at: map<Id, Path>)
    requires Inv(h, root, stack, paths, at) && stack == []
    ensures Inv(h, root, [], [], at)
  {
    assert paths == [];
  }

  lemma {:induction false} SmallerSet(some: set<Id>, all: set<Id>, x: Id)
    requires some <= all && x in all && x !in some
    ensures |some| < |all|
  {
    var left := all - some;
    assert x in left;
    assert all == some + left;
  }

  // ---------- the read-only copy ----------

  /** Rendering is a function of a note's content and tags. */
  type Render = (string, string) -> string

  /** The copy so far: the memory, which copy each visited note has, the copies that wait, the next new object. */
  datatype Copies = Copies(heap: Heap, made: map<Id, Id>, targets: seq<Id>, free: Id)

  /** Child `i` of the copy of `n` is the copy of child `i` of `n`, made or waiting. */
  ghost predicate ChildCopied(h: Heap, stack: seq<Id>, c: Copies, n: Id, i: nat)
    requires n in h && i < |h[n].children| && n in c.made && c.made[n] in c.heap && i < |c.heap[c.made[n]].children|
    requires |c.targets| == |stack|
  {
    var child, copy := h[n].children[i], c.heap[c.made[n]].children[i];
    (child in c.made && c.made[child] == copy) || exists k ::
      0 <= k < |stack| && stack[k] == child && c.targets[k] == copy
  }

  ghost predicate NoteCopied(h: Heap, stack: seq<Id>, c: Copies, render: Render, n: Id)
    requires n in c.made && |c.targets| == |stack|
  {
    && n in h && c.made[n] in c.heap
    && var note, copy := h[n], c.heap[c.made[n]];
       && copy.content == render(note.content, note.tags) && copy.tags == note.tags
       && |copy.children| == |note.children|
       && forall i :: 0 <= i < |note.children| ==> ChildCopied(h, stack, c, n, i)
  }

  /** Every copy is a new object, and no two are the same. */
  ghost predicate NewCopies(next: Id, made: map<Id, Id>, targets: seq<Id>, free: Id) {
    && (forall n :: n in made ==> next <= made[n] < free)
    && (forall k :: 0 <= k < |targets| ==> next <= targets[k] < free)
    && (forall n, m :: n in made && m in made && n != m ==> made[n] != made[m])
    && (forall n, k :: n in made && 0 <= k < |targets| ==> made[n] != targets[k])
    && forall j, k :: 0 <= j < k < |targets| ==> targets[j] != targets[k]
  }

  ghost predicate Copying(h: Heap, next: Id, stack: seq<Id>, c: Copies, render: Render) {
    && |c.targets| == |stack| && NewCopies(next, c.made, c.targets, c.free) && next <= c.free
    && (forall n :: n in h ==> n < next && n in c.heap && c.heap[n] == h[n])
    && forall n :: n in c.made ==> NoteCopied(h, stack, c, render, n)
  }

  /** `{}` for every child, then the copy filled in place. */
  function Filled(h: Heap, c: Copies, node: Id, target: Id, render: Render): (r: (Heap, seq<Id>))
    requires node in h
    ensures |r.1| == |h[node].children| && forall i :: 0 <= i < |r.1| ==> r.1[i] == c.free + i
  {
    var children := h[node].children;
    var payloads := seq(|children|, i => c.free + i);
    (c.heap[target := Note(render(h[node].content, h[node].tags), h[node].tags, payloads)], payloads)
  }

  lemma {:induction false} TurnCopies(h: Heap, next: Id, stack: seq<Id>, c: Copies, render: Render)
    requires Copying(h, next, stack, c, render) && stack != [] && stack[|stack| - 1] in h
    requires stack[|stack| - 1] !in c.made
    ensures var n := |stack| - 1;
            var filled := Filled(h, c, stack[n], c.targets[n], render);
            Copying(h, next, stack[..n] + h[stack[n]].children,
                    Copies(filled.0, c.made[stack[n] := c.targets[n]], c.targets[..n] + filled.1,
                        c.free + |h[stack[n]].children|), render)
  {
    var n := |stack| - 1;
    var node, target, children := stack[n], c.targets[n], h[stack[n]].children;
    var filled := Filled(h, c, node, target, render);
    var stack' := stack[..n] + children;
    var c' := Copies(filled.0, c.made[node := target], c.targets[..n] + filled.1, c.free + |children|);
    TurnNew(next, c, node, filled.1);
    forall m | m in c'.made
      ensures NoteCopied(h, stack', c', render, m)
    {
      if m == node {
        forall i | 0 <= i < |children|
          ensures ChildCopied(h, stack', c', node, i)
        {
          assert stack'[n + i] == children[i] && c'.targets[n + i] == filled.1[i];
        }
      } else {
        assert NoteCopied(h, stack, c, render, m);
        assert c'.heap[c'.made[m]] == c.heap[c.made[m]];
        forall i | 0 <= i < |h[m].children|
          ensures ChildCopied(h, stack', c', m, i)
        {
          ChildStays(h, stack, c, stack', c', m, i);
        }
      }
    }
  }

  /** A waiting child is still waiting, or is the one just made. */
  lemma {:induction false} ChildStays(h: Heap, stack: seq<Id>, c: Copies, stack': seq<Id>, c': Copies, m: Id, i: nat)
    requires |c.targets| == |stack| && |c'.targets| == |stack'| && stack != [] && stack[|stack| - 1] !in c.made
    requires m in h && i < |h[m].children| && m in c.made && c.made[m] in c.heap && i < |c.heap[c.made[m]].children|
    requires c'.made == c.made[stack[|stack| - 1] := c.targets[|stack| - 1]] && m != stack[|stack| - 1]
    requires c.made[m] in c'.heap && c'.heap[c.made[m]] == c.heap[c.made[m]]
    requires stack[..|stack| - 1] <= stack' && c.targets[..|stack| - 1] <= c'.targets
    requires ChildCopied(h, stack, c, m, i)
    ensures ChildCopied(h, stack', c', m, i)
  {
    var child, copy := h[m].children[i], c.heap[c.made[m]].children[i];
    if !(child in c.made && c.made[child] == copy) {
      var k :| 0 <= k < |stack| && stack[k] == child && c.targets[k] == copy;
      if k < |stack| - 1 {
        assert stack[..|stack| - 1][k] == stack'[k] && c.targets[..|stack| - 1][k] == c'.targets[k];
      }
    }
  }

  lemma {:induction false} TurnNew(next: Id, c: Copies, node: Id, payloads: seq<Id>)
    requires NewCopies(next, c.made, c.targets, c.free) && next <= c.free && c.targets != [] && node !in c.made
    requires forall i :: 0 <= i < |payloads| ==> payloads[i] == c.free + i
    ensures var n := |c.targets| - 1;
            NewCopies(next, c.made[node := c.targets[n]], c.targets[..n] + payloads, c.free + |payloads|)
  {
  }

  /** `copy` is a new tree of the same shape below `root`, note by note, sharing nothing with the old memory. */
  ghost predicate IsCopy(h: Heap, heap: Heap, root: Id, made: map<Id, Id>, render: Render) {
    && root in made
    && (forall n :: n in h ==> n in heap && heap[n] == h[n])
    && (forall n, m :: n in made && m in made && n != m ==> made[n] != made[m])
    && forall n :: n in made ==>
         && n in h && made[n] !in h && made[n] in heap
         && heap[made[n]].content == render(h[n].content, h[n].tags) && heap[made[n]].tags == h[n].tags
         && |heap[made[n]].children| == |h[n].children|
         && forall i :: 0 <= i < |h[n].children| ==>
              h[n].children[i] in made && heap[made[n]].children[i] == made[h[n].children[i]]
  }

  lemma {:induction false} CopiesDone(h: Heap, next: Id, root: Id, c: Copies, render: Render)
    requires Copying(h, next, [], c, render) && root in c.made
    ensures IsCopy(h, c.heap, root, c.made, render)
  {
    forall n | n in c.made
      ensures forall i :: 0 <= i < |h[n].children| ==>
          h[n].children[i] in c.made && c.heap[c.made[n]].children[i] == c.made[h[n].children[i]]
    {
      assert NoteCopied(h, [], c, render, n);
      forall i | 0 <= i < |h[n].children|
        ensures h[n].children[i] in c.made && c.heap[c.made[n]].children[i] == c.made[h[n].children[i]]
      {
        assert ChildCopied(h, [], c, n, i);
      }
    }
  }

  /** Both bookkeepings of the copying loop. */
  ghost predicate CopyGood(h: Heap, root: Id, next: Id, stack: seq<Id>, visited: set<Id>, c: Copies, paths: seq<Path>,
        at: map<Id, Path>, render: Render) {
    && Inv(h, root, stack, paths, at) && Copying(h, next, stack, c, render)
    && visited == at.Keys && visited == c.made.Keys && visited <= h.Keys
    && if root in c.made then c.made[root] == next else stack == [root] && c.targets == [next]
  }

  lemma {:induction false} StartCopy(h: Heap, root: Id, next: Id, render: Render)
    requires root in h && forall n :: n in h ==> n < next
    ensures CopyGood(h, root, next, [root], {}, Copies(h[next := Note("", "", [])], map[], [next], next + 1), [[]],
        map[], render)
  {
    StartInv(h, root);
  }

  lemma {:induction false} TurnCopyGood(
    h: Heap, root: Id, next: Id, stack: seq<Id>, visited: set<Id>, c: Copies, paths: seq<Path>, at: map<Id, Path>,
        render: Render)
    returns (paths': seq<Path>, at': map<Id, Path>)
    requires Closed(h) && CopyGood(h, root, next, stack, visited, c, paths, at, render)
    requires stack != [] && stack[|stack| - 1] in h && stack[|stack| - 1] !in visited
    ensures var n := |stack| - 1;
            var filled := Filled(h, c, stack[n], c.targets[n], render);
            CopyGood(h, root, next, stack[..n] + h[stack[n]].children, visited + {stack[n]},
                     Copies(filled.0, c.made[stack[n] := c.targets[n]], c.targets[..n] + filled.1,
                         c.free + |h[stack[n]].children|),
                     paths', at', render)
  {
    hide Inv, Copying, Filled, Lists, Closed, Below;
    var n := |stack| - 1;
    var children := h[stack[n]].children;
    InvTop(h, root, stack, paths, at);
    ForwardsLists(|children|);
    var order := seq(|children|, i requires 0 <= i < |children| => i);
    PopKeeps(h, root, stack, paths, at, order, children);
    TurnCopies(h, next, stack, c, render);
    paths', at' := paths[..n] + Below(paths[n], order), at[stack[n] := paths[n]];
  }

  lemma {:induction false} CopySeenAgain(
    h: Heap, root: Id, next: Id, stack: seq<Id>, visited: set<Id>, c: Copies, paths: seq<Path>, at: map<Id, Path>,
        render: Render)
    requires CopyGood(h, root, next, stack, visited, c, paths, at, render) && stack != []
    ensures |c.targets| == |stack| && visited <= h.Keys && stack[|stack| - 1] in h
    ensures stack[|stack| - 1] in visited ==> ReachedTwice(h, root)
  {
    hide Inv, ReachedTwice;
    InvTop(h, root, stack, paths, at);
    if stack[|stack| - 1] in visited {
      PoppedAgain(h, root, stack, paths, at);
    }
  }

  lemma {:induction false} EndCopy(
    h: Heap, root: Id, next: Id, stack: seq<Id>, visited: set<Id>, c: Copies, paths: seq<Path>, at: map<Id, Path>,
        render: Render)
    requires CopyGood(h, root, next, stack, visited, c, paths, at, render) && stack == []
    ensures !ReachedTwice(h, root) && IsCopy(h, c.heap, root, c.made, render) && root in c.made && c.made[root] == next
  {
    hide Inv, ReachedTwice, Copying, IsCopy;
    NothingWaits(h, root, stack, paths, at);
    AllWalked(h, root, at);
    CopiesDone(h, next, root, c, render);
  }

  /** render_note_data_read_only: `next` is the first object not yet in use, and becomes the copy of the root. */
  method RenderReadOnly(h: Heap, root: Id, next: Id, render: Render)
    returns (r: Result<Heap, WalkError>, ghost made: map<Id, Id>)
    requires Closed(h) && root in h && forall n :: n in h ==> n < next
    ensures r.Err? <==> ReachedTwice(h, root)
    ensures r.Ok? ==> IsCopy(h, r.value, root, made, render) && root in made && made[root] == next
  {
    hide Inv, Closed, ReachedTwice, CopyGood, IsCopy, Filled;
    var stack: seq<Id> := [root];
    var c := Copies(h[next := Note("", "", [])], map[], [next], next + 1);
    var visited: set<Id> := {};
    ghost var paths: seq<Path> := [[]];
    ghost var at: map<Id, Path> := map[];
    made := map[];
    StartCopy(h, root, next, render);
    while stack != []
      invariant CopyGood(h, root, next, stack, visited, c, paths, at, render)
      decreases |h| - |visited|
    {
      var n := |stack| - 1;
      CopySeenAgain(h, root, next, stack, visited, c, paths, at, render);
      var node, target := stack[n], c.targets[n];
      if node in visited { return Err(Cycle), map[]; }
      paths, at := TurnCopyGood(h, root, next, stack, visited, c, paths, at, render);
      var filled := Filled(h, c, node, target, render);
      SmallerSet(visited, h.Keys, node);
      visited := visited + {node};
      var children := h[node].children;
      stack := stack[..n] + children;
      c := Copies(filled.0, c.made[node := target], c.targets[..n] + filled.1, c.free + |children|);
    }
    EndCopy(h, root, next, stack, visited, c, paths, at, render);
    made := c.made;
    return Ok(c.heap), made;
  }
}

/**
 Importing one legacy outline: rows with indents, some of which become ontology
 rules instead of notes while their children stay.
 */
module Outline {
  import opened Wrappers

  /** One subitem; `rule` says that it carries `@implies` and has content, so it is not kept. */
  datatype Sub = Sub(indent: int, rule: bool)

  datatype ImportError =
    | NoSubitems | NegativeIndent | FirstNotRoot | SecondRoot | IndentJump | Underflow | StackMismatch | RootCount

  /** Row `i` is at most one level deeper than the row before it, and not a second root. */
  ghost predicate StepOk(subs: seq<Sub>, i: nat)
    requires 1 <= i < |subs|
  {
    1 <= subs[i].indent <= subs[i - 1].indent + 1
  }

  /** The first `n` rows have indents that the legacy format allows. */
  ghost predicate AcceptedTo(subs: seq<Sub>, n: nat) {
    0 < n <= |subs| && subs[0].indent == 0
    && forall i :: 1 <= i < n ==> StepOk(subs, i)
  }

  /** What the legacy format requires of the indents of one item. */
  ghost predicate Accepted(subs: seq<Sub>) {
    AcceptedTo(subs, |subs|)
  }

  // ---------- the outline, independently of the import ----------

  /** The last row at or before `j` whose indent is below `h`. */
  ghost function LastBelow(subs: seq<Sub>, j: nat, h: int): (r: nat)
    requires AcceptedTo(subs, j + 1) && h > 0
    ensures r <= j && subs[r].indent < h
    ensures forall m :: r < m <= j ==> subs[m].indent >= h
  {
    if subs[j].indent < h then j else LastBelow(subs, j - 1, h)
  }

  /** The row under which row `i` stands in the original outline. */
  ghost function Above(subs: seq<Sub>, i: nat): (r: nat)
    requires AcceptedTo(subs, i + 1) && subs[i].indent > 0
    ensures r < i
  {
    LastBelow(subs, i - 1, subs[i].indent)
  }

  /** The nearest ancestor of row `i` that is kept. */
  ghost function NearestKept(subs: seq<Sub>, i: nat): (r: Option<nat>)
    requires AcceptedTo(subs, i + 1)
    ensures r.Some? ==> r.value < i && !subs[r.value].rule
    decreases i
  {
    if subs[i].indent <= 0 then None
    else if subs[Above(subs, i)].rule then NearestKept(subs, Above(subs, i))
    else Some(Above(subs, i))
  }

  /** How many ancestors of row `i` are kept. */
  ghost function KeptDepth(subs: seq<Sub>, i: nat): nat
    requires AcceptedTo(subs, i + 1)
    decreases i
  {
    if subs[i].indent <= 0 then 0
    else KeptDepth(subs, Above(subs, i)) + (if subs[Above(subs, i)].rule then 0 else 1)
  }

  /** How many rows before row `i` are kept. */
  ghost function Rank(subs: seq<Sub>, i: nat): (r: nat)
    requires i <= |subs|
    ensures r <= i
  {
    if i == 0 then 0 else Rank(subs, i - 1) + (if subs[i - 1].rule then 0 else 1)
  }

  lemma {:induction false} RankGrows(subs: seq<Sub>, i: nat, j: nat)
    requires i < j <= |subs| && !subs[i].rule
    ensures Rank(subs, i) < Rank(subs, j)
    decreases j
  {
    if i < j - 1 {
      RankGrows(subs, i, j - 1);
    }
  }

  // ---------- the rows from the root down to row i ----------

  ghost function Path(subs: seq<Sub>, i: nat): (p: seq<nat>)
    requires AcceptedTo(subs, i + 1)
    ensures subs[i].indent >= 0 && |p| == subs[i].indent + 1 && p[|p| - 1] == i
    ensures forall d :: 0 <= d < |p| ==> p[d] <= i && p[d] < |subs| && subs[p[d]].indent == d
  {
    if i == 0 then [0]
    else
      assert StepOk(subs, i);
      Path(subs, i - 1)[..subs[i].indent] + [i]
  }

  /** The rows above row `i`, from the root down. */
  ghost function Ancestors(subs: seq<Sub>, i: nat): (p: seq<nat>)
    requires AcceptedTo(subs, i + 1)
    ensures subs[i].indent >= 0 && |p| == subs[i].indent
    ensures forall d :: 0 <= d < |p| ==> p[d] < |subs|
  {
    Path(subs, i)[..subs[i].indent]
  }

  ghost function KeptOn(subs: seq<Sub>, path: seq<nat>): seq<nat>
    requires forall d :: 0 <= d < |path| ==> path[d] < |subs|
  {
    if path == [] then []
    else
      var last := path[|path| - 1];
      KeptOn(subs, path[..|path| - 1]) + (if subs[last].rule then [] else [last])
  }

  /** The depths of the rows on a path that are not kept. */
  ghost function RuleDepths(subs: seq<Sub>, path: seq<nat>): (r: seq<int>)
    requires forall d :: 0 <= d < |path| ==> path[d] < |subs|
    ensures forall k :: 0 <= k < |r| ==> 0 <= r[k] < |path|
    ensures |r| + |KeptOn(subs, path)| == |path|
  {
    if path == [] then []
    else
      var last := path[|path| - 1];
      RuleDepths(subs, path[..|path| - 1]) + (if subs[last].rule then [|path| - 1] else [])
  }

  /** Both filters of a shorter path are prefixes, split where the depths reach the cut. */
  lemma {:induction false} FilterPrefix(subs: seq<Sub>, path: seq<nat>, d: nat)
    requires forall e :: 0 <= e < |path| ==> path[e] < |subs|
    requires d <= |path|
    ensures KeptOn(subs, path[..d]) <= KeptOn(subs, path)
    ensures RuleDepths(subs, path[..d]) <= RuleDepths(subs, path)
    ensures forall k :: |RuleDepths(subs, path[..d])| <= k < |RuleDepths(subs, path)| ==> RuleDepths(subs, path)[k] >= d
    decreases |path|
  {
    if d == |path| {
      assert path[..d] == path;
    } else {
      var shorter := path[..|path| - 1];
      FilterPrefix(subs, shorter, d);
      assert shorter[..d] == path[..d];
    }
  }

  lemma {:induction false} LastBelowOnPath(subs: seq<Sub>, i: nat, h: int)
    requires AcceptedTo(subs, i + 1) && 0 < h <= subs[i].indent + 1
    ensures Path(subs, i)[h - 1] == LastBelow(subs, i, h)
    ensures Path(subs, LastBelow(subs, i, h)) == Path(subs, i)[..h]
  {
    assert i > 0 ==> StepOk(subs, i);
    var p := Path(subs, i);
    if subs[i].indent >= h {
      var q := Path(subs, i - 1);
      LastBelowOnPath(subs, i - 1, h);
      assert p == q[..subs[i].indent] + [i];
      assert p[..h] == q[..h];
    } else {
      assert |p| == h && p[..h] == p;
    }
  }

  /** The row above row `i`, and all rows above that one, are the path to `i`. */
  lemma {:induction false} AboveOnPath(subs: seq<Sub>, i: nat)
    requires AcceptedTo(subs, i + 1) && subs[i].indent > 0
    ensures Path(subs, i)[subs[i].indent - 1] == Above(subs, i)
    ensures Path(subs, Above(subs, i)) == Path(subs, i)[..subs[i].indent]
  {
    assert StepOk(subs, i);
    LastBelowOnPath(subs, i - 1, subs[i].indent);
    assert Path(subs, i)[..subs[i].indent] == Path(subs, i - 1)[..subs[i].indent];
  }

  /** The kept rows on the path above row `i` end with its nearest kept ancestor. */
  lemma {:induction false} KeptAbove(subs: seq<Sub>, i: nat)
    requires AcceptedTo(subs, i + 1)
    ensures var kept := KeptOn(subs, Ancestors(subs, i));
            && |kept| == KeptDepth(subs, i)
            && NearestKept(subs, i) == (if kept == [] then None else Some(kept[|kept| - 1]))
    decreases i
  {
    if subs[i].indent > 0 {
      var a := Above(subs, i);
      AboveOnPath(subs, i);
      KeptAbove(subs, a);
      var p := Ancestors(subs, i);
      assert p[..|p| - 1] == Ancestors(subs, a);
    }
  }
}

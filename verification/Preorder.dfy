/** The traversal of a note tree, and why it gives the notes back in the order they were read. */
module Preorder {
  import opened Wrappers
  import opened ImportTree

  ghost predicate EarlierParents(parents: seq<Option<nat>>) {
    forall k :: 0 <= k < |parents| && parents[k].Some? ==> parents[k].value < k
  }

  ghost predicate Rising(ks: seq<nat>, n: nat) {
    && (forall i :: 0 <= i < |ks| ==> ks[i] < n)
    && (forall i, j :: 0 <= i < j < |ks| ==> ks[i] < ks[j])
  }

  lemma {:induction false} KidsRise(parents: seq<Option<nat>>, p: Option<nat>)
    ensures Rising(Kids(parents, p, 0, |parents|), |parents|)
    ensures EarlierParents(parents) && p.Some? ==>
      forall i :: 0 <= i < |Kids(parents, p, 0, |parents|)| ==> Kids(parents, p, 0, |parents|)[i] > p.value
  {
    KidsAre(parents, p, 0, |parents|);
  }

  /** The siblings `ks` with everything below them, depth first, as (note, depth). */
  ghost function Walk(parents: seq<Option<nat>>, ks: seq<nat>, depth: nat): seq<(nat, nat)>
    requires EarlierParents(parents) && Rising(ks, |parents|)
    decreases if ks == [] then 0 else |parents| - ks[0]
  {
    if ks == [] then []
    else
      KidsRise(parents, Some(ks[0]));
      [(ks[0], depth)]
      + Walk(parents, Kids(parents, Some(ks[0]), 0, |parents|), depth + 1)
      + Walk(parents, ks[1..], depth)
  }

  /** The notes `[lo, hi)` in insertion order, each with its depth. */
  ghost function Lines(effs: seq<nat>, lo: nat, hi: nat): (r: seq<(nat, nat)>)
    requires lo <= hi <= |effs|
    ensures |r| == hi - lo && forall i :: 0 <= i < |r| ==> r[i] == (lo + i, effs[lo + i])
  {
    seq(hi - lo, i requires 0 <= i < hi - lo => (lo + i, effs[lo + i]))
  }

  lemma {:induction false} KidsSplit(parents: seq<Option<nat>>, p: Option<nat>, lo: nat, mid: nat, hi: nat)
    requires lo <= mid <= hi <= |parents|
    ensures Kids(parents, p, lo, hi) == Kids(parents, p, lo, mid) + Kids(parents, p, mid, hi)
  {
    if mid < hi {
      KidsSplit(parents, p, lo, mid, hi - 1);
    }
  }

  lemma {:induction false} KidsNone(parents: seq<Option<nat>>, p: Option<nat>, lo: nat, hi: nat)
    requires lo <= hi <= |parents|
    requires forall k :: lo <= k < hi ==> parents[k] != p
    ensures Kids(parents, p, lo, hi) == []
  {
    if lo < hi {
      KidsNone(parents, p, lo, hi - 1);
    }
  }

  /** `[lo, hi)` holds whole subtrees of depth `depth` under `p`. */
  ghost predicate Block(effs: seq<nat>, p: Option<nat>, lo: nat, hi: nat, depth: nat)
    requires lo <= hi <= |effs|
  {
    && (forall m :: lo <= m < hi ==> effs[m] >= depth)
    && (lo < hi ==> effs[lo] == depth)
    && (hi < |effs| ==> effs[hi] <= depth)
    && match p
       case None => depth == 0
       case Some(j) => j < lo && effs[j] + 1 == depth && forall m :: j < m < lo ==> effs[m] >= depth
  }

  lemma {:induction false} BlockParent(effs: seq<nat>, parents: seq<Option<nat>>, p: Option<nat>, lo: nat, hi: nat,
        depth: nat, m: nat)
    requires Forest(effs, parents) && lo <= m < hi <= |effs| && Block(effs, p, lo, hi, depth)
    ensures parents[m] == p <==> effs[m] == depth
  {
    assert ParentFits(effs, parents[m], m);
    if parents[m].Some? && p.Some? && effs[m] == depth {
      var i, j := parents[m].value, p.value;
      assert effs[i] < depth && effs[j] < depth;
    }
  }

  /** The first of the block, then the end of its subtree. */
  lemma {:induction false} FirstSubtree(effs: seq<nat>, lo: nat, hi: nat, depth: nat) returns (mid: nat)
    requires lo < hi <= |effs| && forall m :: lo <= m < hi ==> effs[m] >= depth
    ensures lo < mid <= hi && (forall m :: lo < m < mid ==> effs[m] > depth)
    ensures mid < hi ==> effs[mid] == depth
  {
    mid := lo + 1;
    while mid < hi && effs[mid] > depth
      invariant lo < mid <= hi && forall m :: lo < m < mid ==> effs[m] > depth
    {
      mid := mid + 1;
    }
  }

  lemma {:induction false} FirstKids(effs: seq<nat>, parents: seq<Option<nat>>, lo: nat, mid: nat)
    requires Forest(effs, parents) && lo < mid <= |effs|
    requires forall m :: lo < m < mid ==> effs[m] > effs[lo]
    requires mid < |effs| ==> effs[mid] <= effs[lo]
    ensures Kids(parents, Some(lo), 0, |parents|) == Kids(parents, Some(lo), lo + 1, mid)
  {
    forall k | 0 <= k < lo + 1 || mid <= k < |parents|
      ensures parents[k] != Some(lo)
    {
      assert ParentFits(effs, parents[k], k);
      assert mid < |effs| ==> effs[mid] <= effs[lo];
    }
    KidsNone(parents, Some(lo), 0, lo + 1);
    KidsNone(parents, Some(lo), mid, |parents|);
    KidsSplit(parents, Some(lo), 0, lo + 1, |parents|);
    KidsSplit(parents, Some(lo), lo + 1, mid, |parents|);
  }

  lemma {:induction false} KidsOfFirst(parents: seq<Option<nat>>, p: Option<nat>, lo: nat, mid: nat)
    requires lo < mid <= |parents| && parents[lo] == p
    requires forall m :: lo < m < mid ==> parents[m] != p
    ensures Kids(parents, p, lo, mid) == [lo]
  {
    KidsNone(parents, p, lo + 1, mid);
    KidsSplit(parents, p, lo, lo + 1, mid);
    assert Kids(parents, p, lo, lo) == [];
  }

  lemma {:induction false} BlockKids(effs: seq<nat>, parents: seq<Option<nat>>, p: Option<nat>, lo: nat, mid: nat,
        hi: nat, depth: nat)
    requires Forest(effs, parents) && lo < mid <= hi <= |effs| && Block(effs, p, lo, hi, depth)
    requires forall m :: lo < m < mid ==> effs[m] > depth
    ensures Kids(parents, p, lo, hi) == [lo] + Kids(parents, p, mid, hi)
  {
    BlockParent(effs, parents, p, lo, hi, depth, lo);
    forall m | lo < m < mid
      ensures parents[m] != p
    {
      BlockParent(effs, parents, p, lo, hi, depth, m);
    }
    KidsOfFirst(parents, p, lo, mid);
    KidsSplit(parents, p, lo, mid, hi);
  }

  lemma {:induction false} KidsRising(parents: seq<Option<nat>>, p: Option<nat>, lo: nat, hi: nat)
    requires lo <= hi <= |parents|
    ensures Rising(Kids(parents, p, lo, hi), |parents|)
  {
    KidsAre(parents, p, lo, hi);
  }

  /** Walking the top notes of a block visits the block in insertion order. */
  lemma {:induction false} WalkBlock(effs: seq<nat>, parents: seq<Option<nat>>, p: Option<nat>, lo: nat, hi: nat,
        depth: nat)
    requires Forest(effs, parents) && lo <= hi <= |effs| == |parents| && EarlierParents(parents)
    requires Block(effs, p, lo, hi, depth) && Rising(Kids(parents, p, lo, hi), |parents|)
    ensures Walk(parents, Kids(parents, p, lo, hi), depth) == Lines(effs, lo, hi)
    decreases hi - lo
  {
    hide Block, Kids, Forest, Lines, Walk, Rising;
    if lo == hi {
      EmptyBlock(effs, parents, p, lo, depth);
    } else {
      DeepEnough(effs, p, lo, hi, depth);
      var mid := FirstSubtree(effs, lo, hi, depth);
      var ks := Kids(parents, p, lo, hi);
      BlockKids(effs, parents, p, lo, mid, hi, depth);
      FirstKids(effs, parents, lo, mid);
      SubBlocks(effs, parents, p, lo, mid, hi, depth);
      KidsRising(parents, Some(lo), lo + 1, mid);
      KidsRising(parents, p, mid, hi);
      WalkFirst(parents, ks, depth);
      LinesSplit(effs, lo, mid, hi);
      WalkBlock(effs, parents, Some(lo), lo + 1, mid, depth + 1);
      WalkBlock(effs, parents, p, mid, hi, depth);
      assert ks[1..] == Kids(parents, p, mid, hi);
    }
  }

  lemma {:induction false} EmptyBlock(effs: seq<nat>, parents: seq<Option<nat>>, p: Option<nat>, lo: nat, depth: nat)
    requires lo <= |effs| == |parents| && EarlierParents(parents) && Rising(Kids(parents, p, lo, lo), |parents|)
    ensures Walk(parents, Kids(parents, p, lo, lo), depth) == [] == Lines(effs, lo, lo)
  {
  }

  lemma {:induction false} DeepEnough(effs: seq<nat>, p: Option<nat>, lo: nat, hi: nat, depth: nat)
    requires lo < hi <= |effs| && Block(effs, p, lo, hi, depth)
    ensures (forall m :: lo <= m < hi ==> effs[m] >= depth) && effs[lo] == depth
    ensures hi < |effs| ==> effs[hi] <= depth
  {
  }

  lemma {:induction false} WalkFirst(parents: seq<Option<nat>>, ks: seq<nat>, depth: nat)
    requires EarlierParents(parents) && Rising(ks, |parents|) && ks != []
    ensures Rising(Kids(parents, Some(ks[0]), 0, |parents|), |parents|)
    ensures Walk(parents, ks, depth)
      == [(ks[0], depth)] + Walk(parents, Kids(parents, Some(ks[0]), 0, |parents|), depth + 1)
          + Walk(parents, ks[1..], depth)
  {
    KidsRise(parents, Some(ks[0]));
  }

  lemma {:induction false} LinesSplit(effs: seq<nat>, lo: nat, mid: nat, hi: nat)
    requires lo < mid <= hi <= |effs|
    ensures Lines(effs, lo, hi) == [(lo, effs[lo])] + Lines(effs, lo + 1, mid) + Lines(effs, mid, hi)
  {
  }

  lemma {:induction false} SubBlocks(effs: seq<nat>, parents: seq<Option<nat>>, p: Option<nat>, lo: nat, mid: nat,
        hi: nat, depth: nat)
    requires Forest(effs, parents) && lo < mid <= hi <= |effs| && Block(effs, p, lo, hi, depth)
    requires (forall m :: lo < m < mid ==> effs[m] > depth) && (mid < hi ==> effs[mid] == depth)
    ensures effs[lo] == depth && Block(effs, Some(lo), lo + 1, mid, depth + 1) && Block(effs, p, mid, hi, depth)
  {
    if lo + 1 < mid {
      assert ParentFits(effs, parents[lo + 1], lo + 1);
    }
  }

  /** Depth-first traversal of an imported forest is the input order, with depth equal to the indent. */
  lemma {:induction false} PreorderIsInputOrder(effs: seq<nat>, parents: seq<Option<nat>>)
    requires Forest(effs, parents)
    ensures EarlierParents(parents) && Rising(Kids(parents, None, 0, |parents|), |parents|)
    ensures Walk(parents, Kids(parents, None, 0, |parents|), 0) == Lines(effs, 0, |effs|)
  {
    ParentsAreEarlier(effs, parents);
    KidsRising(parents, None, 0, |parents|);
    assert |effs| > 0 ==> ParentFits(effs, parents[0], 0);
    WalkBlock(effs, parents, None, 0, |effs|, 0);
  }
}

/**
 The note tree an import builds: notes in insertion order, the children lists kept
 per parent, and the sibling links written at the end.
 */
module ImportTree {
  import opened Wrappers
  import opened Outline

  datatype Row = Row(id: string, parent: Option<string>, prev: Option<string>, next: Option<string>)

  ghost predicate Distinct<T(!new)>(xs: seq<T>) {
    forall i, j :: 0 <= i < j < |xs| ==> xs[i] != xs[j]
  }

  // ---------- forests given by depths and parent positions ----------

  /** The parent of note `k` is the last earlier note that is less deep, exactly one level up. */
  ghost predicate ParentFits(effs: seq<nat>, p: Option<nat>, k: nat)
    requires k < |effs|
  {
    match p
    case None => effs[k] == 0
    case Some(j) => j < k && effs[k] == effs[j] + 1 && forall m :: j < m < k ==> effs[m] >= effs[k]
  }

  ghost predicate Forest(effs: seq<nat>, parents: seq<Option<nat>>) {
    |effs| == |parents| && forall k :: 0 <= k < |effs| ==> ParentFits(effs, parents[k], k)
  }

  /** The notes in `[lo, hi)` whose parent is `p`, in insertion order. */
  ghost function Kids(parents: seq<Option<nat>>, p: Option<nat>, lo: nat, hi: nat): (ks: seq<nat>)
    requires lo <= hi <= |parents|
    ensures forall i :: 0 <= i < |ks| ==> ks[i] < hi
  {
    if lo == hi then []
    else Kids(parents, p, lo, hi - 1) + (if parents[hi - 1] == p then [hi - 1] else [])
  }

  lemma {:induction false} KidsAre(parents: seq<Option<nat>>, p: Option<nat>, lo: nat, hi: nat)
    requires lo <= hi <= |parents|
    ensures forall i :: 0 <= i < |Kids(parents, p, lo, hi)| ==>
      lo <= Kids(parents, p, lo, hi)[i] < hi && parents[Kids(parents, p, lo, hi)[i]] == p
    ensures forall k :: lo <= k < hi && parents[k] == p ==> k in Kids(parents, p, lo, hi)
    ensures forall i, j :: 0 <= i < j < |Kids(parents, p, lo, hi)| ==>
        Kids(parents, p, lo, hi)[i] < Kids(parents, p, lo, hi)[j]
  {
    if lo < hi {
      KidsAre(parents, p, lo, hi - 1);
      var before := Kids(parents, p, lo, hi - 1);
      if parents[hi - 1] == p {
        var ks := before + [hi - 1];
        assert ks[|before|] == hi - 1;
        assert forall k :: k in before ==> k in ks;
      }
    }
  }

  lemma {:induction false} KidsExtend(parents: seq<Option<nat>>, p: Option<nat>, lo: nat, hi: nat, q: Option<nat>)
    requires lo <= hi <= |parents|
    ensures Kids(parents + [q], p, lo, hi) == Kids(parents, p, lo, hi)
  {
    if lo < hi {
      KidsExtend(parents, p, lo, hi - 1, q);
    }
  }

  ghost function Names(ids: seq<string>, ks: seq<nat>): (r: seq<string>)
    requires forall i :: 0 <= i < |ks| ==> ks[i] < |ids|
    ensures |r| == |ks| && forall i :: 0 <= i < |ks| ==> r[i] == ids[ks[i]]
  {
    seq(|ks|, i requires 0 <= i < |ks| => ids[ks[i]])
  }

  lemma {:induction false} NamesAppend(ids: seq<string>, id: string, ks: seq<nat>)
    requires forall i :: 0 <= i < |ks| ==> ks[i] < |ids|
    ensures Names(ids + [id], ks) == Names(ids, ks)
    ensures Names(ids + [id], ks + [|ids|]) == Names(ids, ks) + [id]
  {
  }

  ghost function Key(ids: seq<string>, p: Option<nat>): Option<string>
    requires p.Some? ==> p.value < |ids|
  {
    if p.None? then None else Some(ids[p.value])
  }

  /** `order` lists the children of every note, and of the root, in insertion order. */
  ghost predicate OrderOk(ids: seq<string>, parents: seq<Option<nat>>, order: map<Option<string>, seq<string>>) {
    && |ids| == |parents|
    && (forall key :: key in order && key.Some? ==> key.value in ids)
    && forall p: Option<nat> :: (p.Some? ==> p.value < |ids|) ==> OrderEntryOk(ids, parents, order, p)
  }

  ghost predicate OrderEntryOk(
    ids: seq<string>, parents: seq<Option<nat>>, order: map<Option<string>, seq<string>>, p: Option<nat>)
    requires |ids| == |parents| && (p.Some? ==> p.value < |ids|)
  {
    var ks := Kids(parents, p, 0, |parents|);
    if ks == [] then Key(ids, p) !in order
    else Key(ids, p) in order && order[Key(ids, p)] == Names(ids, ks)
  }

  /** A row for every note, with its parent. */
  ghost predicate TableOk(ids: seq<string>, parents: seq<Option<nat>>, table: map<string, Row>) {
    && |ids| == |parents|
    && (forall id :: id in table <==> id in ids)
    && forall k :: 0 <= k < |ids| && (parents[k].Some? ==> parents[k].value < |ids|) ==>
      table[ids[k]].id == ids[k] && table[ids[k]].parent == Key(ids, parents[k])
  }

  lemma {:induction false} KeyInjective(ids: seq<string>, p: Option<nat>, q: Option<nat>)
    requires Distinct(ids) && (p.Some? ==> p.value < |ids|) && (q.Some? ==> q.value < |ids|)
    ensures p != q ==> Key(ids, p) != Key(ids, q)
  {
    if p.Some? && q.Some? && p != q {
      var i, j := if p.value < q.value then p.value else q.value, if p.value < q.value then q.value else p.value;
      assert ids[i] != ids[j];
    }
  }

  ghost function AppendChild(order: map<Option<string>, seq<string>>, key: Option<string>, id: string)
    : map<Option<string>, seq<string>>
  {
    order[key := (if key in order then order[key] else []) + [id]]
  }

  lemma {:induction false} OrderEntryAppend(
    ids: seq<string>, parents: seq<Option<nat>>, order: map<Option<string>, seq<string>>, id: string, p: Option<nat>,
    q: Option<nat>)
    requires OrderOk(ids, parents, order) && Distinct(ids) && (p.Some? ==> p.value < |ids|)
    requires (q.Some? ==> q.value < |ids|)
    ensures OrderEntryOk(ids + [id], parents + [p], AppendChild(order, Key(ids, p), id), q)
  {
    var n := |parents|;
    KidsExtend(parents, q, 0, n, p);
    KeyInjective(ids, p, q);
    assert OrderEntryOk(ids, parents, order, q);
    assert Key(ids + [id], q) == Key(ids, q);
    var ks := Kids(parents, q, 0, n);
    NamesAppend(ids, id, ks);
    assert Kids(parents + [p], q, 0, n + 1) == if q == p then ks + [n] else ks;
  }

  lemma {:induction false} NoKidsYet(parents: seq<Option<nat>>, n: nat, hi: nat)
    requires hi <= |parents| && hi <= n
    requires forall k :: 0 <= k < hi && parents[k].Some? ==> parents[k].value < k
    ensures Kids(parents, Some(n), 0, hi) == []
  {
    if hi > 0 {
      NoKidsYet(parents, n, hi - 1);
    }
  }

  lemma {:induction false} NewNoteHasNoKids(
    ids: seq<string>, parents: seq<Option<nat>>, order: map<Option<string>, seq<string>>, id: string, p: Option<nat>)
    requires OrderOk(ids, parents, order) && id !in ids && (p.Some? ==> p.value < |ids|)
    requires forall k :: 0 <= k < |parents| && parents[k].Some? ==> parents[k].value < k
    ensures OrderEntryOk(ids + [id], parents + [p], AppendChild(order, Key(ids, p), id), Some(|ids|))
  {
    NoKidsYet(parents, |ids|, |ids|);
    KidsExtend(parents, Some(|ids|), 0, |ids|, p);
    assert Some(id) !in order;
    assert Key(ids, p) != Some(id);
  }

  lemma {:induction false} OrderAppend(
    ids: seq<string>, parents: seq<Option<nat>>, order: map<Option<string>, seq<string>>, id: string, p: Option<nat>)
    requires OrderOk(ids, parents, order) && Distinct(ids) && id !in ids && (p.Some? ==> p.value < |ids|)
    requires forall k :: 0 <= k < |parents| && parents[k].Some? ==> parents[k].value < k
    ensures OrderOk(ids + [id], parents + [p], AppendChild(order, Key(ids, p), id))
  {
    var order' := AppendChild(order, Key(ids, p), id);
    forall q: Option<nat> | q.Some? ==> q.value < |ids| + 1
      ensures OrderEntryOk(ids + [id], parents + [p], order', q)
    {
      if q == Some(|ids|) {
        NewNoteHasNoKids(ids, parents, order, id, p);
      } else {
        OrderEntryAppend(ids, parents, order, id, p, q);
      }
    }
    forall key | key in order' && key.Some?
      ensures key.value in ids + [id]
    {
      assert key in order || key == Key(ids, p);
    }
  }

  // ---------- the spine: the kept rows that can still take children ----------

  ghost predicate SpineOk(effs: seq<nat>, spine: seq<nat>) {
    forall d :: 0 <= d < |spine| ==>
      spine[d] < |effs| && effs[spine[d]] == d && forall m :: spine[d] < m < |effs| ==> effs[m] > d
  }

  lemma {:induction false} ForestAppend(effs: seq<nat>, parents: seq<Option<nat>>, spine: seq<nat>)
    requires Forest(effs, parents) && SpineOk(effs, spine)
    ensures var e := |spine|;
            var p := if e == 0 then None else Some(spine[e - 1]);
            Forest(effs + [e], parents + [p]) && SpineOk(effs + [e], spine + [|effs|])
  {
    var e := |spine|;
    var p := if e == 0 then None else Some(spine[e - 1]);
    var effs' := effs + [e];
    forall k | 0 <= k < |effs'|
      ensures ParentFits(effs', (parents + [p])[k], k)
    {
      if k < |effs| {
        assert ParentFits(effs, parents[k], k);
      }
    }
  }

  lemma {:induction false} TableAppend(ids: seq<string>, parents: seq<Option<nat>>, table: map<string, Row>, id: string,
        p: Option<nat>)
    requires TableOk(ids, parents, table) && id !in ids && (p.Some? ==> p.value < |ids|)
    requires forall k :: 0 <= k < |parents| && parents[k].Some? ==> parents[k].value < k
    ensures TableOk(ids + [id], parents + [p], table[id := Row(id, Key(ids, p), None, None)])
  {
    forall k | 0 <= k < |ids|
      ensures Key(ids + [id], parents[k]) == Key(ids, parents[k]) && ids[k] != id
    {
      assert ids[k] in ids;
    }
  }

  /** All that the import has built so far. */
  datatype Tree = Tree(
    ids: seq<string>, effs: seq<nat>, parents: seq<Option<nat>>,
    order: map<Option<string>, seq<string>>, table: map<string, Row>)

  ghost predicate TreeOk(t: Tree) {
    && Distinct(t.ids) && |t.ids| == |t.effs| && Forest(t.effs, t.parents)
    && OrderOk(t.ids, t.parents, t.order) && TableOk(t.ids, t.parents, t.table)
  }

  lemma {:induction false} ParentsAreEarlier(effs: seq<nat>, parents: seq<Option<nat>>)
    requires Forest(effs, parents)
    ensures forall k :: 0 <= k < |parents| && parents[k].Some? ==> parents[k].value < k
  {
    forall k | 0 <= k < |parents| && parents[k].Some?
      ensures parents[k].value < k
    {
      assert ParentFits(effs, parents[k], k);
    }
  }

  /** The tree with one more note under the end of the spine. */
  ghost function Inserted(t: Tree, id: string, spine: seq<nat>): Tree
    requires |t.ids| == |t.effs| && SpineOk(t.effs, spine)
  {
    var p := if spine == [] then None else Some(spine[|spine| - 1]);
    Tree(t.ids + [id], t.effs + [|spine|], t.parents + [p],
         AppendChild(t.order, Key(t.ids, p), id), t.table[id := Row(id, Key(t.ids, p), None, None)])
  }

  lemma {:induction false} InsertKeeps(t: Tree, id: string, spine: seq<nat>)
    requires TreeOk(t) && SpineOk(t.effs, spine) && id !in t.ids
    ensures TreeOk(Inserted(t, id, spine)) && SpineOk(t.effs + [|spine|], spine + [|t.ids|])
  {
    var p := if spine == [] then None else Some(spine[|spine| - 1]);
    ParentsAreEarlier(t.effs, t.parents);
    OrderAppend(t.ids, t.parents, t.order, id, p);
    ForestAppend(t.effs, t.parents, spine);
    TableAppend(t.ids, t.parents, t.table, id, p);
  }

  class Importer {
    var ids: seq<string>
    var table: map<string, Row>
    var orderMap: map<Option<string>, seq<string>>
    ghost var effs: seq<nat>
    ghost var parents: seq<Option<nat>>

    ghost function Built(): Tree
      reads this
    {
      Tree(ids, effs, parents, orderMap, table)
    }

    ghost predicate Valid()
      reads this
    {
      TreeOk(Built())
    }

    constructor ()
      ensures Valid() && Built() == Tree([], [], [], map[], map[])
    {
      ids, table, orderMap := [], map[], map[];
      effs, parents := [], [];
    }

    /** insert_note and order_map.setdefault(parent_id, []).append(note_id) */
    method InsertNote(id: string, parent: Option<string>, ghost spine: seq<nat>)
      requires |ids| == |effs| && id !in ids && SpineOk(effs, spine)
      requires parent == if spine == [] then None else Some(ids[spine[|spine| - 1]])
      requires Valid()
      modifies this
      ensures Valid() && Built() == Inserted(old(Built()), id, spine)
      ensures SpineOk(effs, spine + [|old(ids)|])
    {
      hide TreeOk;
      InsertKeeps(Built(), id, spine);
      ghost var t := Inserted(Built(), id, spine);
      effs, parents := effs + [|spine|], parents + [if spine == [] then None else Some(spine[|spine| - 1])];
      table := table[id := Row(id, parent, None, None)];
      var siblings := if parent in orderMap then orderMap[parent] else [];
      orderMap := orderMap[parent := siblings + [id]];
      ids := ids + [id];
      assert Built() == t;
    }

    /** Keep row `i` as a note at the end of the spine. */
    method KeepRow(subs: seq<Sub>, i: nat, id: string, parent: Option<string>, ghost spine: seq<nat>,
          ghost before: Tree)
      requires AcceptedTo(subs, i + 1) && !subs[i].rule && |before.effs| + Rank(subs, i) == |ids| == |parents|
      requires |ids| == |effs| && id !in ids && SpineOk(effs, spine)
      requires |spine| == KeptDepth(subs, i)
      requires NearestKept(subs, i) == None ==> spine == []
      requires NearestKept(subs, i).Some? ==>
        spine != [] && spine[|spine| - 1] == |before.effs| + Rank(subs, NearestKept(subs, i).value)
      requires parent == if spine == [] then None else Some(ids[spine[|spine| - 1]])
      requires RowsPlaced(subs, i, before.effs, before.parents, effs, parents)
      requires Valid()
      modifies this
      ensures ids == old(ids) + [id] && |effs| == |ids| == |parents|
      ensures SpineOk(effs, spine + [|old(ids)|])
      ensures RowsPlaced(subs, i + 1, before.effs, before.parents, effs, parents)
      ensures Valid()
    {
      hide TreeOk, RowsPlaced, SpineOk;
      PlaceNext(subs, i, before, effs, parents, spine);
      InsertNote(id, parent, spine);
    }

    /** Everything known after the first `i` rows of an item. */
    ghost predicate Read(
      subs: seq<Sub>, i: nat, before: Tree, stack: seq<string>, skipped: seq<int>, spine: seq<nat>)
      requires i <= |subs| && (i > 0 ==> AcceptedTo(subs, i))
      reads this
    {
      && |ids| == |effs| == |parents| == |before.effs| + Rank(subs, i)
      && skipped == (if i > 0 then RuleDepths(subs, Path(subs, i - 1)) else [])
      && SpineFits(subs, i, |before.effs|, spine) && SpineOk(effs, spine) && StackOk(ids, spine, stack)
      && RowsPlaced(subs, i, before.effs, before.parents, effs, parents)
    }

    /** One row whose indent has passed the checks. */
    method ImportRow(subs: seq<Sub>, i: nat, id: string, stack0: seq<string>, skipped0: seq<int>,
                     ghost spine0: seq<nat>, ghost before: Tree)
      returns (problem: Option<ImportError>, stack: seq<string>, skipped: seq<int>, ghost spine: seq<nat>)
      requires AcceptedTo(subs, i + 1) && id !in ids && Read(subs, i, before, stack0, skipped0, spine0) && Valid()
      modifies this
      ensures problem.None?
      ensures ids == old(ids) + (if subs[i].rule then [] else [id])
      ensures Read(subs, i + 1, before, stack, skipped, spine) && Valid()
    {
      hide TreeOk, StackOk, RowsPlaced, SpineOk, SpineFits, KeptOn, RuleDepths, Path, KeptDepth, NearestKept, Ancestors;
      var indent := subs[i].indent;
      RowAbove(subs, i);
      skipped := PopSkipped(skipped0, indent, RuleDepths(subs, Ancestors(subs, i)));

      var effective := indent - |skipped|;
      KeptAbove(subs, i);
      if effective < 0 { return Some(Underflow), stack0, skipped, spine0; }
      SpineCut(subs, i, |before.effs|, effs, spine0);
      StackSize(ids, spine0, stack0);
      StackCut(ids, spine0, stack0, KeptDepth(subs, i));
      stack, spine := PopStack(stack0, effective, spine0);
      if |stack| != effective { return Some(StackMismatch), stack, skipped, spine; }

      var parentId: Option<string> := None;
      if effective > 0 {
        parentId := Some(stack[|stack| - 1]);
      }
      if subs[i].rule {
        PlaceNothing(subs, i, before.effs, before.parents, effs, parents);
        skipped := skipped + [indent];
      } else {
        StackPush(ids, spine, stack, id);
        KeepRow(subs, i, id, parentId, spine, before);
        spine := spine + [|old(ids)|];
        stack := stack + [id];
      }
      problem := None;
    }

    /** One item.  `draws` are the identifiers uuid4 will give, never repeating. */
    method ImportItem(subs: seq<Sub>, draws: seq<string>) returns (r: Result<nat, ImportError>)
      requires |ids| == |effs| == |parents| && |draws| == |subs| && Distinct(ids + draws) && Valid()
      modifies this
      ensures r.Ok? <==> Accepted(subs)
      ensures r.Err? ==> !r.error.Underflow? && !r.error.StackMismatch? && !r.error.RootCount?
      ensures r.Ok? ==> Valid() && r.value == Rank(subs, |subs|) && ids == old(ids) + draws[..r.value]
      ensures r.Ok? ==> RowsPlaced(subs, |subs|, old(effs), old(parents), effs, parents)
    {
      hide TreeOk, Distinct, StackOk, RowsPlaced, SpineOk, SpineFits, KeptOn, RuleDepths, Path, KeptDepth, NearestKept;
      NothingPlaced(subs, ids, effs, parents);
      var stack: seq<string> := [];
      var skipped: seq<int> := [];
      var previous: Option<int> := None;
      var rootCount, count := 0, 0;
      ghost var before := Built();
      ghost var spine: seq<nat> := [];
      if |subs| == 0 { return Err(NoSubitems); }
      for i := 0 to |subs|
        invariant i > 0 ==> AcceptedTo(subs, i)
        invariant count == Rank(subs, i) && ids == old(ids) + draws[..count]
        invariant rootCount == (if i > 0 then 1 else 0)
        invariant previous == (if i > 0 then Some(subs[i - 1].indent) else None)
        invariant Read(subs, i, before, stack, skipped, spine) && Valid()
      {
        var indent := subs[i].indent;
        var problem := CheckIndent(subs, i, previous);
        if problem.Some? { return Err(problem.value); }
        assert i > 0 ==> StepOk(subs, i);
        if indent == 0 { rootCount := rootCount + 1; }

        FreshDraw(old(ids), draws, count);
        problem, stack, skipped, spine := ImportRow(subs, i, draws[count], stack, skipped, spine, before);
        assert problem.None?;
        if !subs[i].rule { count := count + 1; }
        previous := Some(indent);
      }
      if rootCount != 1 { return Err(RootCount); }
      return Ok(count);
    }

    /** Write the sibling links of every children list. */
    method ApplyOrder()
      requires Valid()
      modifies this`table
      ensures Valid()
      ensures forall key :: key in orderMap ==> Linked(table, orderMap[key])
    {
      hide TreeOk, TableOk, Linked, Relinked, Distinct;
      OrderIsPartition(Built());
      TableIsOk(Built());
      ghost var built := Built();
      var keys := orderMap.Keys;
      while keys != {}
        invariant keys <= orderMap.Keys && table.Keys == old(table).Keys
        invariant TableOk(ids, parents, table)
        invariant forall key :: key in orderMap && key !in keys ==> Linked(table, orderMap[key])
      {
        var key :| key in keys;
        ghost var before := table;
        assert forall id :: id in orderMap[key] ==> id in old(table).Keys;
        LinkGroup(orderMap[key]);
        LinksKeepParents(ids, parents, before, table, orderMap[key]);
        forall other | other in orderMap && other !in keys
          ensures Linked(table, orderMap[other])
        {
          LinksElsewhere(before, table, orderMap[key], orderMap[other]);
        }
        keys := keys - {key};
      }
      TableReplaced(built, table);
      assert Built() == built.(table := table);
    }

    method LinkGroup(ordered: seq<string>)
      requires Distinct(ordered) && forall id :: id in ordered ==> id in table
      modifies this`table
      ensures table.Keys == old(table).Keys
      ensures Linked(table, ordered) && Relinked(old(table), table, ordered)
    {
      for i := 0 to |ordered|
        invariant Relinked(old(table), table, ordered)
        invariant forall x :: 0 <= x < i ==> LinkedAt(table, ordered, x)
      {
        var prevId := if i > 0 then Some(ordered[i - 1]) else None;
        var nextId := if i + 1 < |ordered| then Some(ordered[i + 1]) else None;
        assert ordered[i] in ordered;
        LinkNext(table, ordered, i);
        table := table[ordered[i] := table[ordered[i]].(prev := prevId, next := nextId)];
      }
    }
  }

  /** Row `x` of a children list points to its neighbours. */
  ghost predicate LinkedAt(table: map<string, Row>, ordered: seq<string>, x: nat)
    requires x < |ordered|
  {
    && ordered[x] in table
    && table[ordered[x]].prev == (if x > 0 then Some(ordered[x - 1]) else None)
    && table[ordered[x]].next == (if x + 1 < |ordered| then Some(ordered[x + 1]) else None)
  }

  ghost predicate Linked(table: map<string, Row>, ordered: seq<string>) {
    forall x :: 0 <= x < |ordered| ==> LinkedAt(table, ordered, x)
  }

  /** Only the links of the listed rows have changed. */
  ghost predicate Relinked(before: map<string, Row>, after: map<string, Row>, ordered: seq<string>) {
    && after.Keys == before.Keys
    && (forall id :: id in before ==> after[id].id == before[id].id && after[id].parent == before[id].parent)
    && (forall id :: id in before && id !in ordered ==> after[id] == before[id])
  }

  lemma {:induction false} LinksKeepParents(
    ids: seq<string>, parents: seq<Option<nat>>, before: map<string, Row>, after: map<string, Row>,
        ordered: seq<string>)
    requires TableOk(ids, parents, before) && Relinked(before, after, ordered)
    ensures TableOk(ids, parents, after)
  {
    forall id
      ensures id in after <==> id in ids
    {
      assert id in after.Keys <==> id in before.Keys;
    }
    forall k | 0 <= k < |ids| && (parents[k].Some? ==> parents[k].value < |ids|)
      ensures after[ids[k]].id == ids[k] && after[ids[k]].parent == Key(ids, parents[k])
    {
      assert ids[k] in before;
    }
  }

  lemma {:induction false} LinksElsewhere(
    before: map<string, Row>, after: map<string, Row>, ordered: seq<string>, other: seq<string>)
    requires Relinked(before, after, ordered) && Linked(before, other)
    requires forall id :: id in other ==> id !in ordered
    ensures Linked(after, other)
  {
    forall x | 0 <= x < |other|
      ensures LinkedAt(after, other, x)
    {
      assert LinkedAt(before, other, x);
      assert other[x] in other;
    }
  }

  /** Every children list is free of repeats, lists known notes, and shares none with another list. */
  lemma {:induction false} OrderIsPartition(t: Tree)
    requires TreeOk(t)
    ensures forall key :: key in t.order ==> Distinct(t.order[key]) && forall id :: id in t.order[key] ==> id in t.table
    ensures forall key, other :: key in t.order && other in t.order && key != other ==>
      forall id :: id in t.order[other] ==> id !in t.order[key]
  {
    forall key | key in t.order
      ensures Distinct(t.order[key]) && forall id :: id in t.order[key] ==> id in t.table
    {
      var p := KeyPosition(t, key);
    }
    forall key, other, id | key in t.order && other in t.order && key != other && id in t.order[other]
      ensures id !in t.order[key]
    {
      var p := KeyPosition(t, key);
      var q := KeyPosition(t, other);
    }
  }

  lemma {:induction false} TableIsOk(t: Tree)
    requires TreeOk(t)
    ensures TableOk(t.ids, t.parents, t.table)
  {
  }

  lemma {:induction false} TableReplaced(t: Tree, table: map<string, Row>)
    requires TreeOk(t) && TableOk(t.ids, t.parents, table)
    ensures TreeOk(t.(table := table))
  {
  }

  lemma {:induction false} LinkNext(table: map<string, Row>, ordered: seq<string>, i: nat)
    requires Distinct(ordered) && i < |ordered| && ordered[i] in table
    requires forall x :: 0 <= x < i ==> LinkedAt(table, ordered, x)
    ensures var prevId := if i > 0 then Some(ordered[i - 1]) else None;
            var nextId := if i + 1 < |ordered| then Some(ordered[i + 1]) else None;
            var table' := table[ordered[i] := table[ordered[i]].(prev := prevId, next := nextId)];
            forall x :: 0 <= x < i + 1 ==> LinkedAt(table', ordered, x)
  {
    var prevId := if i > 0 then Some(ordered[i - 1]) else None;
    var nextId := if i + 1 < |ordered| then Some(ordered[i + 1]) else None;
    var table' := table[ordered[i] := table[ordered[i]].(prev := prevId, next := nextId)];
    forall x | 0 <= x < i + 1
      ensures LinkedAt(table', ordered, x)
    {
      assert x < i ==> LinkedAt(table, ordered, x) && ordered[x] != ordered[i];
    }
  }

  lemma {:induction false} NamesDistinct(ids: seq<string>, ks: seq<nat>)
    requires Distinct(ids) && forall i :: 0 <= i < |ks| ==> ks[i] < |ids|
    requires forall i, j :: 0 <= i < j < |ks| ==> ks[i] < ks[j]
    ensures Distinct(Names(ids, ks))
  {
    forall x, y | 0 <= x < y < |ks|
      ensures Names(ids, ks)[x] != Names(ids, ks)[y]
    {
      assert ids[ks[x]] != ids[ks[y]];
    }
  }

  lemma {:induction false} NamesKnown(t: Tree, p: Option<nat>, id: string)
    requires TreeOk(t) && (p.Some? ==> p.value < |t.ids|)
    requires id in Names(t.ids, Kids(t.parents, p, 0, |t.parents|))
    ensures id in t.table && t.table[id].parent == Key(t.ids, p)
  {
    KidsAre(t.parents, p, 0, |t.parents|);
    var ks := Kids(t.parents, p, 0, |t.parents|);
    var x :| 0 <= x < |ks| && Names(t.ids, ks)[x] == id;
    assert t.ids[ks[x]] == id && t.parents[ks[x]] == p;
    assert t.table[t.ids[ks[x]]].parent == Key(t.ids, t.parents[ks[x]]);
  }

  lemma {:induction false} KeyKnown(t: Tree, key: Option<string>) returns (p: Option<nat>)
    requires TreeOk(t) && key in t.order
    ensures p.Some? ==> p.value < |t.ids|
    ensures key == Key(t.ids, p) && t.order[key] == Names(t.ids, Kids(t.parents, p, 0, |t.parents|))
  {
    if key.None? {
      p := None;
    } else {
      var i :| 0 <= i < |t.ids| && t.ids[i] == key.value;
      p := Some(i);
    }
    assert OrderEntryOk(t.ids, t.parents, t.order, p);
  }

  /** The position behind a key of the children lists, and what its list holds. */
  lemma {:induction false} KeyPosition(t: Tree, key: Option<string>) returns (p: Option<nat>)
    requires TreeOk(t) && key in t.order
    ensures p.Some? ==> p.value < |t.ids|
    ensures key == Key(t.ids, p) && t.order[key] == Names(t.ids, Kids(t.parents, p, 0, |t.parents|))
    ensures Distinct(t.order[key])
    ensures forall id :: id in t.order[key] ==> id in t.table && t.table[id].parent == key
  {
    p := KeyKnown(t, key);
    KidsAre(t.parents, p, 0, |t.parents|);
    NamesDistinct(t.ids, Kids(t.parents, p, 0, |t.parents|));
    forall id | id in t.order[key]
      ensures id in t.table && t.table[id].parent == key
    {
      NamesKnown(t, p, id);
    }
  }

  lemma {:induction false} NothingPlaced(subs: seq<Sub>, ids: seq<string>, effs: seq<nat>, parents: seq<Option<nat>>)
    ensures StackOk(ids, [], []) && SpineOk(effs, []) && SpineFits(subs, 0, |ids|, [])
    ensures RowsPlaced(subs, 0, effs, parents, effs, parents)
  {
  }

  lemma {:induction false} PlaceNothing(
    subs: seq<Sub>, i: nat, effs0: seq<nat>, parents0: seq<Option<nat>>, effs: seq<nat>, parents: seq<Option<nat>>)
    requires AcceptedTo(subs, i + 1) && subs[i].rule && RowsPlaced(subs, i, effs0, parents0, effs, parents)
    ensures RowsPlaced(subs, i + 1, effs0, parents0, effs, parents)
  {
  }

  lemma {:induction false} RowStaysPlaced(subs: seq<Sub>, j: nat, base: nat, effs: seq<nat>, parents: seq<Option<nat>>,
        e: nat, p: Option<nat>)
    requires AcceptedTo(subs, j + 1) && RowPlaced(subs, j, base, effs, parents)
    ensures RowPlaced(subs, j, base, effs + [e], parents + [p])
  {
  }

  lemma {:induction false} RowNowPlaced(subs: seq<Sub>, i: nat, base: nat, effs: seq<nat>, parents: seq<Option<nat>>,
        spine: seq<nat>)
    requires AcceptedTo(subs, i + 1) && |effs| == |parents| == base + Rank(subs, i)
    requires |spine| == KeptDepth(subs, i)
    requires NearestKept(subs, i) == None ==> spine == []
    requires NearestKept(subs, i).Some? ==>
      spine != [] && spine[|spine| - 1] == base + Rank(subs, NearestKept(subs, i).value)
    ensures RowPlaced(subs, i, base, effs + [|spine|],
        parents + [if spine == [] then None else Some(spine[|spine| - 1])])
  {
  }

  lemma {:induction false} PlaceNext(subs: seq<Sub>, i: nat, before: Tree, effs: seq<nat>, parents: seq<Option<nat>>,
        spine: seq<nat>)
    requires AcceptedTo(subs, i + 1) && !subs[i].rule && |effs| == |parents| == |before.effs| + Rank(subs, i)
    requires RowsPlaced(subs, i, before.effs, before.parents, effs, parents)
    requires |spine| == KeptDepth(subs, i)
    requires NearestKept(subs, i) == None ==> spine == []
    requires NearestKept(subs, i).Some? ==>
      spine != [] && spine[|spine| - 1] == |before.effs| + Rank(subs, NearestKept(subs, i).value)
    ensures RowsPlaced(subs, i + 1, before.effs, before.parents,
                       effs + [|spine|], parents + [if spine == [] then None else Some(spine[|spine| - 1])])
  {
    hide RowPlaced;
    var p := if spine == [] then None else Some(spine[|spine| - 1]);
    forall j | 0 <= j < i && !subs[j].rule
      ensures RowPlaced(subs, j, |before.effs|, effs + [|spine|], parents + [p])
    {
      RowStaysPlaced(subs, j, |before.effs|, effs, parents, |spine|, p);
    }
    RowNowPlaced(subs, i, |before.effs|, effs, parents, spine);
  }

  /** The stack holds the identifiers of the notes on the spine. */
  ghost predicate StackOk(ids: seq<string>, spine: seq<nat>, stack: seq<string>) {
    |stack| == |spine| && forall d :: 0 <= d < |stack| ==> spine[d] < |ids| && stack[d] == ids[spine[d]]
  }

  lemma {:induction false} StackSize(ids: seq<string>, spine: seq<nat>, stack: seq<string>)
    requires StackOk(ids, spine, stack)
    ensures |stack| == |spine|
  {
  }

  lemma {:induction false} StackCut(ids: seq<string>, spine: seq<nat>, stack: seq<string>, n: nat)
    requires StackOk(ids, spine, stack) && n <= |stack|
    ensures StackOk(ids, spine[..n], stack[..n])
    ensures n > 0 ==> spine[n - 1] < |ids| && stack[n - 1] == ids[spine[n - 1]]
  {
  }

  lemma {:induction false} StackPush(ids: seq<string>, spine: seq<nat>, stack: seq<string>, id: string)
    requires StackOk(ids, spine, stack)
    ensures StackOk(ids + [id], spine + [|ids|], stack + [id])
  {
  }

  /** Cutting the spine at the effective indent leaves the kept rows above row `i`. */
  lemma {:induction false} SpineCut(subs: seq<Sub>, i: nat, base: nat, effs: seq<nat>, spine: seq<nat>)
    requires AcceptedTo(subs, i + 1) && SpineFits(subs, i, base, spine) && SpineOk(effs, spine)
    ensures KeptDepth(subs, i) <= |spine|
    ensures var cut := spine[..KeptDepth(subs, i)];
            && SpineOk(effs, cut)
            && (NearestKept(subs, i) == None ==> cut == [])
            && (NearestKept(subs, i).Some? ==>
                 cut != [] && cut[|cut| - 1] == base + Rank(subs, NearestKept(subs, i).value))
            && SpineFits(subs, i + 1, base, if subs[i].rule then cut else cut + [base + Rank(subs, i)])
  {
    hide KeptOn, NearestKept, KeptDepth, RuleDepths, Rank, Path, SpineOk;
    RowAbove(subs, i);
    KeptAbove(subs, i);
    SpinePrefix(effs, spine, KeptDepth(subs, i));
  }

  lemma {:induction false} SpinePrefix(effs: seq<nat>, spine: seq<nat>, n: nat)
    requires SpineOk(effs, spine) && n <= |spine|
    ensures SpineOk(effs, spine[..n])
  {
  }

  /** The checks made on one indent, in order. */
  method CheckIndent(subs: seq<Sub>, i: nat, previous: Option<int>) returns (problem: Option<ImportError>)
    requires i < |subs| && (i > 0 ==> AcceptedTo(subs, i))
    requires previous == (if i > 0 then Some(subs[i - 1].indent) else None)
    ensures problem.None? <==> AcceptedTo(subs, i + 1)
    ensures problem.Some? ==> problem.value in {NegativeIndent, FirstNotRoot, SecondRoot, IndentJump}
  {
    assert AcceptedTo(subs, i + 1) && i > 0 ==> StepOk(subs, i);
    var indent := subs[i].indent;
    if indent < 0 { return Some(NegativeIndent); }
    if i == 0 && indent != 0 { return Some(FirstNotRoot); }
    if indent == 0 && i != 0 { return Some(SecondRoot); }
    if previous.Some? && indent > previous.value + 1 { return Some(IndentJump); }
    assert AcceptedTo(subs, i + 1);
    return None;
  }

  /** Leave the skipped rows whose children can still follow: those less deep than the next row. */
  method PopSkipped(skipped: seq<int>, indent: int, ghost kept: seq<int>) returns (left: seq<int>)
    requires kept <= skipped && (forall k :: 0 <= k < |kept| ==> kept[k] < indent)
    requires forall k :: |kept| <= k < |skipped| ==> skipped[k] >= indent
    ensures left == kept
  {
    left := skipped;
    while left != [] && indent <= left[|left| - 1]
      invariant kept <= left <= skipped
    {
      left := left[..|left| - 1];
    }
  }

  method PopStack(stack: seq<string>, effective: int, ghost spine: seq<nat>)
    returns (left: seq<string>, ghost leftSpine: seq<nat>)
    requires |spine| == |stack| && effective >= 0
    ensures effective <= |stack| ==> left == stack[..effective]
    ensures effective > |stack| ==> left == stack
    ensures effective <= |stack| ==> leftSpine == spine[..effective]
    ensures effective > |stack| ==> leftSpine == spine
  {
    left, leftSpine := stack, spine;
    while |left| > effective
      invariant |left| == |leftSpine| && left <= stack && leftSpine <= spine
      invariant (left == stack && leftSpine == spine) || effective <= |left|
    {
      left, leftSpine := left[..|left| - 1], leftSpine[..|leftSpine| - 1];
    }
  }

  /** The spine holds the positions of the kept rows on the path to the last row read. */
  ghost predicate SpineFits(subs: seq<Sub>, i: nat, base: nat, spine: seq<nat>)
    requires i > 0 ==> AcceptedTo(subs, i)
  {
    if i == 0 then spine == []
    else
      var kept := KeptOn(subs, Path(subs, i - 1));
      |spine| == |kept| && forall d :: 0 <= d < |kept| ==> kept[d] <= |subs| && spine[d] == base + Rank(subs, kept[d])
  }

  /** Where the import must put the kept row `j`: under its nearest kept ancestor. */
  ghost predicate RowPlaced(subs: seq<Sub>, j: nat, base: nat, effs: seq<nat>, parents: seq<Option<nat>>)
    requires AcceptedTo(subs, j + 1)
  {
    var k := base + Rank(subs, j);
    && k < |effs| && k < |parents|
    && effs[k] == KeptDepth(subs, j)
    && parents[k] == match NearestKept(subs, j)
                     case None => None
                     case Some(a) => Some(base + Rank(subs, a))
  }

  /** The rows read so far are placed, and what was there before is untouched. */
  ghost predicate RowsPlaced(
    subs: seq<Sub>, n: nat, effs0: seq<nat>, parents0: seq<Option<nat>>, effs: seq<nat>, parents: seq<Option<nat>>)
    requires n <= |subs| && (n > 0 ==> AcceptedTo(subs, n))
  {
    && effs0 <= effs && parents0 <= parents
    && forall j :: 0 <= j < n && !subs[j].rule ==> RowPlaced(subs, j, |effs0|, effs, parents)
  }

  lemma {:induction false} FreshDraw(ids: seq<string>, draws: seq<string>, n: nat)
    requires Distinct(ids + draws) && n < |draws|
    ensures draws[n] !in ids + draws[..n]
  {
    var all := ids + draws;
    forall k | 0 <= k < |ids| + n
      ensures (ids + draws[..n])[k] != draws[n]
    {
      assert all[k] != all[|ids| + n];
    }
  }

  /** The rows above row `i` are a prefix of the last path, and row `i` extends them. */
  lemma {:induction false} RowAbove(subs: seq<Sub>, i: nat)
    requires AcceptedTo(subs, i + 1)
    ensures var above := Ancestors(subs, i);
            && (i == 0 ==> above == [])
            && (i > 0 ==>
              var last := Path(subs, i - 1);
              && KeptOn(subs, above) <= KeptOn(subs, last) && RuleDepths(subs, above) <= RuleDepths(subs, last)
              && forall k :: |RuleDepths(subs, above)| <= k < |RuleDepths(subs, last)| ==>
                RuleDepths(subs, last)[k] >= subs[i].indent)
            && KeptOn(subs, Path(subs, i)) == KeptOn(subs, above) + (if subs[i].rule then [] else [i])
            && RuleDepths(subs, Path(subs, i))
                 == RuleDepths(subs, above) + (if subs[i].rule then [subs[i].indent] else [])
  {
    assert i > 0 ==> StepOk(subs, i);
    assert Path(subs, i)[..|Path(subs, i)| - 1] == Ancestors(subs, i);
    if i > 0 {
      var last := Path(subs, i - 1);
      assert Ancestors(subs, i) == last[..subs[i].indent];
      FilterPrefix(subs, last, subs[i].indent);
    }
  }
}

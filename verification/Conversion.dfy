/** A whole conversion, from the outlines of the legacy file to the tree that is printed back. */
module Conversion {
  import opened Wrappers
  import opened Outline
  import opened ImportTree
  import opened LinkAnalysis
  import opened TreeSnapshot
  import opened TreePrinter

  /** The number of kept ancestors of each kept row among the first `n`. */
  ghost function KeptDepths(subs: seq<Sub>, n: nat): (r: seq<nat>)
    requires n <= |subs| && (n > 0 ==> AcceptedTo(subs, n))
    ensures |r| == Rank(subs, n)
  {
    if n == 0 then []
    else (if n > 1 then KeptDepths(subs, n - 1) else []) + (if subs[n - 1].rule then [] else [KeptDepth(subs, n - 1)])
  }

  /** The same for all items, one after the other. */
  ghost function Depths(items: seq<seq<Sub>>): seq<nat>
    requires forall i :: 0 <= i < |items| ==> Accepted(items[i])
  {
    if items == [] then []
    else
      var last := items[|items| - 1];
      assert Accepted(last);
      Depths(items[..|items| - 1]) + KeptDepths(last, |last|)
  }

  lemma {:induction false} KeptDepthAt(subs: seq<Sub>, n: nat, j: nat)
    requires j < n <= |subs| && AcceptedTo(subs, n) && !subs[j].rule
    ensures Rank(subs, j) < Rank(subs, n) && KeptDepths(subs, n)[Rank(subs, j)] == KeptDepth(subs, j)
  {
    RankGrows(subs, j, n);
    if j < n - 1 {
      KeptDepthAt(subs, n - 1, j);
    }
  }

  /** The kept row with a given rank. */
  lemma {:induction false} RankIsReached(subs: seq<Sub>, n: nat, x: nat) returns (j: nat)
    requires n <= |subs| && x < Rank(subs, n)
    ensures j < n && !subs[j].rule && Rank(subs, j) == x
  {
    if x < Rank(subs, n - 1) {
      j := RankIsReached(subs, n - 1, x);
    } else {
      j := n - 1;
    }
  }

  /** Placing every kept row at its depth appends the depths of the item. */
  lemma {:induction false} PlacedDepths(subs: seq<Sub>, effs0: seq<nat>, parents0: seq<Option<nat>>, effs: seq<nat>,
        parents: seq<Option<nat>>)
    requires Accepted(subs) && RowsPlaced(subs, |subs|, effs0, parents0, effs, parents)
    requires |effs| == |effs0| + Rank(subs, |subs|)
    ensures effs == effs0 + KeptDepths(subs, |subs|)
  {
    forall x | 0 <= x < Rank(subs, |subs|)
      ensures effs[|effs0| + x] == KeptDepths(subs, |subs|)[x]
    {
      var j := RankIsReached(subs, |subs|, x);
      assert RowPlaced(subs, j, |effs0|, effs, parents);
      KeptDepthAt(subs, |subs|, j);
    }
  }

  /** All rows of the table, in whatever order the database returns them. */
  method FetchNotes(table: map<string, Row>) returns (notes: seq<Row>)
    requires forall id :: id in table ==> table[id].id == id
    ensures DistinctIds(notes)
    ensures forall row :: row in notes ==> row.id in table && table[row.id] == row
    ensures forall id :: id in table ==> HasId(notes, id)
  {
    notes := [];
    var left := table.Keys;
    while left != {}
      invariant left <= table.Keys && DistinctIds(notes)
      invariant forall row :: row in notes ==> row.id in table && table[row.id] == row && row.id !in left
      invariant forall id :: id in table && id !in left ==> HasId(notes, id)
    {
      var id :| id in left;
      var longer := notes + [table[id]];
      FetchedOne(notes, table[id]);
      forall other | other in table && other !in left - {id}
        ensures HasId(longer, other)
      {
        StillHas(notes, table[id], other);
      }
      notes := longer;
      left := left - {id};
    }
  }

  lemma {:induction false} FetchedOne(notes: seq<Row>, row: Row)
    requires DistinctIds(notes) && forall other :: other in notes ==> other.id != row.id
    ensures DistinctIds(notes + [row])
  {
    assert forall i :: 0 <= i < |notes| ==> notes[i] in notes;
  }

  lemma {:induction false} StillHas(notes: seq<Row>, row: Row, id: string)
    ensures HasId(notes, id) || row.id == id ==> HasId(notes + [row], id)
  {
    if row.id == id {
      assert (notes + [row])[|notes|].id == id;
    } else if HasId(notes, id) {
      var i :| 0 <= i < |notes| && notes[i].id == id;
      assert (notes + [row])[i].id == id;
    }
  }

  lemma {:induction false} DrawsLeft(draws: seq<string>, used: nat, n: nat)
    requires Distinct(draws) && used + n <= |draws|
    ensures Distinct(draws[..used] + draws[used..used + n])
  {
    assert draws[..used] + draws[used..used + n] == draws[..used + n];
  }

  ghost function Rows(items: seq<seq<Sub>>): nat {
    if items == [] then 0 else Rows(items[..|items| - 1]) + |items[|items| - 1]|
  }

  /** Import every item in turn.  `draws` are the identifiers uuid4 will give, never repeating. */
  method ImportAll(items: seq<seq<Sub>>, draws: seq<string>) returns (importer: Importer, problem: Option<ImportError>)
    requires Distinct(draws) && |draws| >= Rows(items)
    ensures problem.None? <==> forall i :: 0 <= i < |items| ==> Accepted(items[i])
    ensures fresh(importer)
    ensures problem.None? ==> importer.Valid() && importer.effs == Depths(items)
    ensures problem.None? ==> importer.ids <= draws
  {
    hide TreeOk, Distinct, Accepted, Depths, Rows;
    importer := new Importer();
    NoItems();
    for i := 0 to |items|
      invariant fresh(importer) && importer.Valid()
      invariant forall j :: 0 <= j < i ==> Accepted(items[j])
      invariant |importer.ids| <= Rows(items[..i]) && importer.ids <= draws
      invariant importer.effs == Depths(items[..i])
    {
      TreeSizes(importer.Built());
      RowsGrow(items, i);
      DepthsGrow(items, i);
      var r := ImportOne(importer, items[i], draws);
      if r.Err? { return importer, Some(r.error); }
    }
    assert items[..|items|] == items;
    return importer, None;
  }

  lemma {:induction false} NoItems()
    ensures Depths([]) == [] && Rows([]) == 0
  {
  }

  lemma {:induction false} TreeSizes(t: Tree)
    requires TreeOk(t)
    ensures |t.ids| == |t.effs| == |t.parents|
  {
  }

  method ImportOne(importer: Importer, subs: seq<Sub>, draws: seq<string>) returns (r: Result<nat, ImportError>)
    requires importer.Valid() && Distinct(draws)
    requires |importer.ids| + |subs| <= |draws| && importer.ids <= draws
    modifies importer
    ensures r.Ok? <==> Accepted(subs)
    ensures r.Ok? ==> importer.Valid() && importer.effs == old(importer.effs) + KeptDepths(subs, |subs|)
    ensures r.Ok? ==> |importer.ids| <= |old(importer.ids)| + |subs| && importer.ids <= draws
  {
    hide TreeOk, Distinct, RowsPlaced;
    TreeSizes(importer.Built());
    var used := |importer.ids|;
    DrawsLeft(draws, used, |subs|);
    assert importer.ids == draws[..used];
    r := importer.ImportItem(subs, draws[used..used + |subs|]);
    if r.Ok? {
      TreeSizes(importer.Built());
      PlacedDepths(subs, old(importer.effs), old(importer.parents), importer.effs, importer.parents);
    }
  }

  lemma {:induction false} DepthsGrow(items: seq<seq<Sub>>, i: nat)
    requires i < |items| && forall j :: 0 <= j < i ==> Accepted(items[j])
    ensures Accepted(items[i]) ==> Depths(items[..i + 1]) == Depths(items[..i]) + KeptDepths(items[i], |items[i]|)
  {
    assert items[..i + 1][..i] == items[..i];
  }

  lemma {:induction false} RowsGrow(items: seq<seq<Sub>>, i: nat)
    requires i < |items|
    ensures Rows(items[..i + 1]) == Rows(items[..i]) + |items[i]| <= Rows(items)
    decreases |items|
  {
    assert items[..i + 1][..i] == items[..i];
    if i + 1 == |items| {
      assert items[..i + 1] == items;
    } else {
      var init := items[..|items| - 1];
      RowsGrow(init, i);
      assert init[..i] == items[..i] && init[..i + 1] == items[..i + 1];
    }
  }

  /** Importing, linking and printing gives back the kept rows, in input order, at their effective indents. */
  method ConvertThenInspect(items: seq<seq<Sub>>, draws: seq<string>)
    returns (r: Result<Result<seq<Line>, PrintError>, ImportError>)
    requires Distinct(draws) && |draws| >= Rows(items)
    ensures r.Ok? <==> forall i :: 0 <= i < |items| ==> Accepted(items[i])
    ensures r.Ok? && Depths(items) != [] ==>
      && r.value.Ok? && |r.value.value| == |Depths(items)| <= |draws|
      && forall k :: 0 <= k < |Depths(items)| ==> r.value.value[k] == Note(draws[k], Depths(items)[k])
  {
    hide TreeOk, Distinct, Accepted;
    var importer, problem := ImportAll(items, draws);
    if problem.Some? { return Err(problem.value); }
    importer.ApplyOrder();
    TableKeys(importer.Built());
    var notes := FetchNotes(importer.table);
    assert Imported(importer.Built(), notes);
    var printed := PrintSnapshot(notes, importer.Built());
    return Ok(printed);
  }

  lemma {:induction false} TableKeys(t: Tree)
    requires TreeOk(t)
    ensures |t.ids| == |t.effs| && forall id :: id in t.table ==> t.table[id].id == id
  {
    ParentsAreEarlier(t.effs, t.parents);
  }
}

/** Printing a note table as a tree: total on every table with unique ids, exact on an import. */
module TreePrinter {
  import opened Wrappers
  import opened ImportTree
  import opened Preorder
  import opened LinkAnalysis
  import opened TreeSnapshot

  datatype Line = Note(id: string, depth: nat) | Unordered(id: string, depth: nat) | CycleBack(id: string, depth: nat)

  datatype PrintError = NoRootGroup | NoSuchSibling

  ghost predicate Snapshot(notes: seq<Row>, grouped: map<Option<string>, seq<Row>>) {
    DistinctIds(notes) && Grouped(notes, grouped) && forall j :: 0 <= j < |notes| ==> Some(notes[j].id) in grouped
  }

  // ---------- the rows from the root down to the one being printed ----------

  ghost predicate HangsUnder(path: seq<Row>, x: nat)
    requires x < |path|
  {
    path[x].parent == if x == 0 then None else Some(path[x - 1].id)
  }

  ghost predicate PathTo(notes: seq<Row>, path: seq<Row>, key: Option<string>) {
    && DistinctIds(path)
    && (forall x :: 0 <= x < |path| ==> path[x] in notes)
    && (forall x :: 0 <= x < |path| ==> HangsUnder(path, x))
    && key == if path == [] then None else Some(path[|path| - 1].id)
  }

  lemma {:induction false} DifferentRows(notes: seq<Row>, a: Row, b: Row)
    requires DistinctIds(notes) && a in notes && b in notes && a.parent != b.parent
    ensures a.id != b.id
  {
    var i :| 0 <= i < |notes| && notes[i] == a;
    var j :| 0 <= j < |notes| && notes[j] == b;
  }

  /** A row has one parent, so going down from the root never meets a row twice. */
  lemma {:induction false} PathGrows(notes: seq<Row>, path: seq<Row>, key: Option<string>, row: Row)
    requires DistinctIds(notes) && PathTo(notes, path, key) && row in notes && row.parent == key
    ensures PathTo(notes, path + [row], Some(row.id)) && |path| < |notes|
  {
    forall x | 0 <= x < |path|
      ensures path[x].id != row.id
    {
      assert HangsUnder(path, x) && path[x] in notes;
      assert x > 0 ==> path[x - 1].id != path[|path| - 1].id;
      DifferentRows(notes, path[x], row);
    }
    var longer := path + [row];
    forall x | 0 <= x < |longer|
      ensures longer[x] in notes && HangsUnder(longer, x)
    {
      assert x < |path| ==> HangsUnder(path, x);
    }
    AtMostAll(notes, longer);
  }

  lemma {:induction false} GroupMember(notes: seq<Row>, grouped: map<Option<string>, seq<Row>>, key: Option<string>,
        row: Row)
    requires Snapshot(notes, grouped) && key in grouped && row in grouped[key]
    ensures row in notes && row.parent == key && Some(row.id) in grouped
  {
    assert Children(notes, key) == grouped[key];
    var j :| 0 <= j < |notes| && notes[j] == row;
  }

  // ---------- what is printed for an import ----------

  /** `key` names position `p` of the import `t` that `notes` enumerates. */
  ghost predicate Fits(t: Tree, notes: seq<Row>, p: Option<nat>, key: Option<string>) {
    Imported(t, notes) && Position(t, p) && key == Key(t.ids, p)
  }

  ghost function Labelled(ids: seq<string>, walk: seq<(nat, nat)>): (r: seq<Line>)
    ensures |r| == |walk|
  {
    seq(|walk|, i requires 0 <= i < |walk| => Note(if walk[i].0 < |ids| then ids[walk[i].0] else "", walk[i].1))
  }

  /** The siblings `ks` with everything below them, depth first. */
  ghost function Outlined(t: Tree, ks: seq<nat>, depth: nat): seq<Line>
    requires TreeOk(t) && Rising(ks, |t.ids|)
  {
    ParentsAreEarlier(t.effs, t.parents);
    Labelled(t.ids, Walk(t.parents, ks, depth))
  }

  lemma {:induction false} OutlinedFirst(t: Tree, ks: seq<nat>, depth: nat)
    requires TreeOk(t) && Rising(ks, |t.ids|) && ks != []
    ensures Outlined(t, ks, depth)
      == [Note(t.ids[ks[0]], depth)] + Outlined(t, Under(t, Some(ks[0])), depth + 1) + Outlined(t, ks[1..], depth)
  {
    hide TreeOk, Walk, Kids;
    TreeParents(t);
    WalkFirst(t.parents, ks, depth);
    assert Kids(t.parents, Some(ks[0]), 0, |t.parents|) == Under(t, Some(ks[0]));
  }

  lemma {:induction false} TreeParents(t: Tree)
    requires TreeOk(t)
    ensures |t.ids| == |t.parents| && EarlierParents(t.parents)
  {
    ParentsAreEarlier(t.effs, t.parents);
  }

  /** After the siblings in `order`: what has been printed and what is left make up the outline. */
  ghost predicate AtSibling(t: Tree, p: Option<nat>, order: seq<Row>, current: Row, lines: seq<Line>, depth: nat) {
    && TreeOk(t) && Position(t, p)
    && var ks := Under(t, p);
       && |order| < |ks| && current == RowAt(t, ks[|order|])
       && (forall x :: 0 <= x < |order| ==> order[x] == RowAt(t, ks[x]))
       && lines + Outlined(t, ks[|order|..], depth) == Outlined(t, ks, depth)
  }

  lemma {:induction false} FirstSibling(t: Tree, notes: seq<Row>, p: Option<nat>, key: Option<string>, head: Row,
        depth: nat)
    requires Fits(t, notes, p, key) && Heads(Children(notes, key)) != [] && head == Heads(Children(notes, key))[0]
    ensures AtSibling(t, p, [], head, [], depth)
  {
    hide TreeOk, Heads, Children, Under, Outlined, RowAt;
    UnderIsAll(t, notes, p);
    assert head in Heads(Children(notes, key));
    OneEnd(t, notes, p);
    var ks := Under(t, p);
    assert ks[0..] == ks;
  }

  lemma {:induction false} AnImportHasHeads(t: Tree, notes: seq<Row>, p: Option<nat>, key: Option<string>)
    requires Fits(t, notes, p, key)
    ensures Children(notes, key) != [] ==> Heads(Children(notes, key)) != []
    ensures Children(notes, key) == [] ==> forall depth :: Outlined(t, Under(t, p), depth) == []
  {
    hide TreeOk, Heads;
    UnderIsAll(t, notes, p);
    if Under(t, p) != [] {
      OneEnd(t, notes, p);
    }
  }

  /** Like AtSibling, once `current` and everything below it are printed. */
  ghost predicate PastSibling(t: Tree, p: Option<nat>, order: seq<Row>, current: Row, lines: seq<Line>, depth: nat) {
    && TreeOk(t) && Position(t, p)
    && var ks := Under(t, p);
       && |order| < |ks| && current == RowAt(t, ks[|order|])
       && (forall x :: 0 <= x < |order| ==> order[x] == RowAt(t, ks[x]))
       && lines + Outlined(t, ks[|order| + 1..], depth) == Outlined(t, ks, depth)
  }

  lemma {:induction false} SiblingPrinted(
    t: Tree, p: Option<nat>, order: seq<Row>, current: Row, lines: seq<Line>, below: seq<Line>, depth: nat)
    requires AtSibling(t, p, order, current, lines, depth)
    requires below == Outlined(t, Under(t, Some(Under(t, p)[|order|])), depth + 1)
    ensures PastSibling(t, p, order, current, lines + [Note(current.id, depth)] + below, depth)
  {
    hide Outlined, Under, TreeOk;
    var ks := Under(t, p);
    RowAtIs(t, ks[|order|]);
    OutlinedFirst(t, ks[|order|..], depth);
    assert ks[|order|..][1..] == ks[|order| + 1..];
  }

  /** Where the links lead from one sibling of an import. */
  lemma {:induction false} NextSibling(t: Tree, notes: seq<Row>, p: Option<nat>, x: nat)
    requires Imported(t, notes) && Position(t, p) && x < |Under(t, p)|
    ensures var ks := Under(t, p);
            && (RowAt(t, ks[x]).next.None? <==> x + 1 == |ks|)
            && (RowAt(t, ks[x]).next.Some? ==>
                  && RowAt(t, ks[x]).next == Some(RowAt(t, ks[x + 1]).id)
                  && RowAt(t, ks[x + 1]) in Children(notes, Key(t.ids, p))
                  && forall y :: 0 <= y <= x ==> RowAt(t, ks[y]).id != RowAt(t, ks[x + 1]).id)
  {
    hide TreeOk, Under, RowAt;
    var ks := Under(t, p);
    UnderIsLinked(t, p, x);
    if x + 1 < |ks| {
      UnderIsLinked(t, p, x + 1);
      UnderIsChild(t, notes, p, x + 1);
      UnderDistinct(t, p);
      var rows := RowsAt(t, ks);
      assert forall y :: 0 <= y <= x ==> rows[y].id != rows[x + 1].id;
    }
  }

  lemma {:induction false} LastSibling(
    t: Tree, notes: seq<Row>, p: Option<nat>, order: seq<Row>, current: Row, lines: seq<Line>, depth: nat)
    requires Imported(t, notes) && PastSibling(t, p, order, current, lines, depth) && current.next.None?
    ensures lines == Outlined(t, Under(t, p), depth)
  {
    hide TreeOk, Under;
    NextSibling(t, notes, p, |order|);
    var ks := Under(t, p);
    assert ks[|order| + 1..] == [];
    assert Outlined(t, [], depth) == [];
  }

  lemma {:induction false} NextPeer(
    t: Tree, notes: seq<Row>, p: Option<nat>, order: seq<Row>, current: Row, lines: seq<Line>, depth: nat)
    requires Imported(t, notes) && PastSibling(t, p, order, current, lines, depth) && current.next.Some?
    ensures !HasId(order + [current], current.next.value)
    ensures HasId(Children(notes, Key(t.ids, p)), current.next.value)
    ensures forall row :: row in Children(notes, Key(t.ids, p)) && row.id == current.next.value ==>
      AtSibling(t, p, order + [current], row, lines, depth)
  {
    hide TreeOk, Under, Outlined, RowAt, Children;
    NextSibling(t, notes, p, |order|);
    ChildrenDistinct(notes, Key(t.ids, p));
    var next := RowAt(t, Under(t, p)[|order| + 1]);
    var peers := Children(notes, Key(t.ids, p));
    var i :| 0 <= i < |peers| && peers[i] == next;
    forall row | row in peers && row.id == current.next.value
      ensures AtSibling(t, p, order + [current], row, lines, depth)
    {
      SameRow(peers, row, next);
    }
  }

  // ---------- printing ----------

  method FirstHead(children: seq<Row>) returns (head: Option<Row>)
    ensures head == if Heads(children) == [] then None else Some(Heads(children)[0])
  {
    var heads: seq<Row> := [];
    for i := 0 to |children|
      invariant heads == Heads(children[..i])
    {
      assert children[..i + 1][..i] == children[..i];
      if children[i].prev.None? { heads := heads + [children[i]]; }
    }
    assert children[..|children|] == children;
    head := if heads == [] then None else Some(heads[0]);
  }

  method FindRow(peers: seq<Row>, id: string) returns (row: Option<Row>)
    ensures row.Some? ==> row.value in peers && row.value.id == id
    ensures row.None? ==> forall peer :: peer in peers ==> peer.id != id
  {
    for i := 0 to |peers|
      invariant forall j :: 0 <= j < i ==> peers[j].id != id
    {
      if peers[i].id == id { return Some(peers[i]); }
    }
    return None;
  }

  /** `path` leads from the root to `parent`; it is what makes the recursion end. */
  method PrintTree(
    parent: Option<string>, grouped: map<Option<string>, seq<Row>>, depth: nat,
    ghost notes: seq<Row>, ghost path: seq<Row>, ghost t: Tree, ghost p: Option<nat>)
    returns (r: Result<seq<Line>, PrintError>)
    requires parent in grouped && Snapshot(notes, grouped) && PathTo(notes, path, parent)
    ensures Fits(t, notes, p, parent) ==> r == Ok(Outlined(t, Under(t, p), depth))
    ensures r.Err? ==> r.error == NoSuchSibling
    decreases |notes| - |path|, 2
  {
    hide Heads, Children, Fits, AtSibling, PathTo, Outlined, TreeOk, Under;
    var children := grouped[parent];
    assert Children(notes, parent) == children;
    if Fits(t, notes, p, parent) {
      AnImportHasHeads(t, notes, p, parent);
    }
    if children == [] { return Ok([]); }
    var head := FirstHead(children);
    if head.None? {
      r := PrintUnordered(parent, grouped, depth, notes, path);
    } else {
      if Fits(t, notes, p, parent) {
        FirstSibling(t, notes, p, parent, head.value, depth);
      }
      assert head.value in Heads(children);
      r := PrintSiblings(parent, grouped, head.value, depth, notes, path, t, p);
    }
  }

  method PrintUnordered(
    parent: Option<string>, grouped: map<Option<string>, seq<Row>>, depth: nat, ghost notes: seq<Row>,
        ghost path: seq<Row>)
    returns (r: Result<seq<Line>, PrintError>)
    requires parent in grouped && Snapshot(notes, grouped) && PathTo(notes, path, parent)
    ensures r.Err? ==> r.error == NoSuchSibling
    decreases |notes| - |path|, 1
  {
    var lines: seq<Line> := [];
    for i := 0 to |grouped[parent]| {
      var row := grouped[parent][i];
      lines := lines + [Unordered(row.id, depth)];
      GroupMember(notes, grouped, parent, row);
      PathGrows(notes, path, parent, row);
      var below := PrintTree(Some(row.id), grouped, depth + 1, notes, path + [row], Tree([], [], [], map[], map[]),
          None);
      if below.Err? { return below; }
      lines := lines + below.value;
    }
    return Ok(lines);
  }

  method PrintSiblings(
    parent: Option<string>, grouped: map<Option<string>, seq<Row>>, head: Row, depth: nat,
    ghost notes: seq<Row>, ghost path: seq<Row>, ghost t: Tree, ghost p: Option<nat>)
    returns (r: Result<seq<Line>, PrintError>)
    requires parent in grouped && head in grouped[parent] && Snapshot(notes, grouped) && PathTo(notes, path, parent)
    requires Fits(t, notes, p, parent) ==> AtSibling(t, p, [], head, [], depth)
    ensures Fits(t, notes, p, parent) ==> r == Ok(Outlined(t, Under(t, p), depth))
    ensures r.Err? ==> r.error == NoSuchSibling
    decreases |notes| - |path|, 1
  {
    hide Heads, Children, AtSibling, PastSibling, PathTo, Outlined, TreeOk, Under, Imported, Seen, DistinctIds;
    var peers := grouped[parent];
    assert Children(notes, parent) == peers;
    var lines: seq<Line> := [];
    var current := head;
    var visited: set<string> := {};
    ghost var order: seq<Row> := [];
    NothingSeen();
    while true
      invariant current in peers && current.id !in visited
      invariant Walked(peers, order) && Seen(visited, order)
      invariant Fits(t, notes, p, parent) ==> AtSibling(t, p, order, current, lines, depth)
      decreases |peers| - |order|
    {
      r := PrintOne(parent, grouped, current, lines, depth, notes, path, t, p, order);
      if r.Err? { return; }
      lines := r.value;
      WalkedOn(peers, visited, order, current);
      if current.next.None? {
        if Fits(t, notes, p, parent) {
          LastSibling(t, notes, p, order, current, lines, depth);
        }
        break;
      }
      if Fits(t, notes, p, parent) {
        NextPeer(t, notes, p, order, current, lines, depth);
      }
      visited := visited + {current.id};
      order := order + [current];
      SeenIds(visited, order, current.next.value);
      if current.next.value in visited {
        lines := lines + [CycleBack(current.next.value, depth)];
        break;
      }
      var next := FindRow(peers, current.next.value);
      if next.None? { return Err(NoSuchSibling); }
      current := next.value;
    }
    return Ok(lines);
  }

  /** The siblings printed so far are different rows of the group. */
  ghost predicate Walked(peers: seq<Row>, order: seq<Row>) {
    DistinctIds(order) && (forall x :: 0 <= x < |order| ==> order[x] in peers) && |order| <= |peers|
  }

  lemma {:induction false} NothingSeen()
    ensures Seen({}, []) && forall peers :: Walked(peers, [])
  {
  }

  lemma {:induction false} WalkedOn(peers: seq<Row>, visited: set<string>, order: seq<Row>, current: Row)
    requires Walked(peers, order) && Seen(visited, order) && current in peers && current.id !in visited
    ensures Walked(peers, order + [current]) && Seen(visited + {current.id}, order + [current])
    ensures |order| < |peers|
  {
    SeenIds(visited, order, current.id);
    SeenAppend(visited, order, current);
    AtMostAll(peers, order + [current]);
  }

  /** One row and everything below it, after the lines printed before it. */
  method PrintOne(
    parent: Option<string>, grouped: map<Option<string>, seq<Row>>, current: Row, lines: seq<Line>, depth: nat,
    ghost notes: seq<Row>, ghost path: seq<Row>, ghost t: Tree, ghost p: Option<nat>, ghost order: seq<Row>)
    returns (r: Result<seq<Line>, PrintError>)
    requires parent in grouped && current in grouped[parent] && Snapshot(notes, grouped) && PathTo(notes, path, parent)
    requires Fits(t, notes, p, parent) ==> AtSibling(t, p, order, current, lines, depth)
    ensures Fits(t, notes, p, parent) ==> r.Ok? && PastSibling(t, p, order, current, r.value, depth)
    ensures r.Err? ==> r.error == NoSuchSibling
    decreases |notes| - |path|, 0
  {
    hide PathTo, Outlined, TreeOk, PastSibling, Imported, Under;
    GroupMember(notes, grouped, parent, current);
    PathGrows(notes, path, parent, current);
    ghost var q: Option<nat> := None;
    if Fits(t, notes, p, parent) {
      q := Some(Under(t, p)[|order|]);
      RowAtIs(t, q.value);
    }
    r := PrintTree(Some(current.id), grouped, depth + 1, notes, path + [current], t, q);
    if r.Ok? {
      if Fits(t, notes, p, parent) {
        SiblingPrinted(t, p, order, current, lines, r.value, depth);
      }
      r := Ok(lines + [Note(current.id, depth)] + r.value);
    }
  }

  lemma {:induction false} RootGroup(notes: seq<Row>, grouped: map<Option<string>, seq<Row>>)
    requires Grouped(notes, grouped) && (None in grouped ==> grouped[None] != [])
    requires forall j :: 0 <= j < |notes| ==> notes[j].parent in grouped
    ensures None in grouped <==> exists row :: row in notes && row.parent.None?
  {
    assert Children(notes, None) == if None in grouped then grouped[None] else [];
    if None in grouped {
      assert grouped[None][0] in Children(notes, None);
    }
  }

  lemma {:induction false} OutlineIsInput(t: Tree, notes: seq<Row>)
    requires Imported(t, notes) && t.ids != []
    ensures Under(t, None) != [] && exists row :: row in notes && row.parent.None?
    ensures var lines := Outlined(t, Under(t, None), 0);
            |lines| == |t.ids| && forall k :: 0 <= k < |t.ids| ==> lines[k] == Note(t.ids[k], t.effs[k])
  {
    PreorderIsInputOrder(t.effs, t.parents);
    assert Walk(t.parents, Under(t, None), 0) == Lines(t.effs, 0, |t.effs|);
    UnderIsChild(t, notes, None, 0);
  }

  /** The tree snapshot of a table, from the root group. */
  method PrintSnapshot(notes: seq<Row>, ghost t: Tree) returns (r: Result<seq<Line>, PrintError>)
    requires DistinctIds(notes)
    ensures r == Err(NoRootGroup) <==> forall row :: row in notes ==> row.parent.Some?
    ensures Imported(t, notes) && t.ids != [] ==>
      r.Ok? && |r.value| == |t.ids| && forall k :: 0 <= k < |t.ids| ==> r.value[k] == Note(t.ids[k], t.effs[k])
  {
    hide Imported, TreeOk, Outlined, Under, Children;
    var grouped := CollectChildren(notes);
    RootGroup(notes, grouped);
    if Imported(t, notes) && t.ids != [] {
      OutlineIsInput(t, notes);
    }
    if None !in grouped { return Err(NoRootGroup); }
    r := PrintTree(None, grouped, 0, notes, [], t, None);
  }
}

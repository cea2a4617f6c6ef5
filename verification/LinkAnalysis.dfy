/** The independent inspection of a note table: grouping, link checks and the printed tree. */
module LinkAnalysis {
  import opened Wrappers
  import opened ImportTree

  datatype Issue =
    | HeadCount(count: nat) | TailCount(count: nat) | PrevMissing(id: string) | NextMissing(id: string)
    | CycleAt(id: string) | JumpTo(id: string) | Disconnected

  // ---------- grouping ----------

  /** The rows below `key`, in table order. */
  ghost function Children(notes: seq<Row>, key: Option<string>): (r: seq<Row>)
    ensures forall row :: row in r <==> row in notes && row.parent == key
    ensures |r| <= |notes|
  {
    if notes == [] then []
    else
      var last := notes[|notes| - 1];
      Children(notes[..|notes| - 1], key) + (if last.parent == key then [last] else [])
  }

  /** Every row and every parent that is named has its group, in table order. */
  ghost predicate Grouped(notes: seq<Row>, grouped: map<Option<string>, seq<Row>>) {
    forall key :: Children(notes, key) == if key in grouped then grouped[key] else []
  }

  method CollectChildren(notes: seq<Row>) returns (grouped: map<Option<string>, seq<Row>>)
    ensures forall j :: 0 <= j < |notes| ==> Some(notes[j].id) in grouped && notes[j].parent in grouped
    ensures None in grouped ==> grouped[None] != []
    ensures Grouped(notes, grouped)
  {
    hide Grouped, Children;
    grouped := EmptyGroups(notes);
    for i := 0 to |notes|
      invariant forall j :: 0 <= j < |notes| ==> Some(notes[j].id) in grouped
      invariant forall j :: 0 <= j < i ==> notes[j].parent in grouped
      invariant None in grouped ==> grouped[None] != []
      invariant Grouped(notes[..i], grouped)
    {
      var row := notes[i];
      assert notes[..i + 1] == notes[..i] + [row];
      ghost var before := grouped;
      GroupedAppend(notes[..i], before, row);
      if row.parent !in grouped {
        grouped := grouped[row.parent := []];
      }
      grouped := grouped[row.parent := grouped[row.parent] + [row]];
      assert grouped == before[row.parent := (if row.parent in before then before[row.parent] else []) + [row]];
    }
    assert notes[..|notes|] == notes;
  }

  method EmptyGroups(notes: seq<Row>) returns (grouped: map<Option<string>, seq<Row>>)
    ensures forall j :: 0 <= j < |notes| ==> Some(notes[j].id) in grouped
    ensures None !in grouped && Grouped([], grouped)
  {
    grouped := map i | 0 <= i < |notes| :: Some(notes[i].id) := [];
  }

  lemma {:induction false} GroupedAppend(notes: seq<Row>, grouped: map<Option<string>, seq<Row>>, row: Row)
    requires Grouped(notes, grouped)
    ensures Grouped(notes + [row],
        grouped[row.parent := (if row.parent in grouped then grouped[row.parent] else []) + [row]])
  {
    var grouped' := grouped[row.parent := (if row.parent in grouped then grouped[row.parent] else []) + [row]];
    assert (notes + [row])[..|notes|] == notes;
    forall key
      ensures Children(notes + [row], key) == if key in grouped' then grouped'[key] else []
    {
      assert Children(notes, key) == if key in grouped then grouped[key] else [];
    }
  }

  // ---------- one parent group ----------

  ghost predicate DistinctIds(rows: seq<Row>) {
    forall i, j :: 0 <= i < j < |rows| ==> rows[i].id != rows[j].id
  }

  ghost predicate HasId(rows: seq<Row>, id: string) {
    exists i :: 0 <= i < |rows| && rows[i].id == id
  }

  /** A link that is not blank names a row of the group. */
  ghost predicate LinkInside(rows: seq<Row>, link: Option<string>) {
    link.Some? && link.value != "" ==> HasId(rows, link.value)
  }

  ghost predicate LinksInside(rows: seq<Row>) {
    forall i :: 0 <= i < |rows| ==> LinkInside(rows, rows[i].prev) && LinkInside(rows, rows[i].next)
  }

  ghost function Heads(rows: seq<Row>): (r: seq<Row>)
    ensures forall row :: row in r <==> row in rows && row.prev.None?
  {
    if rows == [] then []
    else Heads(rows[..|rows| - 1]) + (if rows[|rows| - 1].prev.None? then [rows[|rows| - 1]] else [])
  }

  ghost function Tails(rows: seq<Row>): (r: seq<Row>)
    ensures forall row :: row in r <==> row in rows && row.next.None?
  {
    if rows == [] then []
    else Tails(rows[..|rows| - 1]) + (if rows[|rows| - 1].next.None? then [rows[|rows| - 1]] else [])
  }

  /** `order` follows `next` from a head through different rows of the group. */
  ghost predicate Follows(rows: seq<Row>, order: seq<Row>) {
    && (forall x :: 0 <= x < |order| ==> order[x] in rows)
    && DistinctIds(order)
    && (order != [] ==> order[0].prev.None?)
    && (forall x :: 0 <= x < |order| - 1 ==> order[x].next == Some(order[x + 1].id))
  }

  /** `order` is the whole group, from its head to its tail. */
  ghost predicate Chain(rows: seq<Row>, order: seq<Row>) {
    Follows(rows, order) && |order| == |rows| && order != [] && order[|order| - 1].next.None?
  }

  ghost predicate HasChain(rows: seq<Row>) {
    exists order :: Chain(rows, order)
  }

  /** What an empty list of issues means. */
  ghost predicate Consistent(rows: seq<Row>) {
    rows == []
    || (|Heads(rows)| == 1 && |Tails(rows)| == 1 && LinksInside(rows) && HasChain(rows))
  }

  lemma {:induction false} SameRow(rows: seq<Row>, a: Row, b: Row)
    requires DistinctIds(rows) && a in rows && b in rows && a.id == b.id
    ensures a == b
  {
    var i :| 0 <= i < |rows| && rows[i] == a;
    var j :| 0 <= j < |rows| && rows[j] == b;
    assert i == j;
  }

  /** Following `next` from the single head has no choice: it stays on any chain of the group. */
  lemma {:induction false} FollowsChain(rows: seq<Row>, order: seq<Row>, walked: seq<Row>, x: nat)
    requires DistinctIds(rows) && |Heads(rows)| == 1 && Chain(rows, order) && Follows(rows, walked) && x < |walked|
    ensures x < |order| && walked[x] == order[x]
  {
    if x == 0 {
      assert walked[0] in Heads(rows) && order[0] in Heads(rows);
    } else {
      FollowsChain(rows, order, walked, x - 1);
      assert walked[x - 1].next == Some(walked[x].id);
      assert x < |order|;
      SameRow(rows, walked[x], order[x]);
    }
  }

  lemma {:induction false} FollowsAppend(rows: seq<Row>, order: seq<Row>, current: Row)
    requires Follows(rows, order) && current in rows
    requires forall x :: 0 <= x < |order| ==> order[x].id != current.id
    requires if order == [] then current.prev.None? else order[|order| - 1].next == Some(current.id)
    ensures Follows(rows, order + [current])
  {
  }

  /** Rows with different ids taken from a group are at most the whole group. */
  lemma {:induction false} AtMostAll(rows: seq<Row>, order: seq<Row>)
    requires DistinctIds(order) && forall x :: 0 <= x < |order| ==> order[x] in rows
    ensures |order| <= |rows|
    ensures |order| == |rows| ==> forall row :: row in rows ==> row in order
    decreases |order|
  {
    if order != [] {
      var last := order[|order| - 1];
      var i :| 0 <= i < |rows| && rows[i] == last;
      var rest := rows[..i] + rows[i + 1..];
      var shorter := order[..|order| - 1];
      forall x | 0 <= x < |shorter|
        ensures shorter[x] in rest
      {
        var j :| 0 <= j < |rows| && rows[j] == shorter[x];
        assert order[x].id != last.id;
        assert rest[if j < i then j else j - 1] == shorter[x];
      }
      AtMostAll(rest, shorter);
      forall row | row in rows && |order| == |rows|
        ensures row in order
      {
        var j :| 0 <= j < |rows| && rows[j] == row;
        assert j == i || row == rest[if j < i then j else j - 1];
        assert row == last || row in shorter;
      }
    }
  }

  /** A chain visits every row of its group, each once, and ends at the only tail. */
  lemma {:induction false} ChainCovers(rows: seq<Row>, order: seq<Row>)
    requires |Tails(rows)| == 1 && Chain(rows, order)
    ensures forall row :: row in rows ==> exists x :: 0 <= x < |order| && order[x] == row
    ensures forall x, y :: 0 <= x < y < |order| ==> order[x] != order[y]
    ensures Tails(rows) == [order[|order| - 1]]
  {
    AtMostAll(rows, order);
    assert order[|order| - 1] in Tails(rows);
  }

  /** A walk from the head is the start of any chain; the row it must go on to is new. */
  lemma {:induction false} NextOnChain(rows: seq<Row>, chain: seq<Row>, order: seq<Row>)
    requires DistinctIds(rows) && |Heads(rows)| == 1 && Chain(rows, chain) && Follows(rows, order) && order != []
    ensures |order| <= |chain| && (order[|order| - 1].next.None? ==> |order| == |rows|)
    ensures order[|order| - 1].next.Some? ==>
      HasId(rows, order[|order| - 1].next.value) && forall x :: 0 <= x < |order| ==>
          order[x].id != order[|order| - 1].next.value
  {
    var n := |order|;
    FollowsChain(rows, chain, order, n - 1);
    if order[n - 1].next.Some? {
      assert n < |chain| && chain[n].id == order[n - 1].next.value && chain[n] in rows;
      forall x | 0 <= x < n
        ensures order[x].id != order[n - 1].next.value
      {
        FollowsChain(rows, chain, order, x);
      }
    }
  }

  lemma {:induction false} WalkStuck(rows: seq<Row>, order: seq<Row>)
    requires DistinctIds(rows) && |Heads(rows)| == 1 && Follows(rows, order) && order != []
    requires var next := order[|order| - 1].next;
      || (next.None? && |order| != |rows|)
      || (next.Some? && (!HasId(rows, next.value) || exists x :: 0 <= x < |order| && order[x].id == next.value))
    ensures !HasChain(rows)
  {
    if HasChain(rows) {
      var chain :| Chain(rows, chain);
      NextOnChain(rows, chain, order);
    }
  }

  method IndexGroup(children: seq<Row>) returns (idMap: map<string, Row>, heads: seq<Row>, tails: seq<Row>)
    requires DistinctIds(children)
    ensures heads == Heads(children) && tails == Tails(children) && Indexes(idMap, children)
  {
    hide Heads, Tails, Indexes;
    EndsOfNone();
    IndexesNone();
    idMap, heads, tails := map[], [], [];
    for i := 0 to |children|
      invariant heads == Heads(children[..i]) && tails == Tails(children[..i])
      invariant Indexes(idMap, children[..i])
    {
      var row := children[i];
      assert forall j :: 0 <= j < i ==> children[j].id != row.id;
      EndsAppend(children[..i], row);
      IndexAppend(idMap, children[..i], row);
      assert children[..i + 1] == children[..i] + [row];
      idMap := idMap[row.id := row];
      if row.prev.None? { heads := heads + [row]; }
      if row.next.None? { tails := tails + [row]; }
    }
    assert children[..|children|] == children;
  }

  lemma {:induction false} EndsOfNone()
    ensures Heads([]) == [] && Tails([]) == []
  {
  }

  lemma {:induction false} EndsAppend(rows: seq<Row>, row: Row)
    ensures Heads(rows + [row]) == Heads(rows) + (if row.prev.None? then [row] else [])
    ensures Tails(rows + [row]) == Tails(rows) + (if row.next.None? then [row] else [])
  {
    assert (rows + [row])[..|rows|] == rows;
  }

  lemma {:induction false} IndexesNone()
    ensures Indexes(map[], [])
  {
  }

  ghost predicate Indexes(idMap: map<string, Row>, rows: seq<Row>) {
    && (forall id :: id in idMap ==> HasId(rows, id))
    && forall j :: 0 <= j < |rows| ==> rows[j].id in idMap && idMap[rows[j].id] == rows[j]
  }

  lemma {:induction false} IndexAppend(idMap: map<string, Row>, rows: seq<Row>, row: Row)
    requires Indexes(idMap, rows) && forall j :: 0 <= j < |rows| ==> rows[j].id != row.id
    ensures Indexes(idMap[row.id := row], rows + [row])
  {
    forall id | id in idMap[row.id := row]
      ensures HasId(rows + [row], id)
    {
      if id == row.id {
        assert (rows + [row])[|rows|].id == id;
      } else {
        var j :| 0 <= j < |rows| && rows[j].id == id;
        assert (rows + [row])[j].id == id;
      }
    }
  }

  lemma {:induction false} IndexHas(idMap: map<string, Row>, rows: seq<Row>, id: string)
    requires Indexes(idMap, rows)
    ensures id in idMap <==> HasId(rows, id)
    ensures id in idMap ==> idMap[id] in rows && idMap[id].id == id
  {
    if HasId(rows, id) {
      var j :| 0 <= j < |rows| && rows[j].id == id;
      assert idMap[id] == rows[j];
    }
  }

  /** No issue is reported exactly for a group whose links form one chain. */
  method ValidateParentGroup(children: seq<Row>) returns (issues: seq<Issue>)
    requires DistinctIds(children)
    ensures issues == [] <==> Consistent(children)
  {
    hide Chain, Heads, Tails, LinksInside, DistinctIds, Indexes;
    issues := [];
    if children == [] { return; }
    var idMap, heads, tails := IndexGroup(children);
    if |heads| != 1 { issues := issues + [HeadCount(|heads|)]; }
    if |tails| != 1 { issues := issues + [TailCount(|tails|)]; }
    var missing := MissingLinks(children, idMap);
    issues := issues + missing;
    if heads != [] {
      assert heads[0] in heads;
      var found := WalkChain(children, idMap, heads[0]);
      issues := issues + found;
    }
  }

  /** The links that name no row of the group. */
  method MissingLinks(children: seq<Row>, idMap: map<string, Row>) returns (issues: seq<Issue>)
    requires Indexes(idMap, children)
    ensures issues == [] <==> LinksInside(children)
  {
    issues := [];
    for i := 0 to |children|
      invariant issues == [] <==>
          forall j :: 0 <= j < i ==> LinkInside(children, children[j].prev) && LinkInside(children, children[j].next)
    {
      var row := children[i];
      if row.prev.Some? { IndexHas(idMap, children, row.prev.value); }
      if row.next.Some? { IndexHas(idMap, children, row.next.value); }
      if row.prev.Some? && row.prev.value != "" && row.prev.value !in idMap {
        issues := issues + [PrevMissing(row.prev.value)];
      }
      if row.next.Some? && row.next.value != "" && row.next.value !in idMap {
        issues := issues + [NextMissing(row.next.value)];
      }
    }
  }

  /** Follow `next` from the head until it ends, repeats, or leaves the group. */
  method WalkChain(children: seq<Row>, idMap: map<string, Row>, head: Row) returns (issues: seq<Issue>)
    requires DistinctIds(children) && head in children && head.prev.None? && Indexes(idMap, children)
    ensures issues == [] ==> HasChain(children)
    ensures issues != [] && |Heads(children)| == 1 ==> !HasChain(children)
  {
    hide Heads, Indexes;
    issues := [];
    var current := head;
    var seen: set<string> := {};
    ghost var order: seq<Row> := [];
    while true
      invariant issues == [] && current in children
      invariant Follows(children, order)
      invariant Seen(seen, order) && |order| <= |children|
      invariant if order == [] then current == head else order[|order| - 1].next == Some(current.id)
      decreases |children| - |order|
    {
      SeenIds(seen, order, current.id);
      if current.id in seen {
        issues := [CycleAt(current.id)];
        break;
      }
      FollowsAppend(children, order, current);
      SeenAppend(seen, order, current);
      seen := seen + {current.id};
      order := order + [current];
      AtMostAll(children, order);
      if current.next.None? { break; }
      IndexHas(idMap, children, current.next.value);
      if current.next.value !in idMap {
        issues := [JumpTo(current.next.value)];
        break;
      }
      current := idMap[current.next.value];
    }
    if |seen| != |children| {
      issues := issues + [Disconnected];
    }
    if issues == [] {
      assert Chain(children, order);
    } else if |Heads(children)| == 1 {
      WalkStuck(children, order);
    }
  }

  ghost predicate Seen(seen: set<string>, order: seq<Row>) {
    |seen| == |order| && (forall x :: 0 <= x < |order| ==> order[x].id in seen)
    && forall id :: id in seen ==> HasId(order, id)
  }

  lemma {:induction false} SeenIds(seen: set<string>, order: seq<Row>, id: string)
    requires Seen(seen, order)
    ensures id in seen <==> exists x :: 0 <= x < |order| && order[x].id == id
  {
  }

  lemma {:induction false} SeenAppend(seen: set<string>, order: seq<Row>, row: Row)
    requires Seen(seen, order) && row.id !in seen
    ensures Seen(seen + {row.id}, order + [row])
  {
    forall id | id in seen + {row.id}
      ensures HasId(order + [row], id)
    {
      if id == row.id {
        assert (order + [row])[|order|].id == id;
      } else {
        var j :| 0 <= j < |order| && order[j].id == id;
        assert (order + [row])[j].id == id;
      }
    }
  }
}

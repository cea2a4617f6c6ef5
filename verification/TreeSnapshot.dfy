/** The link builder and the analyzer agree, and the printed tree is the imported outline. */
module TreeSnapshot {
  import opened Wrappers
  import opened ImportTree
  import opened Preorder
  import opened LinkAnalysis

  /** `notes` is any enumeration of the table of an import whose links have been written. */
  ghost predicate Imported(t: Tree, notes: seq<Row>) {
    && TreeOk(t) && (forall key :: key in t.order ==> Linked(t.table, t.order[key]))
    && DistinctIds(notes)
    && (forall row :: row in notes ==> row.id in t.table && t.table[row.id] == row)
    && forall id :: id in t.table ==> HasId(notes, id)
  }

  ghost predicate Position(t: Tree, p: Option<nat>) {
    p.Some? ==> p.value < |t.ids|
  }

  /** The notes under position `p`, as positions in insertion order. */
  ghost function Under(t: Tree, p: Option<nat>): (ks: seq<nat>)
    requires TreeOk(t)
    ensures Rising(ks, |t.ids|)
  {
    KidsRising(t.parents, p, 0, |t.parents|);
    Kids(t.parents, p, 0, |t.parents|)
  }

  ghost function RowAt(t: Tree, k: nat): Row
    requires TreeOk(t) && k < |t.ids|
  {
    t.table[t.ids[k]]
  }

  ghost function RowsAt(t: Tree, ks: seq<nat>): (r: seq<Row>)
    requires TreeOk(t) && Rising(ks, |t.ids|)
    ensures |r| == |ks| && forall x :: 0 <= x < |ks| ==> r[x] == RowAt(t, ks[x])
  {
    seq(|ks|, x requires 0 <= x < |ks| => RowAt(t, ks[x]))
  }

  lemma {:induction false} ChildrenDistinct(notes: seq<Row>, key: Option<string>)
    requires DistinctIds(notes)
    ensures DistinctIds(Children(notes, key))
  {
    if notes != [] {
      var init := notes[..|notes| - 1];
      ChildrenDistinct(init, key);
      forall row | row in Children(init, key)
        ensures row.id != notes[|notes| - 1].id
      {
        var i :| 0 <= i < |init| && init[i] == row;
      }
    }
  }

  lemma {:induction false} HeadsDistinct(rows: seq<Row>)
    requires DistinctIds(rows)
    ensures DistinctIds(Heads(rows))
  {
    if rows != [] {
      var init := rows[..|rows| - 1];
      HeadsDistinct(init);
      forall row | row in Heads(init)
        ensures row.id != rows[|rows| - 1].id
      {
        var i :| 0 <= i < |init| && init[i] == row;
      }
    }
  }

  lemma {:induction false} TailsDistinct(rows: seq<Row>)
    requires DistinctIds(rows)
    ensures DistinctIds(Tails(rows))
  {
    if rows != [] {
      var init := rows[..|rows| - 1];
      TailsDistinct(init);
      forall row | row in Tails(init)
        ensures row.id != rows[|rows| - 1].id
      {
        var i :| 0 <= i < |init| && init[i] == row;
      }
    }
  }

  lemma {:induction false} RowAtIs(t: Tree, k: nat)
    requires TreeOk(t) && k < |t.ids|
    ensures Position(t, t.parents[k])
    ensures RowAt(t, k).id == t.ids[k] && RowAt(t, k).parent == Key(t.ids, t.parents[k])
  {
    ParentsAreEarlier(t.effs, t.parents);
  }

  lemma {:induction false} RowKnown(t: Tree, k: nat)
    requires TreeOk(t) && k < |t.ids|
    ensures t.ids[k] in t.table
  {
  }

  lemma {:induction false} UnderAre(t: Tree, p: Option<nat>, k: nat)
    requires TreeOk(t) && k < |t.ids|
    ensures k in Under(t, p) <==> t.parents[k] == p
  {
    KidsAre(t.parents, p, 0, |t.parents|);
  }

  lemma {:induction false} ChildIsUnder(t: Tree, notes: seq<Row>, p: Option<nat>, row: Row) returns (x: nat)
    requires Imported(t, notes) && Position(t, p) && row in Children(notes, Key(t.ids, p))
    ensures x < |Under(t, p)| && RowAt(t, Under(t, p)[x]) == row
  {
    var k :| 0 <= k < |t.ids| && t.ids[k] == row.id;
    hide TreeOk;
    RowAtIs(t, k);
    DistinctKeys(t, t.parents[k], p);
    UnderAre(t, p, k);
    x :| 0 <= x < |Under(t, p)| && Under(t, p)[x] == k;
  }

  lemma {:induction false} DistinctKeys(t: Tree, p: Option<nat>, q: Option<nat>)
    requires TreeOk(t) && Position(t, p) && Position(t, q)
    ensures Key(t.ids, p) == Key(t.ids, q) ==> p == q
  {
    KeyInjective(t.ids, p, q);
  }

  lemma {:induction false} UnderIsChild(t: Tree, notes: seq<Row>, p: Option<nat>, x: nat)
    requires Imported(t, notes) && Position(t, p) && x < |Under(t, p)|
    ensures RowAt(t, Under(t, p)[x]) in Children(notes, Key(t.ids, p))
  {
    hide TreeOk, Under;
    var k := Under(t, p)[x];
    RowAtIs(t, k);
    UnderAre(t, p, k);
    RowKnown(t, k);
    var j :| 0 <= j < |notes| && notes[j].id == t.ids[k];
    assert notes[j] in notes;
  }

  /** What the link builder has written along one children list. */
  lemma {:induction false} UnderIsLinked(t: Tree, p: Option<nat>, x: nat)
    requires TreeOk(t) && Position(t, p) && x < |Under(t, p)|
    requires forall key :: key in t.order ==> Linked(t.table, t.order[key])
    ensures var ks := Under(t, p);
            && RowAt(t, ks[x]).id == t.ids[ks[x]]
            && RowAt(t, ks[x]).prev == (if x > 0 then Some(t.ids[ks[x - 1]]) else None)
            && RowAt(t, ks[x]).next == (if x + 1 < |ks| then Some(t.ids[ks[x + 1]]) else None)
  {
    var ks := Under(t, p);
    assert OrderEntryOk(t.ids, t.parents, t.order, p);
    ParentsAreEarlier(t.effs, t.parents);
    assert LinkedAt(t.table, t.order[Key(t.ids, p)], x);
  }

  lemma {:induction false} UnderDistinct(t: Tree, p: Option<nat>)
    requires TreeOk(t) && Position(t, p)
    ensures DistinctIds(RowsAt(t, Under(t, p)))
  {
    var ks := Under(t, p);
    forall i, j | 0 <= i < j < |ks|
      ensures RowAt(t, ks[i]).id != RowAt(t, ks[j]).id
    {
      RowAtIs(t, ks[i]);
      RowAtIs(t, ks[j]);
      assert ks[i] < ks[j] && t.ids[ks[i]] != t.ids[ks[j]];
    }
  }

  lemma {:induction false} UnderIsAll(t: Tree, notes: seq<Row>, p: Option<nat>)
    requires Imported(t, notes) && Position(t, p)
    ensures |Children(notes, Key(t.ids, p))| == |Under(t, p)|
  {
    hide TreeOk;
    var rows, order := Children(notes, Key(t.ids, p)), RowsAt(t, Under(t, p));
    forall x | 0 <= x < |rows|
      ensures rows[x] in order
    {
      var y := ChildIsUnder(t, notes, p, rows[x]);
      assert order[y] == rows[x];
    }
    forall x | 0 <= x < |order|
      ensures order[x] in rows
    {
      UnderIsChild(t, notes, p, x);
    }
    ChildrenDistinct(notes, Key(t.ids, p));
    UnderDistinct(t, p);
    AtMostAll(rows, order);
    AtMostAll(order, rows);
  }

  lemma {:induction false} UnderIsChain(t: Tree, notes: seq<Row>, p: Option<nat>)
    requires Imported(t, notes) && Position(t, p) && Under(t, p) != []
    ensures Chain(Children(notes, Key(t.ids, p)), RowsAt(t, Under(t, p)))
  {
    hide TreeOk, Under, Children, RowAt;
    var ks := Under(t, p);
    forall x | 0 <= x < |ks|
      ensures RowAt(t, ks[x]) in Children(notes, Key(t.ids, p))
      ensures RowAt(t, ks[x]).prev == (if x > 0 then Some(RowAt(t, ks[x - 1]).id) else None)
      ensures RowAt(t, ks[x]).next == (if x + 1 < |ks| then Some(RowAt(t, ks[x + 1]).id) else None)
    {
      UnderIsChild(t, notes, p, x);
      UnderIsLinked(t, p, x);
      if x > 0 { RowAtIs(t, ks[x - 1]); }
      if x + 1 < |ks| { RowAtIs(t, ks[x + 1]); }
    }
    UnderDistinct(t, p);
    UnderIsAll(t, notes, p);
    var order := RowsAt(t, ks);
    assert forall x :: 0 <= x < |ks| ==> order[x] in Children(notes, Key(t.ids, p));
    assert forall x :: 0 <= x < |ks| - 1 ==> order[x].next == Some(order[x + 1].id);
    UnderIsLinked(t, p, 0);
    UnderIsLinked(t, p, |ks| - 1);
  }

  lemma {:induction false} OneEnd(t: Tree, notes: seq<Row>, p: Option<nat>)
    requires Imported(t, notes) && Position(t, p) && Under(t, p) != []
    ensures var rows, order := Children(notes, Key(t.ids, p)), RowsAt(t, Under(t, p));
            Heads(rows) == [order[0]] && Tails(rows) == [order[|order| - 1]]
  {
    hide TreeOk, Under, Children, RowAt, Heads, Tails, DistinctIds;
    var ks := Under(t, p);
    var rows, order := Children(notes, Key(t.ids, p)), RowsAt(t, ks);
    UnderIsChain(t, notes, p);
    ChildrenDistinct(notes, Key(t.ids, p));
    HeadsDistinct(rows);
    TailsDistinct(rows);
    forall row | row in rows
      ensures row.prev.None? ==> row == order[0]
      ensures row.next.None? ==> row == order[|order| - 1]
    {
      var x := ChildIsUnder(t, notes, p, row);
      UnderIsLinked(t, p, x);
    }
    OnlyOne(Heads(rows), order[0]);
    OnlyOne(Tails(rows), order[|order| - 1]);
  }

  lemma {:induction false} OnlyOne(rows: seq<Row>, row: Row)
    requires DistinctIds(rows) && row in rows
    requires forall other :: other in rows ==> other == row
    ensures rows == [row]
  {
    var first, last := rows[0], rows[|rows| - 1];
    assert first in rows && last in rows;
  }

  lemma {:induction false} LinksStayInside(t: Tree, notes: seq<Row>, p: Option<nat>)
    requires Imported(t, notes) && Position(t, p)
    ensures LinksInside(Children(notes, Key(t.ids, p)))
  {
    hide TreeOk, Under, Children, RowAt;
    var ks := Under(t, p);
    var rows := Children(notes, Key(t.ids, p));
    forall y | 0 <= y < |ks|
      ensures HasId(rows, t.ids[ks[y]])
    {
      UnderIsChild(t, notes, p, y);
      UnderIsLinked(t, p, y);
      var i :| 0 <= i < |rows| && rows[i] == RowAt(t, ks[y]);
    }
    forall i | 0 <= i < |rows|
      ensures LinkInside(rows, rows[i].prev) && LinkInside(rows, rows[i].next)
    {
      var x := ChildIsUnder(t, notes, p, rows[i]);
      UnderIsLinked(t, p, x);
    }
  }

  lemma {:induction false} PrevUndoesNext(t: Tree, notes: seq<Row>, p: Option<nat>, a: Row, b: Row)
    requires Imported(t, notes) && Position(t, p)
    requires a in Children(notes, Key(t.ids, p)) && b in Children(notes, Key(t.ids, p))
    ensures a.next == Some(b.id) <==> b.prev == Some(a.id)
  {
    var ks := Under(t, p);
    var x := ChildIsUnder(t, notes, p, a);
    var y := ChildIsUnder(t, notes, p, b);
    UnderIsLinked(t, p, x);
    UnderIsLinked(t, p, y);
    if x + 1 < |ks| && t.ids[ks[x + 1]] == t.ids[ks[y]] {
      assert ks[x + 1] == ks[y];
    }
    if y > 0 && t.ids[ks[y - 1]] == t.ids[ks[x]] {
      assert ks[y - 1] == ks[x];
    }
  }

  /** `prev` undoes `next`. */
  ghost predicate PrevMatches(rows: seq<Row>) {
    forall a, b :: a in rows && b in rows ==> (a.next == Some(b.id) <==> b.prev == Some(a.id))
  }

  /** The builder's output raises no issue in any group, and `prev` undoes `next`. */
  lemma {:induction false} BuilderPassesAnalysis(t: Tree, notes: seq<Row>, p: Option<nat>)
    requires Imported(t, notes) && Position(t, p)
    ensures var rows := Children(notes, Key(t.ids, p));
            Consistent(rows) && PrevMatches(rows)
  {
    hide TreeOk, Under, Children, Chain, LinksInside, Heads, Tails;
    var rows := Children(notes, Key(t.ids, p));
    if Under(t, p) == [] {
      UnderIsAll(t, notes, p);
    } else {
      UnderIsChain(t, notes, p);
      OneEnd(t, notes, p);
      LinksStayInside(t, notes, p);
    }
    forall a, b | a in rows && b in rows
      ensures a.next == Some(b.id) <==> b.prev == Some(a.id)
    {
      PrevUndoesNext(t, notes, p, a, b);
    }
  }

  /** The analyzer checks the `next` chain only: `prev` links may disagree with it. */
  lemma {:induction false} PrevIsNotChecked() returns (rows: seq<Row>, a: Row, b: Row)
    ensures DistinctIds(rows) && Consistent(rows) && a in rows && b in rows
    ensures a.next == Some(b.id) && b.prev != Some(a.id)
  {
    a := Row("a", None, None, Some("b"));
    b := Row("b", None, Some("b"), None);
    rows := [a, b];
    EndsAppend([a], b);
    EndsAppend([], a);
    assert [] + [a] == [a] && [a] + [b] == rows;
    assert rows[0].id == "a" && rows[1].id == "b";
    assert rows[0].id[0] != rows[1].id[0];
    assert Chain(rows, rows);
  }

  /** Every row that `prev` says follows another is named by the `next` of that row. */
  ghost predicate PrevAnswered(rows: seq<Row>) {
    forall b :: b in rows && b.prev.Some? ==> exists a :: a in rows && b.prev == Some(a.id) && a.next == Some(b.id)
  }

  /** On the chain of an accepted group, the rows but the first are named by `next`, each by one row. */
  lemma {:induction false} NamedByOne(rows: seq<Row>, order: seq<Row>, b: Row) returns (a: Row)
    requires DistinctIds(rows) && |Heads(rows)| == 1 && Chain(rows, order) && b in rows && b.prev.Some?
    ensures a in rows && a.next == Some(b.id)
    ensures forall other :: other in rows && other.next == Some(b.id) ==> other == a
  {
    AtMostAll(rows, order);
    var x :| 0 <= x < |order| && order[x] == b;
    assert x > 0;
    a := order[x - 1];
    forall other | other in rows && other.next == Some(b.id)
      ensures other == a
    {
      var y :| 0 <= y < |order| && order[y] == other;
      assert order[y + 1].id == order[x].id;
    }
  }

  lemma {:induction false} HeadIsFirst(rows: seq<Row>, order: seq<Row>, row: Row)
    requires |Heads(rows)| == 1 && Chain(rows, order) && row in rows
    ensures row.prev.None? ==> row == order[0]
  {
    assert order[0] in Heads(rows);
    if row.prev.None? {
      assert row in Heads(rows);
    }
  }

  /** A row that `next` names is no head. */
  lemma {:induction false} NamedIsNoHead(rows: seq<Row>, order: seq<Row>, a: Row, b: Row)
    requires DistinctIds(rows) && |Heads(rows)| == 1 && Chain(rows, order)
    requires a in rows && b in rows && a.next == Some(b.id)
    ensures b.prev.Some?
  {
    AtMostAll(rows, order);
    var y :| 0 <= y < |order| && order[y] == a;
    var x :| 0 <= x < |order| && order[x] == b;
    assert order[y + 1].id == order[x].id;
    assert x == y + 1 && order[0].id != b.id;
    HeadIsFirst(rows, order, b);
  }

  /** In a group that the analyzer accepts, `prev` undoes `next` exactly when each row that has a `prev`
      is the `next` of the row it names: one look-up per row is all that the analyzer lacks. */
  lemma {:induction false} PrevMatchesExactly(rows: seq<Row>)
    requires DistinctIds(rows) && Consistent(rows)
    ensures PrevMatches(rows) <==> PrevAnswered(rows)
  {
    hide Chain, Heads, Tails, LinksInside;
    if rows != [] {
      var order :| Chain(rows, order);
      if PrevMatches(rows) {
        forall b | b in rows && b.prev.Some?
          ensures exists a :: a in rows && b.prev == Some(a.id) && a.next == Some(b.id)
        {
          var a := NamedByOne(rows, order, b);
        }
      }
      if PrevAnswered(rows) {
        forall a, b | a in rows && b in rows
          ensures a.next == Some(b.id) <==> b.prev == Some(a.id)
        {
          if a.next == Some(b.id) {
            NamedIsNoHead(rows, order, a, b);
          }
          if b.prev.Some? {
            var named := NamedByOne(rows, order, b);
            var before :| before in rows && b.prev == Some(before.id) && before.next == Some(b.id);
            if b.prev == Some(a.id) { SameRow(rows, a, before); }
          }
        }
      }
    }
  }
}

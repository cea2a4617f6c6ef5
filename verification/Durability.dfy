/**
 What a power loss may do to the name and the contents of a file.

 A cell is one directory entry.  `cur` is what a running process sees.  `clean`
 says that the contents behind the entry are on disk, and `name` says what the
 disk knows about the entry itself: it agrees with `cur` (Named), it is absent
 from a directory that has no older entry of that name (Born), or it may still be
 anything (Loose).  A power loss chooses, cell by cell and adversarially, among
 what `Survives` allows.
 */
module Durability {
  import opened Wrappers

  datatype NameState = Named | Born | Loose

  datatype Cell<V> = Cell(cur: Option<V>, clean: bool, name: NameState) {

    ghost predicate Flushed() { cur.Some? ==> clean }

    ghost predicate Settled() { Flushed() && name.Named? }
  }

  /** The entry shows on disk what the process sees, except for unsynced contents. */
  ghost predicate Held<V>(c: Cell<V>, v: Option<V>) {
    if c.cur.None? then v.None? else v.Some? && (c.clean ==> v == c.cur)
  }

  ghost predicate Survives<V>(c: Cell<V>, v: Option<V>) {
    match c.name
    case Named => Held(c, v)
    case Born => v.None? || Held(c, v)
    case Loose => true
  }

  /** A cell whose contents and name are both on disk. */
  function OnDisk<V>(v: Option<V>): Cell<V> {
    Cell(v, true, Named)
  }

  /** The cell found by the first process started after a power loss. */
  ghost predicate CrashedTo<V>(c: Cell<V>, after: Cell<V>) {
    after == OnDisk(after.cur) && Survives(c, after.cur)
  }

  /** Create the file if it is missing and change its contents, without flushing anything. */
  function Put<V>(c: Cell<V>, v: V): Cell<V> {
    Cell(Some(v), false, if c.cur.None? && c.name.Named? then Born else c.name)
  }

  function Remove<V>(c: Cell<V>): Cell<V> {
    if c.cur.None? then c else Cell(None, true, Loose)
  }

  /** fsync of the file; `names` says whether that also makes a new name durable. */
  function Fsync<V>(names: bool, c: Cell<V>): Cell<V> {
    if c.cur.None? then c else Cell(c.cur, true, if names then Named else c.name)
  }

  /** fsync of the directory that holds the entry. */
  function SyncName<V>(c: Cell<V>): Cell<V> {
    c.(name := Named)
  }
}

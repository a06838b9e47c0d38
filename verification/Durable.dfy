/** Files as the local stores see them: a directory entry is visible as soon as it is
    renamed into place, and survives a power loss for certain once its directory has
    been synced. */
module Durable {
  import opened Bytes

  /** Content that authenticates under the store's key, or does not. */
  datatype File<T> = Authentic(value: T) | Garbage

  /** What a reader sees now, and what a power loss is certain to leave. */
  datatype Cell<T> = Cell(seen: Option<T>, durable: Option<T>) {
    function Put(v: T): Cell<T> {
      Cell(Some(v), durable)
    }

    function Removed(): Cell<T> {
      Cell(None, durable)
    }

    function Synced(): Cell<T> {
      Cell(seen, seen)
    }
  }

  /** After a power loss an entry is either what was visible or what was durable. */
  predicate Settles<T(==)>(before: Cell<T>, after: Cell<T>) {
    after.seen == after.durable && (after.seen == before.seen || after.seen == before.durable)
  }

  /** Damage makes a file vanish or stop authenticating. */
  predicate Hurt<T(==)>(before: Option<File<T>>, after: Option<File<T>>) {
    after == before || after == None || after == Some(Garbage)
  }

  predicate HurtCell<T(==)>(before: Cell<File<T>>, after: Cell<File<T>>) {
    Hurt(before.seen, after.seen) && Hurt(before.durable, after.durable)
  }

  predicate Kept<T(==)>(cell: Cell<T>, v: T) {
    cell == Cell(Some(v), Some(v))
  }

  predicate There(cell: Cell<()>) {
    cell.seen.Some? && cell.durable.Some?
  }

  /** Names that are one path element. */
  predicate ValidPathId(id: string) {
    id != "" && id != "." && id != ".." && forall c :: c in id ==> PathChar(c)
  }

  predicate PathChar(c: char) {
    'a' <= c <= 'z' || 'A' <= c <= 'Z' || '0' <= c <= '9' || c == '-' || c == '_' || c == '.'
  }
}

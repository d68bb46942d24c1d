/**
  The part of Redis the packages rely on: string keys that may carry a deadline.
  Times are milliseconds.  An entry whose deadline has been reached is gone for
  every command, whether or not it is still physically present in the map.
  Lua scripts and MULTI blocks are single steps.
 */
module Redis {
  import opened Common

  datatype Entry<+V> = Entry(value: V, deadline: Option<int>)

  predicate Live<V>(e: Entry<V>, now: int) {
    e.deadline.Some? ==> now < e.deadline.value
  }

  /** What a command issued at `now` sees in a slot. */
  function Seen<V>(slot: Option<Entry<V>>, now: int): Option<Entry<V>> {
    if slot.Some? && Live(slot.value, now) then slot else None
  }

  /** The physical content of a key, expired or not. */
  function Slot<K, V>(db: map<K, Entry<V>>, k: K): Option<Entry<V>> {
    if k in db then Some(db[k]) else None
  }

  /** What a command issued at `now` sees under a key. */
  function Lookup<K, V>(db: map<K, Entry<V>>, now: int, k: K): Option<Entry<V>> {
    Seen(Slot(db, k), now)
  }

  /** INCRBY treats a missing counter as zero. */
  function Count(slot: Option<Entry<int>>, now: int): int {
    match Seen(slot, now)
    case None => 0
    case Some(e) => e.value
  }
}

/** The key-value store `db` (lib/db) as the resolver sees it: a map from
    keys to entries whose `get` and `set` may each throw.  Which calls fail
    is not under the resolver's control, so the methods choose it freely. */
module Db {
  import opened Wrappers

  /** A stored value with its time-to-live; `None` means no expiry. */
  datatype Entry = Entry(value: string, ttl: Option<nat>)

  /** The outcome of `db.get`: it threw, or it answered with the stored value
      (`undefined` when the key is absent). */
  datatype Reply = Failed | Answer(value: Option<string>)

  /** The value stored under `key`, if any. */
  function Stored(entries: map<string, Entry>, key: string): (r: Option<string>)
    ensures r.Some? <==> key in entries
    ensures r.Some? ==> r.value == entries[key].value
  {
    if key in entries then Some(entries[key].value) else None
  }

  /** A call on the store, as recorded in its log: a read with what it
      answered, or a write with what it was asked to store. */
  datatype Op = GetOp(key: string, reply: Reply) | SetOp(key: string, entry: Entry)

  class Store {
    var entries: map<string, Entry>
    /** Every call made on the store, in order, whether or not it threw. */
    ghost var log: seq<Op>

    constructor (initial: map<string, Entry>)
      ensures entries == initial && log == []
    {
      entries := initial;
      log := [];
    }

    /** `db.get(key)`: either throws or returns what is stored; it never
        changes the entries. */
    method Get(key: string) returns (r: Reply)
      modifies this
      ensures r == Failed || r == Answer(Stored(entries, key))
      ensures entries == old(entries) && log == old(log) + [GetOp(key, r)]
    {
      var fails: bool :| true;
      if fails {
        r := Failed;
      } else {
        r := Answer(Stored(entries, key));
      }
      log := log + [GetOp(key, r)];
    }

    /** `db.set(key, value, ttl)`: `ok` is false when it threw, and then the
        store is left as it was. */
    method Set(key: string, value: string, ttl: Option<nat>) returns (ok: bool)
      modifies this
      ensures entries == if ok then old(entries)[key := Entry(value, ttl)] else old(entries)
      ensures log == old(log) + [SetOp(key, Entry(value, ttl))]
    {
      log := log + [SetOp(key, Entry(value, ttl))];
      ok :| true;
      if ok {
        entries := entries[key := Entry(value, ttl)];
      }
    }
  }
}

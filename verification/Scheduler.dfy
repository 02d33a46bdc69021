/** The cron scheduler (internal/server/scheduler.go): rebuilding the entry set and
    spawning a child under the lock. */
module Scheduler {
  import opened Tasks
  import opened Lifecycle
  import opened Store
  import opened Lease
  import Protocol

  class Scheduler {
    const store: Store
    const lock: MemoryLock
    var entries: seq<Task>

    constructor (store: Store, lock: MemoryLock)
      ensures this.store == store && this.lock == lock && entries == []
    {
      this.store, this.lock, entries := store, lock, [];
    }

    /** Tear the schedule down and add every enabled definition whose expression the
        cron parser accepts. */
    method Resync(valid: set<string>)
      requires store.Valid()
      modifies this`entries
      ensures (set d | d in entries) == Protocol.EntriesOf(store.rows, valid)
      ensures forall d :: d in entries <==> d.id in store.rows && store.rows[d.id] == d && d.kind.Cron? && d.enabled && d.cronExpr in valid
      ensures forall i, j :: 0 <= i < j < |entries| ==> entries[i].id < entries[j].id
    {
      var defs := store.ListCron();
      while entries != []
        decreases |entries|
      {
        entries := entries[1..];
      }
      for i := 0 to |defs|
        invariant forall d :: d in entries <==> d in defs[..i] && d.cronExpr in valid
        invariant forall i, j :: 0 <= i < j < |entries| ==> entries[i].id < entries[j].id
      {
        if defs[i].cronExpr in valid {
          forall k | 0 <= k < |entries| ensures entries[k].id < defs[i].id {
            assert entries[k] in entries;
          }
          entries := entries + [defs[i]];
        }
        assert defs[..i + 1] == defs[..i] + [defs[i]];
      }
      assert defs[..|defs|] == defs;
    }

    /** One tick of a definition. With the lock free, expired or already under this
        stamp, one child is inserted a little later and the lock is free afterwards;
        otherwise nothing happens. */
    method Spawn(d: Task, stamp: string, now: Time, later: Time) returns (spawned: bool)
      requires store.Valid()
      modifies store, lock
      ensures store.Valid()
      ensures spawned == Grants(old(lock.m), KeyOf(d.name), stamp, now)
      ensures spawned ==>
                && store.rows == old(store.rows)[old(store.nextId) := NewRow(ChildOf(d, stamp), old(store.nextId), later)]
                && store.rows[old(store.nextId)]
                   == Task(old(store.nextId), d.name + "#" + stamp, d.command, Once, "", Pending, d.maxRetry, 0, d.timeoutSec,
                           "", d.id, true, "", later, later, later)
                && store.nextId == old(store.nextId) + 1
                && lock.m == old(lock.m) - {KeyOf(d.name)}
      ensures !spawned ==>
                store.rows == old(store.rows) && store.nextId == old(store.nextId) && lock.m == old(lock.m)
    {
      var key := KeyOf(d.name);
      spawned := lock.Acquire(key, stamp, SPAWN_TTL, now);
      if !spawned {
        return;
      }
      var child := Task(0, d.name + "#" + stamp, d.command, Once, "", Pending, d.maxRetry, 0, d.timeoutSec, "", d.id, false, "", 0, 0, 0);
      var _ := store.Create(child, later);
      lock.Release(key, stamp);
    }
  }
}

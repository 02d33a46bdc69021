/** The live-worker registry (internal/server/server.go): stale entries are dropped
    lazily, which no caller can notice. */
module Registry {
  import opened Tasks

  datatype WorkerInfo = WorkerInfo(
    id: string,
    totalSlots: int,
    activeCount: int,
    runningTasks: seq<int>,
    startedAt: Time,
    lastHeartbeat: Time)

  const STALE_AFTER: Time := 60 * SECOND

  type Entries = map<string, WorkerInfo>

  predicate Fresh(w: WorkerInfo, now: Time) {
    w.lastHeartbeat >= now - STALE_AFTER
  }

  function Live(entries: Entries, now: Time): Entries {
    map id | id in entries && Fresh(entries[id], now) :: entries[id]
  }

  // ---- the whole history ------------------------------------------------------------

  datatype Op = Beat(info: WorkerInfo) | Look

  datatype Run = Start | Then(prev: Run, now: Time, op: Op)

  function After(r: Run): Entries {
    match r
    case Start => map[]
    case Then(p, now, Beat(info)) => After(p)[info.id := info.(lastHeartbeat := now)]
    case Then(p, now, Look) => Live(After(p), now)
  }

  predicate Timed(r: Run) {
    r.Then? ==> Timed(r.prev) && (r.prev.Then? ==> r.prev.now <= r.now)
  }

  /** The last heartbeat of a worker in the full history, however old. */
  function Latest(r: Run, id: string): Option<WorkerInfo> {
    match r
    case Start => None
    case Then(p, now, Beat(info)) => if info.id == id then Some(info.(lastHeartbeat := now)) else Latest(p, id)
    case Then(p, _, Look) => Latest(p, id)
  }

  /** A listing shows a worker exactly when its latest heartbeat in the full history
      is at most a minute old, and shows that heartbeat. */
  lemma {:induction false} ListingMatchesHistory(r: Run, id: string, now: Time)
    requires Timed(r) && (r.Then? ==> r.now <= now)
    ensures id in Live(After(r), now) <==> Latest(r, id).Some? && Fresh(Latest(r, id).value, now)
    ensures id in After(r) ==> Latest(r, id) == Some(After(r)[id])
    ensures id !in After(r) && Latest(r, id).Some? ==> !Fresh(Latest(r, id).value, now)
  {
    if r.Then? {
      ListingMatchesHistory(r.prev, id, r.now);
    }
  }

  lemma {:induction false} LatestIsItsOwn(r: Run, id: string)
    ensures Latest(r, id).Some? ==> Latest(r, id).value.id == id
  {
    if r.Then? {
      LatestIsItsOwn(r.prev, id);
    }
  }

  // ---- the registry ---------------------------------------------------------------

  class WorkerRegistry {
    var entries: Entries

    /** The heartbeats and listings so far. */
    ghost var history: Run

    /** The entries are what the recorded run leaves. */
    ghost predicate Valid()
      reads this
    {
      Timed(history) && After(history) == entries
    }

    ghost predicate NotBefore(now: Time)
      reads this
    {
      history.Then? ==> history.now <= now
    }

    constructor ()
      ensures Valid() && history == Start
    {
      entries := map[];
      history := Start;
    }

    method Heartbeat(info: WorkerInfo, now: Time)
      requires Valid() && NotBefore(now)
      modifies this
      ensures Valid() && history == Then(old(history), now, Beat(info))
    {
      entries := entries[info.id := info.(lastHeartbeat := now)];
      history := Then(history, now, Beat(info));
    }

    /** Drop the stale entries and return the rest, one per worker, in no particular
        order: the workers whose latest heartbeat ever was at most a minute ago. */
    method List(now: Time) returns (out: seq<WorkerInfo>)
      requires Valid() && NotBefore(now)
      modifies this
      ensures Valid() && history == Then(old(history), now, Look)
      ensures forall w :: w in out <==> Latest(old(history), w.id) == Some(w) && now - w.lastHeartbeat <= 60 * SECOND
      ensures forall i, j :: 0 <= i < j < |out| ==> out[i].id != out[j].id
    {
      ghost var was := entries;
      forall id | id in was ensures Latest(history, id) == Some(was[id]) && was[id].id == id {
        ListingMatchesHistory(history, id, now);
        LatestIsItsOwn(history, id);
      }
      var cutoff := now - STALE_AFTER;
      out := [];
      var todo := entries.Keys;
      while todo != {}
        invariant todo <= was.Keys
        invariant forall id :: id in entries <==> id in was && (id in todo || Fresh(was[id], now))
        invariant forall id :: id in entries ==> entries[id] == was[id]
        invariant forall w :: w in out <==> w.id in entries && w.id !in todo && entries[w.id] == w
        invariant forall i, j :: 0 <= i < j < |out| ==> out[i].id != out[j].id
        invariant history == old(history)
        decreases todo
      {
        var id :| id in todo;
        var w := entries[id];
        todo := todo - {id};
        if w.lastHeartbeat < cutoff {
          entries := entries - {id};
        } else {
          assert forall i :: 0 <= i < |out| ==> out[i] in out;
          out := out + [w];
        }
      }
      assert entries == Live(was, now);
      forall w: WorkerInfo ensures w.id in entries && entries[w.id] == w <==> Latest(history, w.id) == Some(w) && Fresh(w, now) {
        ListingMatchesHistory(history, w.id, now);
      }
      history := Then(history, now, Look);
    }
  }
}

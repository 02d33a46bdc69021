/** The task store (internal/store/store.go). Each method is one transaction; the
    loops stand for the table scans behind the SQL statements, in rowid order. */
module Store {
  import opened Tasks
  import opened Lifecycle
  import opened Filters
  import opened Paging

  datatype Err = Nil | NotFound | NotOwner

  /** A scan that has passed the ids below i, turning was into goal. */
  ghost predicate Swept(was: Rows, rows: Rows, goal: Rows, i: int) {
    && rows.Keys == was.Keys == goal.Keys
    && forall j :: j in was ==> rows[j] == if j < i then goal[j] else was[j]
  }

  lemma SweptAll(was: Rows, rows: Rows, goal: Rows, n: int)
    requires Swept(was, rows, goal, n) && forall j :: j in was ==> j < n
    ensures rows == goal
  {
    forall j | j in rows ensures rows[j] == goal[j] {
      assert j in was;
    }
  }

  lemma SweepOne(was: Rows, rows: Rows, rows': Rows, goal: Rows, i: int)
    requires Swept(was, rows, goal, i) && (rows' == rows || (i in rows && rows' == rows[i := goal[i]]))
    requires i in was ==> rows'[i] == goal[i]
    ensures Swept(was, rows', goal, i + 1)
  {
  }

  lemma {:induction false} CountIsCardinality(rows: Rows, n: int, p: Task -> bool)
    ensures CountBelow(rows, n, p) == |set id | id in rows && 1 <= id < n && p(rows[id])|
  {
    var counted := set id | id in rows && 1 <= id < n && p(rows[id]);
    if n <= 1 {
      assert counted == {};
    } else {
      CountIsCardinality(rows, n - 1, p);
      var rest := set id | id in rows && 1 <= id < n - 1 && p(rows[id]);
      assert counted == if n - 1 in rows && p(rows[n - 1]) then rest + {n - 1} else rest;
    }
  }

  lemma DefinitionsAreCounted(rows: Rows, n: int)
    requires forall id :: id in rows ==> 1 <= id < n
    ensures CountBelow(rows, n, IsCron) == |set id | id in rows && rows[id].kind.Cron?|
  {
    CountIsCardinality(rows, n, IsCron);
    var p := IsCron;
    assert (set id | id in rows && 1 <= id < n && p(rows[id])) == (set id | id in rows && rows[id].kind.Cron?);
  }

  lemma ChildrenAreCounted(rows: Rows, n: int)
    requires forall id :: id in rows ==> 1 <= id < n
    ensures CountBelow(rows, n, AnyChildInFlight)
            == |set id | id in rows && rows[id].parentId > 0 && (rows[id].status.Pending? || rows[id].status.Running?)|
  {
    CountIsCardinality(rows, n, AnyChildInFlight);
    var p := AnyChildInFlight;
    assert (set id | id in rows && 1 <= id < n && p(rows[id]))
        == (set id | id in rows && rows[id].parentId > 0 && (rows[id].status.Pending? || rows[id].status.Running?));
  }

  /** What the shutdown sweep does at one id. */
  lemma SweepChild(was: Rows, rows: Rows, i: int, now: Time)
    requires Swept(was, rows, StopChildrenRows(was, now), i)
    ensures i in rows <==> i in was
    ensures
      i in was ==>
        && rows[i] == was[i]
        && StopChildrenRows(was, now)[i] == if AnyChildInFlight(was[i]) then StopRow(was[i], "stopped: cron shutdown", now) else was[i]
  {
  }

  class Store {
    var rows: Rows
    var nextId: int
    const like: Like

    /** Ids start at 1 and are handed out once, in order. */
    ghost predicate Valid()
      reads this
    {
      1 <= nextId && forall id :: id in rows ==> 1 <= id < nextId && rows[id].id == id
    }

    constructor (like: Like)
      ensures Valid() && rows == map[] && nextId == 1 && this.like == like
    {
      rows, nextId, this.like := map[], 1, like;
    }

    method Create(draft: Task, now: Time) returns (t: Task)
      requires Valid()
      modifies this
      ensures Valid() && nextId == old(nextId) + 1
      ensures rows == old(rows)[old(nextId) := NewRow(draft, old(nextId), now)] && t == rows[old(nextId)]
      ensures t == draft.(id := old(nextId), createdAt := now, updatedAt := now, enabled := true,
                          nextRunAt := if draft.nextRunAt == 0 then now else draft.nextRunAt)
    {
      t := draft.(createdAt := now, updatedAt := now, enabled := true, id := nextId);
      if t.nextRunAt == 0 {
        t := t.(nextRunAt := now);
      }
      rows := rows[nextId := t];
      nextId := nextId + 1;
    }

    method Delete(id: int)
      requires Valid()
      modifies this`rows
      ensures Valid() && rows == old(rows) - {id}
    {
      rows := rows - {id};
    }

    /** The second statement of the pause transaction. */
    method StopChildrenOf(id: int, now: Time)
      requires Valid()
      modifies this`rows
      ensures Valid() && rows == PauseChildren(old(rows), id, now)
    {
      ghost var was := rows;
      for i := 1 to nextId
        invariant Swept(was, rows, PauseChildren(was, id, now), i)
      {
        ghost var before := rows;
        if i in rows && rows[i].parentId == id && (rows[i].status == Pending || rows[i].status == Running) {
          rows := rows[i := rows[i].(status := Stopped, result := "stopped: cron paused", updatedAt := now)];
        }
        SweepOne(was, before, rows, PauseChildren(was, id, now), i);
      }
      SweptAll(was, rows, PauseChildren(was, id, now), nextId);
    }

    method SetEnabled(id: int, on: bool, now: Time) returns (err: Err)
      requires Valid()
      modifies this`rows
      ensures Valid() && rows == SetEnabledRows(old(rows), id, on, now)
      ensures forall i :: i in old(rows) ==> i in rows && rows[i].enabled == if i == id then on else old(rows)[i].enabled
      ensures err == (if id in old(rows) then Nil else NotFound)
    {
      if id !in rows {
        return NotFound;
      }
      rows := rows[id := rows[id].(enabled := on, updatedAt := now)];
      if !on {
        StopChildrenOf(id, now);
      }
      err := Nil;
    }

    method Get(id: int) returns (t: Option<Task>)
      ensures t == if id in rows then Some(rows[id]) else None
    {
      t := if id in rows then Some(rows[id]) else None;
    }

    method DisableDefinitions(now: Time) returns (paused: nat)
      requires Valid()
      modifies this`rows
      ensures Valid() && rows == DisableCronRows(old(rows), now)
      ensures paused == CountBelow(old(rows), nextId, IsCron)
    {
      ghost var was := rows;
      paused := 0;
      for i := 1 to nextId
        invariant Swept(was, rows, DisableCronRows(was, now), i)
        invariant paused == CountBelow(was, i, IsCron)
      {
        ghost var before := rows;
        if i in rows && rows[i].kind == Cron {
          rows := rows[i := rows[i].(enabled := false, updatedAt := now)];
          paused := paused + 1;
        }
        SweepOne(was, before, rows, DisableCronRows(was, now), i);
      }
      SweptAll(was, rows, DisableCronRows(was, now), nextId);
    }

    method StopChildrenOfAll(now: Time) returns (stopped: nat)
      requires Valid()
      modifies this`rows
      ensures Valid() && rows == StopChildrenRows(old(rows), now)
      ensures stopped == CountBelow(old(rows), nextId, AnyChildInFlight)
    {
      ghost var was := rows;
      stopped := 0;
      for i := 1 to nextId
        invariant Swept(was, rows, StopChildrenRows(was, now), i)
        invariant stopped == CountBelow(was, i, AnyChildInFlight)
      {
        ghost var before := rows;
        SweepChild(was, before, i, now);
        if i in rows && rows[i].parentId > 0 && (rows[i].status == Pending || rows[i].status == Running) {
          rows := rows[i := rows[i].(status := Stopped, result := "stopped: cron shutdown", updatedAt := now)];
          stopped := stopped + 1;
        }
        SweepOne(was, before, rows, StopChildrenRows(was, now), i);
      }
      SweptAll(was, rows, StopChildrenRows(was, now), nextId);
    }

    /** Disable every definition, then stop every child in flight, counting both: two
        statements, each with its own clock reading. */
    method StopAllCron(now: Time, later: Time) returns (pausedDefs: nat, stoppedChildren: nat)
      requires Valid()
      modifies this`rows
      ensures Valid() && rows == StopChildrenRows(DisableCronRows(old(rows), now), later)
      ensures pausedDefs == |set id | id in old(rows) && old(rows)[id].kind.Cron?|
      ensures stoppedChildren
              == |set id | id in old(rows) && old(rows)[id].parentId > 0 && (old(rows)[id].status.Pending? || old(rows)[id].status.Running?)|
    {
      pausedDefs := DisableDefinitions(now);
      stoppedChildren := StopChildrenOfAll(later);
      ghost var was, disabled := old(rows), DisableCronRows(old(rows), now);
      DefinitionsAreCounted(was, nextId);
      ChildrenAreCounted(disabled, nextId);
      assert (set id | id in disabled && disabled[id].parentId > 0 && (disabled[id].status.Pending? || disabled[id].status.Running?))
          == (set id | id in was && was[id].parentId > 0 && (was[id].status.Pending? || was[id].status.Running?));
    }

    method StopTask(id: int, now: Time) returns (err: Err)
      requires Valid()
      modifies this`rows
      ensures Valid() && rows == StopRows(old(rows), id, now)
      ensures err == (if id in old(rows) && Active(old(rows)[id]) then Nil else NotFound)
    {
      if id in rows && (rows[id].status == Pending || rows[id].status == Running) {
        rows := rows[id := rows[id].(status := Stopped, result := "stopped by user", updatedAt := now)];
        return Nil;
      }
      err := NotFound;
    }

    method ResumeTask(id: int, now: Time) returns (err: Err)
      requires Valid()
      modifies this`rows
      ensures Valid() && rows == ResumeRows(old(rows), id, now)
      ensures err == (if id in old(rows) && old(rows)[id].status.Stopped? then Nil else NotFound)
    {
      if id in rows && rows[id].status == Stopped {
        rows := rows[id := rows[id].(status := Pending, workerId := "", result := "", updatedAt := now, nextRunAt := now)];
        return Nil;
      }
      err := NotFound;
    }

    /** The stopped rows a worker is attached to, each once. */
    method GetStopList(workerId: string) returns (ids: seq<int>)
      requires Valid()
      ensures forall id :: id in ids <==> Listed(rows, id, workerId)
      ensures forall id :: id in ids <==> id in rows && rows[id].workerId == workerId && rows[id].status.Stopped?
      ensures forall i, j :: 0 <= i < j < |ids| ==> ids[i] < ids[j]
    {
      ids := [];
      for id := 1 to nextId
        invariant forall j :: j in ids <==> j < id && Listed(rows, j, workerId)
        invariant forall i, j :: 0 <= i < j < |ids| ==> ids[i] < ids[j]
      {
        if id in rows && rows[id].workerId == workerId && rows[id].status == Stopped {
          assert forall i :: 0 <= i < |ids| ==> ids[i] in ids;
          ids := ids + [id];
        }
      }
    }

    /** Claim an earliest due one-shot row, or report that nothing is due. */
    method ClaimPending(workerId: string, now: Time) returns (t: Option<Task>)
      requires Valid()
      modifies this`rows
      ensures Valid()
      ensures t.None? ==> NothingDue(old(rows), now) && rows == old(rows)
      ensures t.None? <==> forall j :: j in old(rows) ==> !(old(rows)[j].kind.Once? && old(rows)[j].status.Pending? && old(rows)[j].nextRunAt <= now)
      ensures t.Some? ==>
                && EarliestDue(old(rows), now, t.value.id)
                && rows == ClaimRows(old(rows), t.value.id, workerId, now)
                && t.value.(updatedAt := now) == rows[t.value.id]
                && t.value == old(rows)[t.value.id].(status := Running, workerId := workerId)
    {
      var best := 0;
      for id := 1 to nextId
        invariant best == 0 ==> forall j :: j in rows && j < id ==> !Due(rows[j], now)
        invariant best != 0 ==>
          && best in rows && Due(rows[best], now)
          && forall j :: j in rows && j < id && Due(rows[j], now) ==> rows[best].nextRunAt <= rows[j].nextRunAt
      {
        if id in rows && rows[id].kind == Once && rows[id].status == Pending && rows[id].nextRunAt <= now {
          if best == 0 || rows[id].nextRunAt < rows[best].nextRunAt {
            best := id;
          }
        }
      }
      if best == 0 {
        return None;
      }
      var found := rows[best];
      rows := rows[best := found.(status := Running, workerId := workerId, updatedAt := now)];
      t := Some(found.(status := Running, workerId := workerId));
    }

    method ReportResult(o: Outcome, now: Time) returns (err: Err)
      requires Valid()
      modifies this`rows
      ensures Valid() && rows == ReportRows(old(rows), o, now)
      ensures o.taskId in old(rows) && old(rows)[o.taskId].workerId == o.workerId && old(rows)[o.taskId].status.Running?
              && !o.success && old(rows)[o.taskId].retryCount < old(rows)[o.taskId].maxRetry ==>
              var t := old(rows)[o.taskId];
              rows == old(rows)[o.taskId := t.(
                status := Pending, workerId := "", retryCount := t.retryCount + 1, result := o.output, updatedAt := now,
                nextRunAt := now + (t.retryCount + 1) * 5_000_000_000)]
      ensures err == if o.taskId !in old(rows) then NotFound
                     else if old(rows)[o.taskId].workerId != o.workerId then NotOwner else Nil
    {
      if o.taskId !in rows {
        return NotFound;
      }
      var t := rows[o.taskId];
      if t.workerId != o.workerId {
        return NotOwner;
      }
      if t.status == Stopped {
        rows := rows[o.taskId := t.(workerId := "")];
        return Nil;
      }
      var newRetry := t.retryCount;
      if !o.success {
        newRetry := t.retryCount + 1;
      }
      var newStatus := if o.success then Success else if newRetry > t.maxRetry then Dead else Pending;
      if newStatus == Pending {
        if t.status == Running {
          rows := rows[o.taskId := t.(status := newStatus, retryCount := newRetry, result := o.output, workerId := "",
                                      updatedAt := now, nextRunAt := now + newRetry * 5 * SECOND)];
        }
      } else {
        rows := rows[o.taskId := t.(status := newStatus, retryCount := newRetry, result := o.output,
                                    workerId := o.workerId, updatedAt := now)];
      }
      err := Nil;
    }

    /** The definitions the scheduler turns into entries, in id order. */
    method ListCron() returns (defs: seq<Task>)
      requires Valid()
      ensures forall d :: d in defs <==> d.id in rows && rows[d.id] == d && d.kind.Cron? && d.enabled
      ensures forall i, j :: 0 <= i < j < |defs| ==> defs[i].id < defs[j].id
    {
      defs := [];
      for id := 1 to nextId
        invariant forall d :: d in defs <==> d.id in rows && d.id < id && rows[d.id] == d && Schedulable(d)
        invariant forall i, j :: 0 <= i < j < |defs| ==> defs[i].id < defs[j].id
      {
        if id in rows && rows[id].kind == Cron && rows[id].enabled {
          assert forall i :: 0 <= i < |defs| ==> defs[i] in defs;
          defs := defs + [rows[id]];
        }
      }
    }

    /** Everything the filter describes, newest first. */
    ghost function Listing(filter: Option<ListFilter>): seq<Task>
      requires 0 <= nextId
      reads this
    {
      MatchingDesc(rows, nextId, if filter.Some? then filter.value else NO_FILTER, like)
    }

    method List(filter: Option<ListFilter>, offset: int, limit: int) returns (out: seq<Task>)
      requires Valid()
      ensures out == Window(Listing(filter), Max(0, offset), EffectiveLimit(limit))
      ensures IsStretch(Listing(filter), if offset < 0 then 0 else offset, if 1 <= limit <= 500 then limit else 100, out)
    {
      var max := if limit <= 0 || limit > 500 then 100 else limit;
      var skip := if offset < 0 then 0 else offset;
      var conds, args := BuildWhere(filter);
      ghost var f := if filter.Some? then filter.value else NO_FILTER;
      ghost var all, seen: seq<Task> := Listing(filter), [];
      var count := 0;
      out := [];
      for id := nextId downto 1
        invariant seen + MatchingDesc(rows, id, f, like) == all
        invariant count == |seen| && out == Window(seen, skip, max)
      {
        MatchingDescHead(rows, id, f, like, seen);
        assert id in rows ==> (Evaluate(conds, args, rows[id], like) == Some(true) <==> Matches(f, rows[id], like));
        if id in rows && Evaluate(conds, args, rows[id], like) == Some(true) {
          WindowGrows(seen, rows[id], skip, max);
          if count >= skip && |out| < max {
            out := out + [rows[id]];
          }
          seen := seen + [rows[id]];
          count := count + 1;
        }
      }
      assert seen == all by {
        assert MatchingDesc(rows, 1, f, like) == [];
      }
      assert out == Window(all, skip, max) && IsStretch(all, skip, max, out) by {
        WindowIsStretch(all, skip, max);
      }
    }

    method Count(filter: Option<ListFilter>) returns (n: nat)
      requires Valid()
      ensures n == |Listing(filter)|
    {
      var conds, args := BuildWhere(filter);
      ghost var f := if filter.Some? then filter.value else NO_FILTER;
      n := 0;
      for id := nextId downto 1
        invariant n + |MatchingDesc(rows, id, f, like)| == |Listing(filter)|
      {
        if id in rows && Evaluate(conds, args, rows[id], like) == Some(true) {
          n := n + 1;
        }
      }
      assert MatchingDesc(rows, 1, f, like) == [];
    }
  }
}

/** What holds of every table the server can reach: who owns a row in each
    status, the shape of cron rows, and the parent relation. */
module Ownership {
  import opened Tasks
  import opened Lifecycle
  import opened Protocol

  predicate RowOk(t: Task) {
    && (t.status.Pending? ==> t.workerId == "")
    && (t.status.Running? || Terminal(t) ==> t.workerId != "")
    && !t.status.Failed?
    && (t.status.Dead? ==> t.retryCount > t.maxRetry)
    && (t.kind.Cron? ==> (t.status.Pending? || t.status.Stopped?) && t.workerId == "" && t.retryCount == 0 && t.parentId == 0)
    && 0 <= t.parentId < t.id
    && 0 <= t.retryCount
  }

  ghost predicate TableOk(s: State) {
    && 1 <= s.nextId
    && (forall id :: id in s.rows ==> 1 <= id < s.nextId && s.rows[id].id == id && RowOk(s.rows[id]))
    // the parent relation has depth one: a parent that still exists is a cron row
    && (forall id :: id in s.rows && s.rows[id].parentId in s.rows ==> s.rows[s.rows[id].parentId].kind.Cron?)
    && (forall d :: d in s.entries ==> 1 <= d.id < s.nextId && d.kind.Cron? && (d.id in s.rows ==> s.rows[d.id].kind.Cron?))
  }

  lemma RowStaysOk(s: State, now: Time, ev: Event, id: int)
    requires TableOk(s) && Possible(s, now, ev)
    requires ev.Report? ==> ev.outcome.workerId != ""
    requires id in Apply(s, now, ev).rows
    ensures
      var s' := Apply(s, now, ev);
      1 <= id < s'.nextId && s'.rows[id].id == id && RowOk(s'.rows[id])
    ensures id in s.rows ==>
      var t, t' := s.rows[id], Apply(s, now, ev).rows[id];
      t'.kind == t.kind && t'.parentId == t.parentId && t'.maxRetry == t.maxRetry
  {
    if id in s.rows {
      RowCases(s, now, ev, id);
    } else {
      NewRows(s, now, ev, id);
    }
  }

  lemma StepKeepsTable(s: State, now: Time, ev: Event)
    requires TableOk(s) && Possible(s, now, ev)
    requires ev.Report? ==> ev.outcome.workerId != ""
    ensures TableOk(Apply(s, now, ev))
  {
    var s' := Apply(s, now, ev);
    forall id | id in s'.rows
      ensures 1 <= id < s'.nextId && s'.rows[id].id == id && RowOk(s'.rows[id])
      ensures s'.rows[id].parentId in s'.rows ==> s'.rows[s'.rows[id].parentId].kind.Cron?
    {
      RowStaysOk(s, now, ev, id);
      var p := s'.rows[id].parentId;
      if p in s'.rows {
        RowStaysOk(s, now, ev, p);
        if p !in s.rows {
          NewRows(s, now, ev, p);
        }
        if id !in s.rows {
          NewRows(s, now, ev, id);
        }
      }
    }
    forall d | d in s'.entries
      ensures 1 <= d.id < s'.nextId && d.kind.Cron? && (d.id in s'.rows ==> s'.rows[d.id].kind.Cron?)
    {
      if ev.Resync? {
        var i :| i in s.rows && Schedulable(s.rows[i]) && s.rows[i] == d;
      } else if d.id in s'.rows {
        RowStaysOk(s, now, ev, d.id);
        if d.id !in s.rows {
          NewRows(s, now, ev, d.id);
        }
      }
    }
  }

  /** Every reachable table is well owned and well shaped. */
  lemma {:induction false} TableInvariant(r: Run)
    requires Valid(r) && Honest(r)
    ensures TableOk(After(r))
  {
    match r
    case Start =>
    case Then(p, now, ev) =>
      TableInvariant(p);
      StepKeepsTable(After(p), now, ev);
  }

  /** The worker of the latest claim of an id. */
  function LatestClaimer(r: Run, id: int): Option<string> {
    match r
    case Start => None
    case Then(p, _, ev) => if ev.Claim? && ev.got == Some(id) then Some(ev.worker) else LatestClaimer(p, id)
  }

  /** An attached worker is always the one that claimed the row last. */
  lemma {:induction false} OwnerIsLatestClaimer(r: Run, id: int)
    requires Valid(r) && Honest(r) && id in After(r).rows
    ensures
      var t := After(r).rows[id];
      && (t.workerId != "" ==> LatestClaimer(r, id) == Some(t.workerId))
      && (t.status.Running? || Terminal(t) ==> LatestClaimer(r, id) == Some(t.workerId))
      && (t.status.Pending? ==> t.workerId == "")
  {
    TableInvariant(r);
    match r
    case Start =>
    case Then(p, now, ev) =>
      TableInvariant(p);
      if id in After(p).rows {
        OwnerIsLatestClaimer(p, id);
        RowCases(After(p), now, ev, id);
      } else {
        NewRows(After(p), now, ev, id);
      }
  }

  /** A deleted id never comes back. */
  lemma {:induction false} IdsAreNeverReused(p: Run, r: Run, id: int)
    requires Extends(p, r) && Valid(r)
    requires id < After(p).nextId && id !in After(p).rows
    ensures id !in After(r).rows
  {
    if p != r {
      ExtendsValid(p, r.prev);
      IdsAreNeverReused(p, r.prev, id);
      if id in After(r).rows {
        NewRows(After(r.prev), r.now, r.ev, id);
      }
    }
  }

  /** Outcomes form a set that is never left, whatever reports arrive: a success
      or dead row stays success or dead until it is deleted. */
  lemma {:induction false} OutcomeSetIsNeverLeft(p: Run, r: Run, id: int)
    requires Extends(p, r) && Valid(r)
    requires id in After(p).rows && Terminal(After(p).rows[id])
    requires id in After(r).rows
    ensures Terminal(After(r).rows[id])
  {
    if p != r {
      if id !in After(r.prev).rows {
        ExtendsValid(p, r.prev);
        KnownIds(p, id);
        IdsAreNeverReused(r.prev, r, id);
      }
      KnownIds(r.prev, id);
      OutcomeSetIsNeverLeft(p, r.prev, id);
      RowCases(After(r.prev), r.now, r.ev, id);
    }
  }

  /** The result endpoint takes a report with an empty worker id. A pending row, which
      nobody has claimed, is safe from a reporter, whatever it sends, exactly when the
      reporter names itself. */
  lemma PendingRowIsSafeIff(rows: Rows, id: int, worker: string, now: Time)
    requires id in rows && rows[id].status.Pending? && rows[id].workerId == ""
    ensures
      (forall success, output :: ReportRows(rows, Outcome(id, worker, success, output), now) == rows) <==> worker != ""
  {
    if worker == "" {
      assert ReportRows(rows, Outcome(id, worker, true, ""), now)[id].status.Success?;
      assert ReportRows(rows, Outcome(id, worker, true, ""), now) != rows;
    }
  }

  /** r continues p, and in between nobody restarts or deletes the row. */
  predicate LeftStopped(p: Run, r: Run, id: int) {
    p == r || (r.Then? && LeftStopped(p, r.prev, id) && r.ev != Restart(id) && r.ev != Delete(id))
  }

  /** A stop takes precedence over every outcome: whatever reports arrive, a stopped row
      stays stopped, with the reason it was stopped for, until restarted or deleted. */
  lemma {:induction false} StopTakesPrecedence(p: Run, r: Run, id: int)
    requires Valid(r) && LeftStopped(p, r, id)
    requires id in After(p).rows && After(p).rows[id].status.Stopped?
    ensures id in After(r).rows && After(r).rows[id].status.Stopped?
    ensures After(r).rows[id].result == After(p).rows[id].result
  {
    if p != r {
      StopTakesPrecedence(p, r.prev, id);
      KnownIds(r.prev, id);
      StepKeepsStopped(After(r.prev), r.now, r.ev, id);
    }
  }

  lemma StepKeepsStopped(s: State, now: Time, ev: Event, id: int)
    requires Possible(s, now, ev) && id in s.rows && id < s.nextId && s.rows[id].status.Stopped?
    requires ev != Restart(id) && ev != Delete(id)
    ensures id in Apply(s, now, ev).rows && Apply(s, now, ev).rows[id].status.Stopped?
    ensures Apply(s, now, ev).rows[id].result == s.rows[id].result
  {
    assert id in Apply(s, now, ev).rows;
    RowCases(s, now, ev, id);
  }
}

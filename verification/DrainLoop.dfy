/** One worker against the store: pull, execute, report, and wait when nothing is
    due (the cycle of fetch and runTask in internal/worker/pool.go). */
module DrainLoop {
  import opened Tasks
  import opened Lifecycle
  import opened Store
  import opened Drain

  predicate NoneRunning(rows: Rows) {
    forall id :: id in rows && rows[id].kind.Once? ==> !rows[id].status.Running?
  }

  /** What a drained row looks like: rows that were waiting have an outcome, every
      other row is untouched. */
  predicate Settled(t: Task, t': Task) {
    if t.kind.Once? && t.status.Pending? then t'.kind.Once? && (Terminal(t') || t'.status.Pending?) else t' == t
  }

  predicate AllSettled(was: Rows, rows: Rows) {
    rows.Keys == was.Keys && forall id :: id in was ==> Settled(was[id], rows[id])
  }

  lemma AttemptLowersRank(rows: Rows, n: nat, id: int, worker: string, o: Outcome, now: Time, later: Time)
    requires id in rows && 0 <= id < n && Due(rows[id], now)
    requires o.taskId == id && o.workerId == worker
    ensures RankBelow(ReportRows(ClaimRows(rows, id, worker, now), o, later), n) < RankBelow(rows, n)
  {
    var rows' := ReportRows(ClaimRows(rows, id, worker, now), o, later);
    assert Weight(rows', id) < Weight(rows, id);
    forall i | 0 <= i < n ensures Weight(rows', i) <= Weight(rows, i) {
    }
    RankDrops(rows, rows', n, id);
  }

  lemma AttemptSettles(was: Rows, rows: Rows, id: int, worker: string, o: Outcome, now: Time, later: Time)
    requires AllSettled(was, rows) && NoneRunning(rows) && id in rows && Due(rows[id], now)
    requires o.taskId == id && o.workerId == worker
    ensures
      var rows' := ReportRows(ClaimRows(rows, id, worker, now), o, later);
      AllSettled(was, rows') && NoneRunning(rows')
  {
    var rows' := ReportRows(ClaimRows(rows, id, worker, now), o, later);
    assert rows'[id] == ReportRow(ClaimRow(rows[id], worker, now), o, later);
    assert forall i :: i in rows && i != id ==> rows'[i] == rows[i];
  }

  /** An instant at which some waiting row is due. */
  method NextDue(store: Store, now: Time) returns (at: Option<Time>)
    requires store.Valid() && NothingDue(store.rows, now)
    ensures at.None? ==> forall id :: id in store.rows && store.rows[id].kind.Once? ==> !store.rows[id].status.Pending?
    ensures at.Some? ==> now < at.value && !NothingDue(store.rows, at.value)
  {
    at := None;
    for id := 1 to store.nextId
      invariant at.None? ==> forall j :: j in store.rows && j < id && store.rows[j].kind.Once? ==> !store.rows[j].status.Pending?
      invariant at.Some? ==> now < at.value && exists j :: j in store.rows && Due(store.rows[j], at.value)
    {
      if id in store.rows && store.rows[id].kind == Once && store.rows[id].status == Pending {
        at := Some(store.rows[id].nextRunAt);
        assert !Due(store.rows[id], now) && Due(store.rows[id], at.value);
      }
    }
  }

  /** The n-th execution yields result(n): success, output and how long it took.
      With no new work and nothing running elsewhere, the cycle of a single slot ends,
      whatever its executions yield one after the other and however long each takes, with
      every waiting row finished and every other row as it was. */
  method DrainStore(store: Store, worker: string, start: Time, result: nat -> (bool, string, nat)) returns (now: Time)
    requires store.Valid() && NoneRunning(store.rows)
    modifies store`rows
    ensures store.Valid() && Drained(store.rows) && AllSettled(old(store.rows), store.rows) && now >= start
  {
    now := start;
    var n: nat := 0;
    while true
      invariant store.Valid() && NoneRunning(store.rows) && now >= start
      invariant AllSettled(old(store.rows), store.rows)
      decreases RankBelow(store.rows, store.nextId), if NothingDue(store.rows, now) then 1 else 0
    {
      ghost var before := store.rows;
      var got := store.ClaimPending(worker, now);
      if got.Some? {
        var t := got.value;
        var outcome := Outcome(t.id, worker, result(n).0, result(n).1);
        var ended := now + result(n).2;
        n := n + 1;
        var err := store.ReportResult(outcome, ended);
        AttemptSettles(old(store.rows), before, t.id, worker, outcome, now, ended);
        AttemptLowersRank(before, store.nextId, t.id, worker, outcome, now, ended);
        now := ended;
      } else {
        var next := NextDue(store, now);
        if next.None? {
          return;
        }
        now := next.value;
      }
    }
  }
}

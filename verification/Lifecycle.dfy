/** What each transaction of internal/store/store.go does to the table, as
    functions on the rows. Class Store computes them; module Protocol runs them. */
module Lifecycle {
  import opened Tasks

  type Rows = map<int, Task>

  // ---- one row ---------------------------------------------------------------

  function StopRow(t: Task, why: string, now: Time): Task {
    t.(status := Stopped, result := why, updatedAt := now)
  }

  function ResumeRow(t: Task, now: Time): Task {
    t.(status := Pending, workerId := "", result := "", updatedAt := now, nextRunAt := now)
  }

  function ClaimRow(t: Task, worker: string, now: Time): Task {
    t.(status := Running, workerId := worker, updatedAt := now)
  }

  function RetryDelay(n: int): Time {
    n * 5 * SECOND
  }

  /** The row after its owner reported. The terminal branch has no status guard;
      the retry branch only touches a running row. */
  function ReportRow(t: Task, o: Outcome, now: Time): Task {
    if t.status.Stopped? then
      t.(workerId := "")
    else if o.success then
      t.(status := Success, result := o.output, workerId := o.workerId, updatedAt := now)
    else if t.retryCount + 1 > t.maxRetry then
      t.(status := Dead, retryCount := t.retryCount + 1, result := o.output, workerId := o.workerId, updatedAt := now)
    else if t.status.Running? then
      t.(status := Pending, retryCount := t.retryCount + 1, result := o.output, workerId := "",
         updatedAt := now, nextRunAt := now + RetryDelay(t.retryCount + 1))
    else
      t
  }

  // ---- the table -------------------------------------------------------------

  function NewRow(draft: Task, id: int, now: Time): Task {
    draft.(id := id, createdAt := now, updatedAt := now, enabled := true,
           nextRunAt := if draft.nextRunAt == 0 then now else draft.nextRunAt)
  }

  function ToggleRows(rows: Rows, id: int, on: bool, now: Time): Rows {
    if id !in rows then rows else rows[id := rows[id].(enabled := on, updatedAt := now)]
  }

  predicate ChildInFlight(t: Task, parent: int) {
    t.parentId == parent && Active(t)
  }

  function PauseChildren(rows: Rows, parent: int, now: Time): Rows {
    map i | i in rows :: if ChildInFlight(rows[i], parent) then StopRow(rows[i], "stopped: cron paused", now) else rows[i]
  }

  function SetEnabledRows(rows: Rows, id: int, on: bool, now: Time): Rows {
    var toggled := ToggleRows(rows, id, on, now);
    if id in rows && !on then PauseChildren(toggled, id, now) else toggled
  }

  predicate IsCron(t: Task) {
    t.kind.Cron?
  }

  function DisableCronRows(rows: Rows, now: Time): Rows {
    map i | i in rows :: if rows[i].kind.Cron? then rows[i].(enabled := false, updatedAt := now) else rows[i]
  }

  predicate AnyChildInFlight(t: Task) {
    t.parentId > 0 && Active(t)
  }

  function StopChildrenRows(rows: Rows, now: Time): Rows {
    map i | i in rows :: if AnyChildInFlight(rows[i]) then StopRow(rows[i], "stopped: cron shutdown", now) else rows[i]
  }

  /** How many rows with ids from 1 up to, not including, n satisfy p. */
  function CountBelow(rows: Rows, n: int, p: Task -> bool): nat {
    if n <= 1 then 0 else CountBelow(rows, n - 1, p) + if n - 1 in rows && p(rows[n - 1]) then 1 else 0
  }

  function StopRows(rows: Rows, id: int, now: Time): Rows {
    if id in rows && Active(rows[id]) then rows[id := StopRow(rows[id], "stopped by user", now)] else rows
  }

  function ResumeRows(rows: Rows, id: int, now: Time): Rows {
    if id in rows && rows[id].status.Stopped? then rows[id := ResumeRow(rows[id], now)] else rows
  }

  /** Eligible for a claim at the given instant. */
  predicate Due(t: Task, now: Time) {
    t.kind.Once? && t.status.Pending? && t.nextRunAt <= now
  }

  /** The rows a claim may pick: ORDER BY next_run_at leaves ties open. */
  ghost predicate EarliestDue(rows: Rows, now: Time, id: int) {
    && id in rows
    && Due(rows[id], now)
    && forall j :: j in rows && Due(rows[j], now) ==> rows[id].nextRunAt <= rows[j].nextRunAt
  }

  ghost predicate NothingDue(rows: Rows, now: Time) {
    forall j :: j in rows ==> !Due(rows[j], now)
  }

  function ClaimRows(rows: Rows, id: int, worker: string, now: Time): Rows {
    if id in rows then rows[id := ClaimRow(rows[id], worker, now)] else rows
  }

  predicate Owns(rows: Rows, id: int, worker: string) {
    id in rows && rows[id].workerId == worker
  }

  function ReportRows(rows: Rows, o: Outcome, now: Time): Rows {
    if Owns(rows, o.taskId, o.workerId) then rows[o.taskId := ReportRow(rows[o.taskId], o, now)] else rows
  }

  /** The stop list of a worker. */
  predicate Listed(rows: Rows, id: int, worker: string) {
    Owns(rows, id, worker) && rows[id].status.Stopped?
  }

  // ---- the rows the server inserts -------------------------------------------

  /** A validated creation request. */
  datatype Draft = Draft(name: string, command: string, kind: Schedule, cronExpr: string, maxRetry: int, timeoutSec: int)

  function FromDraft(d: Draft): Task {
    Task(0, d.name, d.command, d.kind, d.cronExpr, Pending, d.maxRetry, 0, d.timeoutSec, "", 0, false, "", 0, 0, 0)
  }

  /** The one-shot child a cron tick enqueues. */
  function ChildOf(def: Task, stamp: string): Task {
    Task(0, def.name + "#" + stamp, def.command, Once, "", Pending, def.maxRetry, 0, def.timeoutSec, "", def.id, false, "", 0, 0, 0)
  }

  /** Definitions the scheduler turns into cron entries. */
  predicate Schedulable(t: Task) {
    t.kind.Cron? && t.enabled
  }
}

/** The task row and the vocabulary shared by the server and the workers
    (internal/model/task.go). */
module Tasks {

  datatype Option<+T> = None | Some(value: T)

  /** An instant: nanoseconds after Go's zero time, so 0 is the zero time. */
  type Time = int

  const SECOND: Time := 1_000_000_000

  datatype Status = Pending | Running | Success | Failed | Dead | Stopped

  datatype Schedule = Once | Cron

  datatype Task = Task(
    id: int,
    name: string,
    command: string,
    kind: Schedule,
    cronExpr: string,
    status: Status,
    maxRetry: int,
    retryCount: int,
    timeoutSec: int,
    workerId: string,
    parentId: int,
    enabled: bool,
    result: string,
    createdAt: Time,
    updatedAt: Time,
    nextRunAt: Time)

  /** A worker's account of one execution. */
  datatype Outcome = Outcome(taskId: int, workerId: string, success: bool, output: string)

  predicate Active(t: Task) {
    t.status.Pending? || t.status.Running?
  }

  predicate Terminal(t: Task) {
    t.status.Success? || t.status.Dead?
  }

  function Max(a: int, b: int): int {
    if a >= b then a else b
  }

  function Min(a: int, b: int): int {
    if a <= b then a else b
  }
}

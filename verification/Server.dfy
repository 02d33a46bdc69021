/** The HTTP handlers that move the table (internal/server/server.go), with requests
    and responses as values. Each one amounts to protocol events. */
module Server {
  import opened Tasks
  import opened Lifecycle
  import opened Filters
  import opened Paging
  import opened Store
  import Protocol

  datatype Code = OK | Created | BadRequest | Missing

  datatype CreateTaskRequest = CreateTaskRequest(
    name: string,
    command: string,
    kind: string,
    cronExpr: string,
    maxRetry: int,
    timeoutSec: int)

  /** A request createTask accepts; valid holds the cron expressions that parse. */
  predicate Acceptable(req: CreateTaskRequest, valid: set<string>) {
    && req.name != "" && req.command != ""
    && (req.kind == "" || req.kind == "once" || req.kind == "cron")
    && (req.kind == "cron" ==> req.cronExpr != "" && req.cronExpr in valid)
  }

  function DraftOf(req: CreateTaskRequest): Draft {
    Draft(req.name, req.command, if req.kind == "cron" then Cron else Once, req.cronExpr, req.maxRetry, req.timeoutSec)
  }

  /** The table moved from one state to the next by a possible protocol event; tokens
      and entries have no say in that. */
  ghost predicate IsEvent(rows: Rows, nextId: int, rows': Rows, nextId': int, now: Time, ev: Protocol.Event) {
    var s := Protocol.State(rows, nextId, now, multiset{}, {});
    Protocol.Possible(s, now, ev) && Protocol.Apply(s, now, ev).rows == rows' && Protocol.Apply(s, now, ev).nextId == nextId'
  }

  /** So it is the same event in any state with that table whose clock is not ahead. */
  lemma TableEventsAreLocal(s: Protocol.State, rows': Rows, nextId': int, now: Time, ev: Protocol.Event)
    requires IsEvent(s.rows, s.nextId, rows', nextId', now, ev) && s.clock <= now
    ensures Protocol.Possible(s, now, ev)
    ensures Protocol.Apply(s, now, ev).rows == rows' && Protocol.Apply(s, now, ev).nextId == nextId'
  {
    var bare := Protocol.State(s.rows, s.nextId, now, multiset{}, {});
    assert Protocol.Possible(bare, now, ev);
    assert !ev.Lose? && !ev.Spawn?;
  }

  /** The answer to a request for a page of a list: the stretch of rows the requested page
      and size single out, and the least number of pages that holds the list. */
  ghost predicate IsAnswer(all: seq<Task>, page: int, size: int, tasks: seq<Task>, totalPages: nat) {
    var p: nat, n: nat := if page >= 1 then page else 1, if 1 <= size <= 500 then size else 20;
    var from: nat := (p - 1) * n;
    && tasks == (if from >= |all| then [] else all[from..if from + n < |all| then from + n else |all|])
    && totalPages >= 1 && totalPages * n >= |all|
    && (totalPages > 1 ==> (totalPages - 1) * n < |all|)
  }

  lemma PageIsAnswer(all: seq<Task>, page: int, size: int, shown: nat, n: nat, totalPages: nat)
    requires shown == (if page >= 1 then page else 1) && n == (if 1 <= size <= 500 then size else 20)
    requires totalPages >= 1 && totalPages * n >= |all| && (totalPages > 1 ==> (totalPages - 1) * n < |all|)
    ensures IsAnswer(all, page, size, PageOf(all, shown, n), totalPages)
  {
    assert PageStart(shown, n) == (shown - 1) * n;
  }

  function Concat(replies: seq<seq<Task>>): seq<Task> {
    if replies == [] then [] else Concat(replies[..|replies| - 1]) + replies[|replies| - 1]
  }

  lemma AnswerIsPage(all: seq<Task>, page: nat, size: int, tasks: seq<Task>, totalPages: nat)
    requires page >= 1 && IsAnswer(all, page, size, tasks, totalPages)
    ensures tasks == PageOf(all, page, if 1 <= size <= 500 then size else 20)
  {
    var n: nat := if 1 <= size <= 500 then size else 20;
    assert PageStart(page, n) == (page - 1) * n;
  }

  lemma {:induction false} FirstRepliesAreFirstPages(all: seq<Task>, size: int, replies: seq<seq<Task>>, totalPages: nat)
    requires forall i :: 0 <= i < |replies| ==> IsAnswer(all, i + 1, size, replies[i], totalPages)
    ensures Concat(replies) == FirstPages(all, |replies|, if 1 <= size <= 500 then size else 20)
  {
    if replies != [] {
      var k, n := |replies|, if 1 <= size <= 500 then size else 20;
      FirstRepliesAreFirstPages(all, size, replies[..k - 1], totalPages);
      assert IsAnswer(all, k - 1 + 1, size, replies[k - 1], totalPages);
      AnswerIsPage(all, k, size, replies[k - 1], totalPages);
    }
  }

  /** Asking for pages 1 to the page count, with one size, yields the filtered rows: each
      once, in order, and nothing else. */
  lemma RepliesMakeUpTheList(all: seq<Task>, size: int, replies: seq<seq<Task>>)
    requires |replies| >= 1
    requires forall i :: 0 <= i < |replies| ==> IsAnswer(all, i + 1, size, replies[i], |replies|)
    ensures Concat(replies) == all
  {
    var n := if 1 <= size <= 500 then size else 20;
    assert |replies| * n >= |all| by {
      assert IsAnswer(all, 0 + 1, size, replies[0], |replies|);
    }
    FirstRepliesAreFirstPages(all, size, replies, |replies|);
    FirstPagesArePrefix(all, |replies|, n);
    assert all[..|all|] == all;
  }

  class Server {
    const store: Store
    var resyncAsked: bool

    constructor (store: Store)
      ensures this.store == store && !resyncAsked
    {
      this.store, resyncAsked := store, false;
    }

    method CreateTask(req: CreateTaskRequest, valid: set<string>, now: Time) returns (code: Code, task: Option<Task>)
      requires store.Valid()
      modifies store, this`resyncAsked
      ensures store.Valid()
      ensures code == if Acceptable(req, valid) then Created else BadRequest
      ensures code.Created? <==>
                && req.name != "" && req.command != ""
                && (req.kind == "" || req.kind == "once" || (req.kind == "cron" && req.cronExpr != "" && req.cronExpr in valid))
      ensures code.Created? ==>
                && IsEvent(old(store.rows), old(store.nextId), store.rows, store.nextId, now, Protocol.Create(DraftOf(req)))
                && task == Some(store.rows[old(store.nextId)])
                && task.value
                   == Task(old(store.nextId), req.name, req.command, if req.kind == "cron" then Cron else Once, req.cronExpr,
                           Pending, req.maxRetry, 0, req.timeoutSec, "", 0, true, "", now, now, now)
      ensures code.BadRequest? ==> store.rows == old(store.rows) && store.nextId == old(store.nextId) && task.None?
      ensures resyncAsked == (old(resyncAsked) || (code.Created? && task.value.kind.Cron?))
    {
      task := None;
      if req.name == "" || req.command == "" {
        return BadRequest, None;
      }
      var kind := req.kind;
      if kind == "" {
        kind := "once";
      }
      if kind != "once" && kind != "cron" {
        return BadRequest, None;
      }
      if kind == "cron" && req.cronExpr == "" {
        return BadRequest, None;
      }
      if kind == "cron" && req.cronExpr !in valid {
        return BadRequest, None;
      }
      var t := Task(0, req.name, req.command, if kind == "cron" then Cron else Once, req.cronExpr, Pending, req.maxRetry, 0,
                    req.timeoutSec, "", 0, false, "", 0, 0, 0);
      t := store.Create(t, now);
      if t.kind == Cron {
        resyncAsked := true;
      }
      code, task := Created, Some(t);
    }

    /** One page of the filtered list, with the arithmetic of the pager. */
    method ListTasks(filter: ListFilter, page: int, size: int) returns (tasks: seq<Task>, total: nat, shown: nat, pageSize: nat, totalPages: nat)
      requires store.Valid()
      ensures shown == (if page >= 1 then page else 1) && pageSize == (if 1 <= size <= 500 then size else 20)
      ensures IsAnswer(store.Listing(Some(filter)), page, size, tasks, totalPages)
      ensures total == |store.Listing(Some(filter))| && totalPages == PageCount(total, pageSize)
      ensures FirstPages(store.Listing(Some(filter)), totalPages, pageSize) == store.Listing(Some(filter))
    {
      shown := if page < 1 then 1 else page;
      pageSize := if size <= 0 || size > 500 then 20 else size;
      tasks := store.List(Some(filter), PageStart(shown, pageSize), pageSize);
      total := store.Count(Some(filter));
      totalPages := TotalPages(total, pageSize);
      PagesMakeUpTheList(store.Listing(Some(filter)), pageSize);
      PageIsAnswer(store.Listing(Some(filter)), page, size, shown, pageSize, totalPages);
    }

    /** A deletion always succeeds, whether or not the row is there. */
    method DeleteTask(id: int, now: Time) returns (code: Code)
      requires store.Valid()
      modifies store
      ensures store.Valid() && code.OK?
      ensures IsEvent(old(store.rows), old(store.nextId), store.rows, store.nextId, now, Protocol.Delete(id))
    {
      store.Delete(id);
      code := OK;
    }

    method SetTaskEnabled(id: int, on: bool, now: Time) returns (code: Code)
      requires store.Valid()
      modifies store, this`resyncAsked
      ensures store.Valid()
      ensures code == if id in old(store.rows) then OK else Missing
      ensures IsEvent(old(store.rows), old(store.nextId), store.rows, store.nextId, now, Protocol.SetEnabled(id, on))
      ensures resyncAsked == (old(resyncAsked) || code.OK?)
    {
      var err := store.SetEnabled(id, on, now);
      if err == NotFound {
        return Missing;
      }
      resyncAsked := true;
      code := OK;
    }

    method StopTask(id: int, now: Time) returns (code: Code)
      requires store.Valid()
      modifies store
      ensures store.Valid()
      ensures code == if id in old(store.rows) && Active(old(store.rows)[id]) then OK else Missing
      ensures IsEvent(old(store.rows), old(store.nextId), store.rows, store.nextId, now, Protocol.Stop(id))
    {
      var err := store.StopTask(id, now);
      code := if err == NotFound then Missing else OK;
    }

    method RestartTask(id: int, now: Time) returns (code: Code)
      requires store.Valid()
      modifies store
      ensures store.Valid()
      ensures code == if id in old(store.rows) && old(store.rows)[id].status.Stopped? then OK else Missing
      ensures IsEvent(old(store.rows), old(store.nextId), store.rows, store.nextId, now, Protocol.Restart(id))
    {
      var err := store.ResumeTask(id, now);
      code := if err == NotFound then Missing else OK;
    }

    /** A pull is a claim, successful or empty, followed by reading the stop list; a pull
        without a worker id is refused and touches nothing. */
    method HandlePull(workerId: string, now: Time) returns (code: Code, task: Option<Task>, stops: seq<int>)
      requires store.Valid()
      modifies store
      ensures store.Valid() && store.nextId == old(store.nextId)
      ensures code == if workerId == "" then BadRequest else OK
      ensures code.BadRequest? ==> store.rows == old(store.rows) && task.None? && stops == []
      ensures code.OK? ==>
                && IsEvent(old(store.rows), old(store.nextId), store.rows, store.nextId, now,
                           Protocol.Claim(workerId, if task.Some? then Some(task.value.id) else None))
                && (task.Some? ==> task.value.id in store.rows && task.value.(updatedAt := now) == store.rows[task.value.id])
                && (task.Some? ==> task.value == old(store.rows)[task.value.id].(status := Running, workerId := workerId))
                && forall id :: id in stops <==> Listed(store.rows, id, workerId)
    {
      if workerId == "" {
        return BadRequest, None, [];
      }
      task := store.ClaimPending(workerId, now);
      stops := store.GetStopList(workerId);
      code := OK;
    }

    /** A report is taken from anyone; only the owner's changes the table. */
    method HandleResult(o: Outcome, now: Time) returns (code: Code)
      requires store.Valid()
      modifies store
      ensures store.Valid()
      ensures code == if o.taskId !in old(store.rows) then Missing
                      else if old(store.rows)[o.taskId].workerId == o.workerId then OK else BadRequest
      ensures IsEvent(old(store.rows), old(store.nextId), store.rows, store.nextId, now, Protocol.Report(o))
      ensures !code.OK? ==> store.rows == old(store.rows)
    {
      var err := store.ReportResult(o, now);
      code := match err case Nil => OK case NotFound => Missing case NotOwner => BadRequest;
    }
  }
}

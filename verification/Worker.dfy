/** The worker process as an object: the fields of Pool in internal/worker/pool.go
    and what its fetcher and executors do to them. Module Pool says what the steps
    mean; the methods compute them in place and record them. */
module Worker {
  import opened Sets
  import opened Tasks
  import Pool

  class Worker {
    const workers: nat
    var fetcher: Pool.Fetcher
    var jobs: seq<Task>
    var slots: seq<Pool.Slot>
    var active: map<int, nat>

    /** The steps taken so far. */
    ghost var history: Pool.Run

    ghost function View(): Pool.State
      reads this
    {
      Pool.State(workers, fetcher, jobs, slots, active)
    }

    /** The fields are what the recorded run leaves. */
    ghost predicate Valid()
      reads this
    {
      Pool.Valid(history) && Pool.After(history) == View()
    }

    constructor (configured: int)
      ensures Valid() && history == Pool.Begin(configured)
    {
      var n := if configured < 1 then 1 else configured;
      workers := n;
      fetcher, jobs, slots, active := Pool.Idle, [], seq(n, _ => Pool.Free), map[];
      history := Pool.Begin(configured);
    }

    // ---- the fetcher ---------------------------------------------------------------

    /** A pull response arrives: what the server claimed, then what it listed. */
    method Receive(got: Option<Task>, stops: seq<int>)
      requires Valid() && fetcher.Idle?
      modifies this
      ensures Valid() && history == Pool.Step(Pool.Step(old(history), Pool.Ask(got)), Pool.ReadStops(stops))
    {
      fetcher := Pool.Answered(got, stops);
      history := Pool.Step(history, Pool.Ask(got));
      history := Pool.Step(history, Pool.ReadStops(stops));
    }

    /** Cancel the execution stored under an id, if any, and forget it. */
    method CancelActive(id: int) returns (cancelled: bool)
      requires Pool.ActiveOk(View())
      modifies this`slots, this`active
      ensures View() == Pool.CancelOne(old(View()), id)
      ensures cancelled == (id in old(active))
    {
      if id !in active {
        return false;
      }
      var k := active[id];
      active := active - {id};
      if slots[k].Executing? {
        slots := slots[k := slots[k].(cancelled := true)];
      }
      cancelled := true;
    }

    /** Process a pull response: cancel the stopped tasks, keep the claimed one in hand. */
    method Deliver()
      requires Valid() && fetcher.Answered?
      modifies this
      ensures Valid() && history == Pool.Step(old(history), Pool.Deliver)
    {
      ghost var was := View();
      Pool.ShapeIsKept(history);
      var stops, got := fetcher.stops, fetcher.got;
      for i := 0 to |stops|
        invariant View() == Pool.CancelAll(was, stops[..i])
        invariant Pool.ActiveOk(View()) && history == old(history)
      {
        assert stops[..i + 1][..i] == stops[..i];
        var _ := CancelActive(stops[i]);
        Pool.CancelAllEffect(was, stops[..i + 1]);
      }
      assert stops[..|stops|] == stops;
      Pool.CancelAllEffect(was, stops);
      fetcher := if got.Some? then Pool.Holding(got.value) else Pool.Idle;
      history := Pool.Step(history, Pool.Deliver);
    }

    /** Send on the buffered jobs channel; the caller waits while it is full. Everything
        received is then started or queued. */
    method Push()
      requires Valid() && fetcher.Holding? && Pool.Room(View())
      modifies this
      ensures Valid() && history == Pool.Step(old(history), Pool.Push)
      ensures Pool.Received(history) == Pool.Started(history) + jobs && |jobs| <= 2 * workers
    {
      jobs := jobs + [fetcher.task];
      fetcher := Pool.Idle;
      history := Pool.Step(history, Pool.Push);
      Pool.TasksStartInOrder(history);
    }

    // ---- the executors -------------------------------------------------------------

    /** An idle executor receives the first task, in order of receipt, not yet started. */
    method Take(k: nat) returns (t: Task)
      requires Valid() && k < |slots| && slots[k].Free? && jobs != []
      modifies this
      ensures Valid() && history == Pool.Step(old(history), Pool.Take(k)) && slots[k] == Pool.Taken(t)
      ensures |Pool.Started(old(history))| < |Pool.Received(history)|
      ensures t == Pool.Received(history)[|Pool.Started(old(history))|]
    {
      Pool.TasksStartInOrder(history);
      t := jobs[0];
      slots := slots[k := Pool.Taken(t)];
      jobs := jobs[1..];
      history := Pool.Step(history, Pool.Take(k));
    }

    /** Store the slot under the task id and start executing. A stop can reach the
        execution from then on exactly when no other slot had the task. */
    method RegisterActive(k: nat)
      requires Valid() && k < |slots| && slots[k].Taken?
      modifies this
      ensures Valid() && history == Pool.Step(old(history), Pool.Register(k)) && k < |old(slots)|
      ensures
        var id := old(slots)[k].task.id;
        Pool.Stoppable(history, k, id) <==> Pool.Sole(old(View()), k, id)
    {
      var t := slots[k].task;
      active := active[t.id := k];
      slots := slots[k := Pool.Executing(t, false)];
      history := Pool.Step(history, Pool.Register(k));
      Pool.RegistrationIsStoppableIff(history, k);
    }

    /** The timeout fires. */
    method Expire(k: nat)
      requires Valid() && k < |slots| && slots[k].Executing?
      modifies this
      ensures Valid() && history == Pool.Step(old(history), Pool.Expire(k))
    {
      slots := slots[k := slots[k].(cancelled := true)];
      history := Pool.Step(history, Pool.Expire(k));
    }

    /** The command has ended and its report is sent or given up. */
    method Complete(k: nat)
      requires Valid() && k < |slots| && slots[k].Executing?
      modifies this
      ensures Valid() && history == Pool.Step(old(history), Pool.Complete(k))
    {
      slots := slots[k := Pool.Done(slots[k].task)];
      history := Pool.Step(history, Pool.Complete(k));
    }

    /** Free the slot and drop whatever is stored under its task id: until the task
        registers again, no stop list that names it cancels anything. */
    method UnregisterActive(k: nat) returns (t: Task)
      requires Valid() && k < |slots| && slots[k].Done?
      modifies this
      ensures Valid() && history == Pool.Step(old(history), Pool.Leave(k))
      ensures Pool.Finished(history) == Pool.Finished(old(history)) + [t]
      ensures Pool.CancelAll(View(), [t.id]) == View()
    {
      t := slots[k].task;
      active := active - {t.id};
      slots := slots[k := Pool.Free];
      history := Pool.Step(history, Pool.Leave(k));
      Pool.RepeatedListingIsNoOp(View(), [t.id]);
    }

    /** The ids under way, each once, for the heartbeat; never more than the slots. */
    method ActiveSnapshot() returns (ids: seq<int>)
      requires Valid()
      ensures forall id :: id in ids <==> id in active
      ensures forall i, j :: 0 <= i < j < |ids| ==> ids[i] != ids[j]
      ensures |ids| <= workers
    {
      ids := [];
      var todo := active.Keys;
      while todo != {}
        invariant todo <= active.Keys
        invariant forall id :: id in ids <==> id in active && id !in todo
        invariant forall i, j :: 0 <= i < j < |ids| ==> ids[i] != ids[j]
        invariant |ids| + |todo| == |active|
        decreases todo
      {
        HasMember(todo);
        var id :| id in todo;
        ids := ids + [id];
        todo := todo - {id};
      }
      Pool.ActiveCountIsBounded(history);
      Pool.ShapeIsKept(history);
    }
  }
}

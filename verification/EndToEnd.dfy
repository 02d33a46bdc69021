/** From the request to the execution and back: a worker executes the command somebody
    asked for, and a finished row shows what a worker's execution yielded. */
module EndToEnd {
  import opened Tasks
  import opened Lifecycle
  import opened Protocol
  import opened Ownership
  import opened Finality
  import opened History
  import opened Fleet
  import Pool

  // ---- there -------------------------------------------------------------------------------

  /** The worker has the task somewhere: in its fetcher, its queue or a slot. */
  predicate HasTask(p: Pool.State, t: Task) {
    || ((p.fetcher.Claimed? || p.fetcher.Answered?) && p.fetcher.got == Some(t))
    || p.fetcher == Pool.Holding(t)
    || t in p.jobs
    || exists k :: 0 <= k < |p.slots| && !p.slots[k].Free? && p.slots[k].task == t
  }

  lemma DeliveryBringsNothing(p: Pool.State, t: Task)
    requires Pool.ActiveOk(p) && p.fetcher.Answered? && HasTask(Pool.Do(p, Pool.Deliver), t)
    ensures HasTask(p, t)
  {
    Pool.CancelAllEffect(p, p.fetcher.stops);
    var q := Pool.Do(p, Pool.Deliver);
    if k :| 0 <= k < |q.slots| && !q.slots[k].Free? && q.slots[k].task == t {
      assert p.slots[k].task == t;
    }
  }

  lemma OnlyPullsBringTasks(p: Pool.State, e: Pool.Event, t: Task)
    requires Pool.ActiveOk(p) && Pool.CanDo(p, e) && HasTask(Pool.Do(p, e), t)
    ensures HasTask(p, t) || e == Pool.Ask(Some(t))
  {
    var q := Pool.Do(p, e);
    if e.Deliver? {
      DeliveryBringsNothing(p, t);
    } else if k :| 0 <= k < |q.slots| && !q.slots[k].Free? && q.slots[k].task == t {
      assert q.slots[k] == p.slots[k] || (Pool.TouchesSlot(e) && e.k == k);
    }
  }

  /** The request behind a row: the one that created it or its definition. */
  function Request(r: Run, id: int): Option<Draft> {
    match Birth(r, id)
    case Some((Create(d), _)) => Some(d)
    case Some((Spawn(def, _), _)) =>
      (match Birth(r, def.id)
       case Some((Create(d), _)) => Some(d)
       case _ => None)
    case _ => None
  }

  lemma BirthSurvivesMoves(y: Story, id: int)
    requires y.Next? && Birth(Project(y.prev), id).Some?
    ensures Birth(Project(y), id) == Birth(Project(y.prev), id)
  {
    var ev := AtServer(At(y.prev), y.m);
    if ev.Some? {
      BirthIsForGood(Project(y.prev), Then(Project(y.prev), y.now, ev.value), id);
    }
  }

  lemma PulledTaskIsTheRow(p: Story, now: Time, w: string, got: Option<int>, t: Task)
    requires Told(Next(p, now, Pull(w, got))) && AtPool(At(p), now, Pull(w, got)) == Pool.Ask(Some(t))
    ensures
      var r := Project(Next(p, now, Pull(w, got)));
      Birth(r, t.id).Some? && DoesWorkOf(t, Birth(r, t.id).value.0)
  {
    var y := Next(p, now, Pull(w, got));
    FleetRefinesProtocol(y);
    RowIsItsHistory(Project(y), got.value);
  }

  /** Whatever a worker has, wherever it has it, does the work its row was made for, also
      when the row has been stopped, restarted or deleted meanwhile. */
  lemma {:induction false} WorkersHaveWhatWasMade(y: Story, w: string, t: Task)
    requires Told(y) && w in At(y).pools && HasTask(At(y).pools[w], t)
    ensures Birth(Project(y), t.id).Some? && DoesWorkOf(t, Birth(Project(y), t.id).value.0)
  {
    if y.Next? {
      var p, now, m := y.prev, y.now, y.m;
      FleetRefinesProtocol(p);
      if AtWorker(m) && m.w == w {
        OnlyPullsBringTasks(At(p).pools[w], AtPool(At(p), now, m), t);
      }
      if HasTask(At(p).pools[w], t) {
        WorkersHaveWhatWasMade(p, w, t);
        BirthSurvivesMoves(y, t.id);
      } else {
        PulledTaskIsTheRow(p, now, w, m.got, t);
      }
    }
  }

  /** Every execution runs the command of a request somebody made, within the time that
      request allows: the one that created the task, or the definition it was spawned from. */
  lemma ExecutionsWereRequested(y: Story, w: string, k: nat)
    requires Told(y) && w in At(y).pools && k < |At(y).pools[w].slots| && At(y).pools[w].slots[k].Executing?
    ensures
      var t := At(y).pools[w].slots[k].task;
      && Request(Project(y), t.id).Some?
      && t.command == Request(Project(y), t.id).value.command
      && t.timeoutSec == Request(Project(y), t.id).value.timeoutSec
  {
    var t := At(y).pools[w].slots[k].task;
    assert HasTask(At(y).pools[w], t);
    WorkersHaveWhatWasMade(y, w, t);
    FleetRefinesProtocol(y);
    if Birth(Project(y), t.id).value.0.Spawn? {
      SpawnsFollowDefinitions(Project(y), t.id);
    }
  }

  // ---- and back ----------------------------------------------------------------------------

  /** At some point of the story a worker ended an execution of the task with exactly this
      account of it, before its context was cancelled. */
  predicate Ended(y: Story, o: Outcome) {
    y.Next?
    && (Ended(y.prev, o)
        || (y.m.Finish? && y.m.w == o.workerId && y.m.said == Some((o.success, o.output))
            && o.workerId in At(y.prev).pools && y.m.k < |At(y.prev).pools[o.workerId].slots|
            && At(y.prev).pools[o.workerId].slots[y.m.k].Executing?
            && !At(y.prev).pools[o.workerId].slots[y.m.k].cancelled
            && At(y.prev).pools[o.workerId].slots[y.m.k].task.id == o.taskId))
  }

  lemma MailIsOldOrSent(f: Fleet, m: Move, msg: Message)
    requires msg in MailAfter(f, m) && msg.Said?
    ensures
      || msg in f.mail
      || (m.Finish? && m.w in f.pools && m.k < |f.pools[m.w].slots| && f.pools[m.w].slots[m.k].Executing?
          && msg.outcome.workerId == m.w && msg.outcome.taskId == f.pools[m.w].slots[m.k].task.id
          && m.said == Some((msg.outcome.success, msg.outcome.output)))
  {
    match m
    case Arrive(i) => assert forall x :: x in Without(f.mail, i) ==> x in f.mail;
    case Vanish(i) => assert forall x :: x in Without(f.mail, i) ==> x in f.mail;
    case _ =>
  }

  /** Reports on their way are true. */
  lemma {:induction false} MailIsTrue(y: Story, o: Outcome)
    requires Told(y) && Said(o) in At(y).mail
    ensures Ended(y, o)
  {
    if y.Next? {
      MailIsOldOrSent(At(y.prev), y.m, Said(o));
      if Said(o) in At(y.prev).mail {
        MailIsTrue(y.prev, o);
      }
    }
  }

  lemma ArrivalsAreTrue(y: Story, o: Outcome)
    requires y.Next? && Told(y) && AtServer(At(y.prev), y.m) == Some(Report(o))
    ensures Ended(y, o)
  {
    assert Said(o) == At(y.prev).mail[y.m.i];
    MailIsTrue(y.prev, o);
  }

  lemma {:induction false} VerdictsAreTrue(y: Story, id: int)
    requires Told(y) && Verdict(Project(y), id).Some?
    ensures Ended(y, Verdict(Project(y), id).value) && Verdict(Project(y), id).value.taskId == id
  {
    if y.Next? {
      var p, ev := y.prev, AtServer(At(y.prev), y.m);
      if ev.Some? && Decides(After(Project(p)), ev.value, id) {
        ArrivalsAreTrue(y, ev.value.outcome);
      } else {
        VerdictsAreTrue(p, id);
      }
    }
  }

  /** No outcome out of thin air: a row the server shows as success or dead was executed
      by the worker it names, to that end and with that output. */
  lemma FinishedRowsWereExecuted(y: Story, id: int)
    requires Told(y) && id in At(y).srv.rows && Terminal(At(y).srv.rows[id])
    ensures
      var t := At(y).srv.rows[id];
      Ended(y, Outcome(id, t.workerId, t.status.Success?, t.result))
  {
    FleetRefinesProtocol(y);
    OutcomeIsTheLastVerdict(Project(y), id);
    VerdictsAreTrue(y, id);
    var t, o := At(y).srv.rows[id], Verdict(Project(y), id).value;
    assert o == Outcome(id, t.workerId, t.status.Success?, t.result);
  }
}

/** How a stop reaches the execution it is meant for: the server keeps listing the
    row, a response cancels nothing that is not stopped, and the first one the worker
    processes after the execution registered cancels it. */
module StopDelivery {
  import opened Tasks
  import opened Lifecycle
  import opened Protocol
  import opened Ownership
  import opened Finality
  import opened Fleet
  import Pool

  // ---- at the server ----------------------------------------------------------------

  predicate Answers(ev: Event, id: int, w: string) {
    ev == Delete(id) || ev == Restart(id) || (ev.Report? && ev.outcome.taskId == id && ev.outcome.workerId == w)
  }

  /** r continues p, and in between nobody deletes or restarts the row and w does not
      report it. */
  predicate Unanswered(p: Run, r: Run, id: int, w: string) {
    p == r || (r.Then? && Unanswered(p, r.prev, id, w) && !Answers(r.ev, id, w))
  }

  lemma ListedStays(s: State, now: Time, ev: Event, id: int, w: string)
    requires id < s.nextId && Possible(s, now, ev) && !Answers(ev, id, w)
    requires w != "" && Listed(s.rows, id, w)
    ensures Listed(Apply(s, now, ev).rows, id, w)
  {
    assert id in Apply(s, now, ev).rows;
    RowCases(s, now, ev, id);
  }

  /** A stopped row stays on its owner's stop list until it is answered. */
  lemma {:induction false} StopListKeepsNagging(p: Run, r: Run, id: int, w: string)
    requires Valid(r) && Unanswered(p, r, id, w)
    requires w != "" && Listed(After(p).rows, id, w)
    ensures Listed(After(r).rows, id, w)
  {
    if p != r {
      StopListKeepsNagging(p, r.prev, id, w);
      KnownIds(r.prev, id);
      ListedStays(After(r.prev), r.now, r.ev, id, w);
    }
  }

  /** Every later pull lists the row, wherever the worker keeps the task meanwhile. */
  lemma EveryLaterPullListsIt(p: Story, y: Story, now: Time, w: string, stops: seq<int>, id: int)
    requires Continues(p, y) && Told(y) && w != ""
    requires Unanswered(Project(p), Project(y), id, w)
    requires Listed(At(p).srv.rows, id, w)
    requires CanHappen(At(y), now, ReadStops(w, stops))
    ensures id in stops
  {
    ToldSoFar(p, y);
    FleetRefinesProtocol(p);
    FleetRefinesProtocol(y);
    StopListKeepsNagging(Project(p), Project(y), id, w);
  }

  // ---- nothing else is cancelled --------------------------------------------------------

  /** A listed id with an unreported execution on the listing worker is the id of a
      row that is still stopped, or deleted. */
  ghost predicate ListsAreTruthful(f: Fleet) {
    forall w, id ::
      w in f.pools && f.pools[w].fetcher.Answered? && id in f.pools[w].fetcher.stops ==>
      InPool(f, id, w) > 0 && id in f.srv.rows ==>
      f.srv.rows[id].status.Stopped?
  }

  /** A stopped row whose execution is out stays stopped, whatever the event. */
  lemma StoppedExecutionStaysStopped(s: State, now: Time, ev: Event, id: int, w: string)
    requires TableOk(s) && TokensOk(s) && Possible(s, now, ev) && Allowed(s, ev)
    requires Token(id, w) in s.tokens && (id in s.rows ==> s.rows[id].status.Stopped?)
    ensures id in Apply(s, now, ev).rows ==> Apply(s, now, ev).rows[id].status.Stopped?
  {
    assert Token(id, w).taskId == id;
    if id in Apply(s, now, ev).rows {
      if id in s.rows {
        RowCases(s, now, ev, id);
      } else {
        NewRows(s, now, ev, id);
      }
    }
  }

  lemma ListStaysTruthful(f: Fleet, now: Time, m: Move, w: string, id: int)
    requires TableOk(f.srv) && TokensOk(f.srv) && TokensMatch(f) && CanHappen(f, now, m) && CarefulMove(f, m)
    requires InPool(f, id, w) > 0 && (id in f.srv.rows ==> f.srv.rows[id].status.Stopped?)
    requires id in ServerAfter(f, now, m).rows
    ensures ServerAfter(f, now, m).rows[id].status.Stopped?
  {
    assert f.srv.tokens[Token(id, w)] == HeldBy(f, id, w) > 0;
    if AtServer(f, m).Some? {
      CarefulMoveIsAllowed(f, now, m);
      MoveIsPossible(f, now, m);
      StoppedExecutionStaysStopped(f.srv, now, AtServer(f, m).value, id, w);
    }
  }

  /** The stop list a fetcher holds was there before and its pool gains nothing, or it has
      just been read. */
  lemma StopsComeFromReading(f: Fleet, now: Time, m: Move, w: string, id: int)
    requires TokensMatch(f) && CanHappen(f, now, m)
    requires w in Happen(f, now, m).pools && Happen(f, now, m).pools[w].fetcher.Answered?
    ensures w in f.pools && InPool(Happen(f, now, m), id, w) <= InPool(f, id, w)
    ensures
      || (m.ReadStops? && m.w == w && Happen(f, now, m).pools[w].fetcher.stops == m.stops)
      || f.pools[w].fetcher == Happen(f, now, m).pools[w].fetcher
  {
    PoolSide(f, now, m, id, w);
  }

  lemma MoveKeepsListsTruthful(f: Fleet, now: Time, m: Move)
    requires TableOk(f.srv) && TokensOk(f.srv) && TokensMatch(f) && CanHappen(f, now, m) && CarefulMove(f, m)
    requires ListsAreTruthful(f)
    ensures ListsAreTruthful(Happen(f, now, m))
  {
    var f' := Happen(f, now, m);
    forall w, id | w in f'.pools && f'.pools[w].fetcher.Answered? && id in f'.pools[w].fetcher.stops
                   && InPool(f', id, w) > 0 && id in f'.srv.rows
      ensures f'.srv.rows[id].status.Stopped?
    {
      StopsComeFromReading(f, now, m, w, id);
      if m.ReadStops? && m.w == w {
        assert Listed(f.srv.rows, id, w);
      } else {
        ListStaysTruthful(f, now, m, w, id);
      }
    }
  }

  lemma {:induction false} ListsStayTruthful(y: Story)
    requires Told(y) && Careful(y)
    ensures ListsAreTruthful(At(y))
  {
    if y.Next? {
      ListsStayTruthful(y.prev);
      FleetRefinesProtocol(y.prev);
      CarefulExecutionsAreUnique(y.prev, 0, "", "");
      MoveKeepsListsTruthful(At(y.prev), y.now, y.m);
    }
  }

  lemma DeliveryCancelsOnlyListed(p: Pool.State, k: nat)
    requires Pool.ActiveOk(p) && p.fetcher.Answered? && k < |p.slots|
    ensures
      var p' := Pool.Do(p, Pool.Deliver);
      && |p'.slots| == |p.slots|
      && (p'.slots[k] != p.slots[k] ==>
            && p.slots[k].Executing? && p.slots[k].task.id in p.fetcher.stops
            && p'.slots[k] == Pool.Executing(p.slots[k].task, true))
  {
    var stops := p.fetcher.stops;
    Pool.CancelAllEffect(p, stops);
    if p.slots[k].Executing? && Pool.Hits(p, stops, k) {
      var i :| 0 <= i < |stops| && stops[i] in p.active && p.active[stops[i]] == k;
      assert stops[i] in stops && p.slots[k].task.id == stops[i];
    }
  }

  lemma ExecutingIsHeld(f: Fleet, w: string, k: nat)
    requires TokensMatch(f) && w in f.pools && k < |f.pools[w].slots| && f.pools[w].slots[k].Executing?
    ensures InPool(f, f.pools[w].slots[k].task.id, w) > 0
    ensures Token(f.pools[w].slots[k].task.id, w) in f.srv.tokens
  {
    var id := f.pools[w].slots[k].task.id;
    SlotCounts(f.pools[w].slots, k, id);
    assert f.srv.tokens[Token(id, w)] == HeldBy(f, id, w) > 0;
  }

  /** Whatever executions linger, a pull response cancels nothing but executions of
      listed tasks whose rows are at that moment stopped and owned by this worker, or
      deleted. */
  lemma OnlyStoppedTasksAreCancelled(y: Story, w: string, k: nat)
    requires Told(y) && Careful(y) && w in At(y).pools && At(y).pools[w].fetcher.Answered?
    requires k < |At(y).pools[w].slots|
    ensures
      var p, p' := At(y).pools[w], Pool.Do(At(y).pools[w], Pool.Deliver);
      && |p'.slots| == |p.slots|
      && (p'.slots[k] != p.slots[k] ==>
            && p.slots[k].Executing? && p'.slots[k] == Pool.Executing(p.slots[k].task, true)
            && var id := p.slots[k].task.id;
               id in p.fetcher.stops && (id in At(y).srv.rows ==> Listed(At(y).srv.rows, id, w)))
  {
    FleetRefinesProtocol(y);
    ListsStayTruthful(y);
    DeliveryCancelsOnlyListed(At(y).pools[w], k);
    if Pool.Do(At(y).pools[w], Pool.Deliver).slots[k] != At(y).pools[w].slots[k] {
      CarefulExecutionsAreUnique(y, 0, "", "");
      ExecutingIsHeld(At(y), w, k);
      assert Token(At(y).pools[w].slots[k].task.id, w).workerId == w;
    }
  }

  // ---- every listed execution is ----------------------------------------------------------

  /** Each registration of the task on the worker waits for its previous execution there
      to leave. */
  ghost predicate CleanFor(y: Story, w: string, id: int) {
    match y
    case Boot(_) => true
    case Next(p, _, m) => CleanFor(p, w, id) && (m.Local? && m.w == w && w in At(p).pools ==> CleanStep(At(p).pools[w], m.e, id))
  }

  predicate CleanStep(p: Pool.State, e: Pool.Event, id: int) {
    e.Register? && Pool.CanDo(p, e) && p.slots[e.k].task.id == id ==> Pool.NoneLingers(p, id)
  }

  /** The cancel function of an uncancelled execution of the task is in the map, and no
      departing execution can drop it. */
  predicate Reachable(p: Pool.State, id: int) {
    forall k :: 0 <= k < |p.slots| && p.slots[k].Executing? && p.slots[k].task.id == id ==>
      && (!p.slots[k].cancelled ==> id in p.active)
      && (id in p.active ==> p.active[id] == k)
      && Pool.NoneLingers(p, id)
  }

  lemma AtMostOneSlot(p: Pool.State, j: nat, k: nat)
    requires j < |p.slots| && k < |p.slots| && j != k
    requires (p.slots[j].Executing? || p.slots[j].Taken?) && (p.slots[k].Executing? || p.slots[k].Taken?)
    requires InFlight(p, p.slots[k].task.id) <= 1
    ensures p.slots[j].task.id != p.slots[k].task.id
  {
    if j < k {
      TwoSlotsCountTwice(p.slots, j, k, p.slots[k].task.id);
    } else {
      TwoSlotsCountTwice(p.slots, k, j, p.slots[k].task.id);
    }
  }

  /** Processing a response cancels a reachable execution exactly when its task is listed. */
  lemma DeliveryReaches(p: Pool.State, k: nat)
    requires Pool.ActiveOk(p) && p.fetcher.Answered?
    requires k < |p.slots| && p.slots[k].Executing? && Reachable(p, p.slots[k].task.id)
    ensures
      var p', id := Pool.Do(p, Pool.Deliver), p.slots[k].task.id;
      && |p'.slots| == |p.slots|
      && p'.slots[k] == (if id in p.fetcher.stops then Pool.Executing(p.slots[k].task, true) else p.slots[k])
  {
    var stops, id := p.fetcher.stops, p.slots[k].task.id;
    Pool.CancelAllEffect(p, stops);
    DeliveryCancelsOnlyListed(p, k);
    if id in stops && id in p.active {
      var i :| 0 <= i < |stops| && stops[i] == id;
      assert Pool.Hits(p, stops, k);
    } else if id in stops {
      assert p.slots[k] == Pool.Executing(p.slots[k].task, true);
    }
  }

  lemma DeliveryKeepsReachable(p: Pool.State, id: int)
    requires Pool.ActiveOk(p) && Reachable(p, id) && p.fetcher.Answered?
    ensures Reachable(Pool.Do(p, Pool.Deliver), id)
  {
    Pool.CancelAllEffect(p, p.fetcher.stops);
    var q := Pool.Do(p, Pool.Deliver);
    forall k | 0 <= k < |q.slots| && q.slots[k].Executing? && q.slots[k].task.id == id
      ensures (!q.slots[k].cancelled ==> id in q.active) && (id in q.active ==> q.active[id] == k) && Pool.NoneLingers(q, id)
    {
      DeliveryReaches(p, k);
    }
  }

  lemma CleanStepKeepsReachable(p: Pool.State, e: Pool.Event, id: int)
    requires Pool.ActiveOk(p) && Reachable(p, id) && Pool.CanDo(p, e) && CleanStep(p, e, id) && InFlight(p, id) <= 1
    ensures Reachable(Pool.Do(p, e), id)
  {
    match e
    case Deliver =>
      DeliveryKeepsReachable(p, id);
    case Register(k) =>
      forall j | 0 <= j < |p.slots| && j != k && p.slots[j].Executing? && p.slots[k].task.id == id ensures p.slots[j].task.id != id {
        AtMostOneSlot(p, j, k);
      }
    case Complete(k) =>
      forall j | 0 <= j < |p.slots| && j != k && p.slots[j].Executing? && p.slots[k].task.id == id ensures p.slots[j].task.id != id {
        AtMostOneSlot(p, j, k);
      }
    case _ =>
  }

  lemma {:induction false} ReachInvariant(y: Story, w: string, id: int)
    requires Told(y) && Careful(y) && CleanFor(y, w, id) && w in At(y).pools
    ensures Reachable(At(y).pools[w], id)
  {
    if y.Next? {
      ReachInvariant(y.prev, w, id);
      FleetRefinesProtocol(y.prev);
      CarefulExecutionsAreUnique(y.prev, id, w, w);
      if AtWorker(y.m) && y.m.w == w {
        CleanStepKeepsReachable(At(y.prev).pools[w], AtPool(At(y.prev), y.now, y.m), id);
      }
    }
  }

  /** If the task's own registrations on the worker were clean, whatever other tasks do,
      a pull response cancels its execution exactly when it lists the task, and listing
      it again changes nothing. */
  lemma ListedExecutionIsCancelled(y: Story, w: string, k: nat)
    requires Told(y) && Careful(y) && w in At(y).pools && At(y).pools[w].fetcher.Answered?
    requires k < |At(y).pools[w].slots| && At(y).pools[w].slots[k].Executing?
    requires CleanFor(y, w, At(y).pools[w].slots[k].task.id)
    ensures
      var p, p' := At(y).pools[w], Pool.Do(At(y).pools[w], Pool.Deliver);
      var id := p.slots[k].task.id;
      && |p'.slots| == |p.slots|
      && p'.slots[k] == (if id in p.fetcher.stops then Pool.Executing(p.slots[k].task, true) else p.slots[k])
      && (id in p.fetcher.stops ==> Pool.CancelAll(p', [id]) == p')
  {
    FleetRefinesProtocol(y);
    var p := At(y).pools[w];
    var p', id := Pool.Do(p, Pool.Deliver), p.slots[k].task.id;
    ReachInvariant(y, w, id);
    DeliveryReaches(p, k);
    Pool.CancelAllEffect(p, p.fetcher.stops);
    if id in p.fetcher.stops {
      Pool.RepeatedListingIsNoOp(p', [id]);
    }
  }

  // ---- from the table to the execution ------------------------------------------------------

  /** A task is stopped while w owns it, at story p. Later, before anyone answers the stop,
      a pull of w reads its stop list, at story y. If the execution has registered by the
      time that response is processed, at story z, processing it cancels the execution. */
  lemma StopReachesItsExecution(p: Story, y: Story, now: Time, w: string, stops: seq<int>, z: Story, k: nat)
    requires Continues(p, y) && Continues(Next(y, now, ReadStops(w, stops)), z) && Told(z) && Careful(z) && w != ""
    requires w in At(z).pools && At(z).pools[w].fetcher.Answered? && At(z).pools[w].fetcher.stops == stops
    requires k < |At(z).pools[w].slots| && At(z).pools[w].slots[k].Executing?
    requires
      var id := At(z).pools[w].slots[k].task.id;
      && Listed(At(p).srv.rows, id, w) && Unanswered(Project(p), Project(y), id, w)
      && CleanFor(z, w, id)
    ensures |Pool.Do(At(z).pools[w], Pool.Deliver).slots| == |At(z).pools[w].slots|
    ensures Pool.Do(At(z).pools[w], Pool.Deliver).slots[k] == Pool.Executing(At(z).pools[w].slots[k].task, true)
  {
    ToldSoFar(Next(y, now, ReadStops(w, stops)), z);
    EveryLaterPullListsIt(p, y, now, w, stops, At(z).pools[w].slots[k].task.id);
    ListedExecutionIsCancelled(z, w, k);
  }
}

/** Where a stop can miss: which registrations a worker of the fleet can still be told to
    stop, whatever the server, the operators and the other workers do next, and a story
    in which a stop is lost. */
module StopLimits {
  import opened Tasks
  import opened Lifecycle
  import opened Protocol
  import opened Ownership
  import opened Finality
  import opened Fleet
  import opened StopDelivery
  import Pool
  import Drain

  // ---- later stories ------------------------------------------------------------------

  predicate RegistersIn(z: Story, now: Time, m: Move, w: string, id: int) {
    m.Local? && m.w == w && w in At(z).pools && Pool.Registers(At(z).pools[w], m.e, id)
  }

  /** z continues y, and in between the task does not register on w again. */
  predicate Since(y: Story, z: Story, w: string, id: int) {
    y == z || (z.Next? && Since(y, z.prev, w, id) && !RegistersIn(z.prev, z.now, z.m, w, id))
  }

  /** Slot k of w executes the task. */
  predicate RunsAt(z: Story, w: string, k: nat, id: int) {
    w in At(z).pools && Pool.Runs(At(z).pools[w], k, id)
  }

  /** A response that lists the task is about to be processed by w. */
  predicate ListedAt(z: Story, w: string, id: int) {
    w in At(z).pools && At(z).pools[w].fetcher.Answered? && id in At(z).pools[w].fetcher.stops
  }

  /** In every careful later story, up to the next registration of the task: while slot k
      executes it, a response that lists it leaves it cancelled. */
  ghost predicate CanBeStopped(y: Story, w: string, k: nat, id: int) {
    forall z :: Since(y, z, w, id) && Told(z) && Careful(z) && RunsAt(z, w, k, id) && ListedAt(z, w, id) ==>
      var q := Pool.Do(At(z).pools[w], Pool.Deliver);
      Pool.Runs(q, k, id) && q.slots[k].cancelled
  }

  /** The task's row is gone, and no list the worker has yet to process names it. */
  predicate BeyondStopping(f: Fleet, w: string, id: int) {
    && id < f.srv.nextId && id !in f.srv.rows
    && (w in f.pools && f.pools[w].fetcher.Answered? ==> id !in f.pools[w].fetcher.stops)
  }

  lemma {:induction false} SinceContinues(y: Story, z: Story, w: string, id: int)
    requires Since(y, z, w, id) && Told(z)
    ensures Continues(y, z) && Told(y)
  {
    if y != z {
      SinceContinues(y, z.prev, w, id);
    }
  }

  // ---- within reach -------------------------------------------------------------------

  lemma {:induction false} SinceInThePool(y: Story, z: Story, w: string, id: int)
    requires Since(y, z, w, id) && w in At(y).pools && w in At(z).pools
    ensures Pool.Since(PoolRun(y, w), PoolRun(z, w), id)
  {
    if y != z {
      SinceInThePool(y, z.prev, w, id);
      WorkersRunTheirPools(z.prev, w);
    }
  }

  lemma RegistrationInThePool(y: Story, now: Time, w: string, k: nat)
    requires Told(Next(y, now, Local(w, Pool.Register(k))))
    ensures w in At(y).pools && k < |At(y).pools[w].slots| && At(y).pools[w].slots[k].Taken?
    ensures w in At(Next(y, now, Local(w, Pool.Register(k)))).pools
    ensures PoolRun(Next(y, now, Local(w, Pool.Register(k))), w) == Pool.Step(PoolRun(y, w), Pool.Register(k))
  {
  }

  /** Under careful restarts nothing else on the worker executes the task. */
  lemma SoleIffNoneLingers(y: Story, w: string, k: nat)
    requires Told(y) && Careful(y) && w in At(y).pools
    requires k < |At(y).pools[w].slots| && At(y).pools[w].slots[k].Taken?
    ensures
      var p, id := At(y).pools[w], At(y).pools[w].slots[k].task.id;
      Pool.Sole(p, k, id) <==> Pool.NoneLingers(p, id)
  {
    var p, id := At(y).pools[w], At(y).pools[w].slots[k].task.id;
    CarefulExecutionsAreUnique(y, id, w, w);
    forall j | 0 <= j < |p.slots| && j != k && p.slots[j].Executing? ensures p.slots[j].task.id != id {
      AtMostOneSlot(p, j, k);
    }
  }

  lemma CleanRegistrationCanBeStopped(y: Story, now: Time, w: string, k: nat, id: int)
    requires Told(Next(y, now, Local(w, Pool.Register(k)))) && Careful(y)
    requires w in At(y).pools && k < |At(y).pools[w].slots| && At(y).pools[w].slots[k].Taken?
    requires id == At(y).pools[w].slots[k].task.id && Pool.NoneLingers(At(y).pools[w], id)
    ensures CanBeStopped(Next(y, now, Local(w, Pool.Register(k))), w, k, id)
  {
    var y' := Next(y, now, Local(w, Pool.Register(k)));
    RegistrationInThePool(y, now, w, k);
    SoleIffNoneLingers(y, w, k);
    WorkersRunTheirPools(y, w);
    WorkersRunTheirPools(y', w);
    Pool.RegistrationIsStoppableIff(PoolRun(y', w), k);
    forall z | Since(y', z, w, id) && Told(z) && Careful(z) && RunsAt(z, w, k, id) && ListedAt(z, w, id)
      ensures Pool.Runs(Pool.Do(At(z).pools[w], Pool.Deliver), k, id) && Pool.Do(At(z).pools[w], Pool.Deliver).slots[k].cancelled
    {
      SinceInThePool(y', z, w, id);
      WorkersRunTheirPools(z, w);
    }
  }

  // ---- nothing left to stop -----------------------------------------------------------

  lemma MoveKeepsBeyond(f: Fleet, now: Time, m: Move, w: string, id: int)
    requires CanHappen(f, now, m) && BeyondStopping(f, w, id)
    ensures BeyondStopping(Happen(f, now, m), w, id)
  {
    var f' := Happen(f, now, m);
    if AtServer(f, m).Some? {
      StepMovesForward(f.srv, now, AtServer(f, m).value);
      if id in f'.srv.rows {
        NewRows(f.srv, now, AtServer(f, m).value, id);
      }
    }
    if m.ReadStops? && m.w == w {
      assert id in m.stops <==> Listed(f.srv.rows, id, w);
    }
  }

  lemma {:induction false} StaysBeyond(y: Story, z: Story, w: string, id: int)
    requires Continues(y, z) && Told(z) && BeyondStopping(At(y), w, id)
    ensures BeyondStopping(At(z), w, id)
  {
    if y != z {
      StaysBeyond(y, z.prev, w, id);
      MoveKeepsBeyond(At(z.prev), z.now, z.m, w, id);
    }
  }

  lemma GoneTasksAreNeverListed(y: Story, w: string, k: nat, id: int)
    requires BeyondStopping(At(y), w, id)
    ensures CanBeStopped(y, w, k, id)
  {
    forall z | Since(y, z, w, id) && Told(z) ensures !ListedAt(z, w, id) {
      SinceContinues(y, z, w, id);
      StaysBeyond(y, z, w, id);
    }
  }

  // ---- out of reach -------------------------------------------------------------------

  /** A careful story after y in which slot k executes the task, uncancelled and forgotten. */
  ghost predicate Forgotten(y: Story, z: Story, w: string, k: nat, id: int) {
    && Since(y, z, w, id) && Told(z) && Careful(z) && RunsAt(z, w, k, id)
    && !At(z).pools[w].slots[k].cancelled && id !in At(z).pools[w].active
  }

  /** A pool step that leaves slot k and the map alone. */
  predicate Bystander(e: Pool.Event, k: nat) {
    e.Ask? || e.ReadStops? || e.DropResponse? || e.Push? || (e.Take? && e.k != k)
  }

  lemma Forget(y: Story, z: Story, now: Time, m: Move, w: string, k: nat, id: int) returns (z': Story)
    requires Forgotten(y, z, w, k, id) && CanHappen(At(z), now, m) && CarefulMove(At(z), m)
    requires m.Operator? || (AtWorker(m) && m.w == w && Bystander(AtPool(At(z), now, m), k))
    ensures z' == Next(z, now, m) && Forgotten(y, z', w, k, id) && At(z') == Happen(At(z), now, m)
  {
    z' := Next(z, now, m);
  }

  lemma HitsAreStored(p: Pool.State, stops: seq<int>, k: nat)
    requires Pool.ActiveOk(p) && k < |p.slots| && p.slots[k].Executing?
    ensures Pool.Hits(p, stops, k) ==> p.slots[k].task.id in p.active
  {
    if Pool.Hits(p, stops, k) {
      var i :| 0 <= i < |stops| && stops[i] in p.active && p.active[stops[i]] == k;
      assert p.slots[k].task.id == stops[i];
    }
  }

  lemma Misses(p: Pool.State, k: nat, id: int)
    requires Pool.ActiveOk(p) && p.fetcher.Answered? && Pool.Runs(p, k, id) && !p.slots[k].cancelled && id !in p.active
    ensures Pool.Runs(Pool.Do(p, Pool.Deliver), k, id) && !Pool.Do(p, Pool.Deliver).slots[k].cancelled
  {
    Pool.CancelAllEffect(p, p.fetcher.stops);
    HitsAreStored(p, p.fetcher.stops, k);
  }

  lemma ForgottenAndListedIsMissed(y: Story, z: Story, w: string, k: nat, id: int)
    requires Forgotten(y, z, w, k, id) && ListedAt(z, w, id)
    ensures !CanBeStopped(y, w, k, id)
  {
    FleetRefinesProtocol(z);
    Misses(At(z).pools[w], k, id);
  }

  /** The lingering execution leaves and takes the new one's cancel function along. */
  lemma LingererLeaves(y: Story, w: string, k: nat, j: nat, id: int) returns (z: Story)
    requires Told(y) && Careful(y) && RunsAt(y, w, k, id) && !At(y).pools[w].slots[k].cancelled
    requires j < |At(y).pools[w].slots| && At(y).pools[w].slots[j].Done? && At(y).pools[w].slots[j].task.id == id
    ensures Forgotten(y, z, w, k, id) && At(z).srv.rows == At(y).srv.rows
    ensures j < |At(z).pools[w].slots| && At(z).pools[w].slots[j].Free?
    ensures ListedAt(z, w, id) <==> ListedAt(y, w, id)
  {
    assert Since(y, y, w, id);
    z := Next(y, At(y).srv.clock, Local(w, Pool.Leave(j)));
  }

  /** The fetcher gives up or hands over what it has, and is back at its next pull. */
  lemma FetcherReturns(y: Story, z0: Story, w: string, k: nat, j: nat, id: int) returns (z: Story)
    requires Forgotten(y, z0, w, k, id) && j < |At(z0).pools[w].slots| && At(z0).pools[w].slots[j].Free?
    ensures Forgotten(y, z, w, k, id) && At(z).pools[w].fetcher.Idle? && At(z).srv.rows == At(z0).srv.rows
  {
    z := z0;
    match At(z0).pools[w].fetcher
    case Idle =>
    case Claimed(_) => z := GivesUp(y, z0, w, k, id);
    case Answered(_, _) => z := GivesUp(y, z0, w, k, id);
    case Holding(_) =>
      FleetRefinesProtocol(z0);
      if !Pool.Room(At(z0).pools[w]) {
        z := Forget(y, z0, At(z0).srv.clock, Local(w, Pool.Take(j)), w, k, id);
      }
      z := HandsOver(y, z, w, k, id);
  }

  lemma GivesUp(y: Story, z0: Story, w: string, k: nat, id: int) returns (z: Story)
    requires Forgotten(y, z0, w, k, id) && (At(z0).pools[w].fetcher.Claimed? || At(z0).pools[w].fetcher.Answered?)
    ensures Forgotten(y, z, w, k, id) && At(z).pools[w].fetcher.Idle? && At(z).srv.rows == At(z0).srv.rows
  {
    z := Forget(y, z0, At(z0).srv.clock, LoseResponse(w), w, k, id);
  }

  lemma HandsOver(y: Story, z0: Story, w: string, k: nat, id: int) returns (z: Story)
    requires Forgotten(y, z0, w, k, id) && At(z0).pools[w].fetcher.Holding? && Pool.Room(At(z0).pools[w])
    ensures Forgotten(y, z, w, k, id) && At(z).pools[w].fetcher.Idle? && At(z).srv.rows == At(z0).srv.rows
  {
    z := Forget(y, z0, At(z0).srv.clock, Local(w, Pool.Push), w, k, id);
  }

  /** An operator stops the task its worker is executing. */
  lemma OperatorStops(y: Story, z0: Story, w: string, k: nat, id: int) returns (z: Story)
    requires Forgotten(y, z0, w, k, id) && id in At(z0).srv.rows
    ensures Forgotten(y, z, w, k, id) && At(z).pools == At(z0).pools && Listed(At(z).srv.rows, id, w) && w != ""
  {
    FleetRefinesProtocol(z0);
    CarefulExecutionsAreUnique(z0, id, w, w);
    ExecutingIsHeld(At(z0), w, k);
    assert Token(id, w).workerId == w && Token(id, w).taskId == id;
    z := Forget(y, z0, At(z0).srv.clock, Operator(Stop(id)), w, k, id);
  }

  /** There is always an answer to a pull. */
  lemma SomeAnswer(s: State, w: string) returns (got: Option<int>)
    requires w != ""
    ensures Possible(s, s.clock, Claim(w, got))
  {
    var due := set i | i in s.rows && Due(s.rows[i], s.clock);
    got := None;
    if i :| i in due {
      var id := Drain.EarliestExists(s.rows, due);
      got := Some(id);
    } else {
      assert forall j :: j in s.rows && Due(s.rows[j], s.clock) ==> j in due;
    }
  }

  lemma {:induction false} SomeStopList(rows: Rows, w: string, n: nat) returns (stops: seq<int>)
    ensures forall id :: id in stops <==> 0 <= id < n && Listed(rows, id, w)
  {
    stops := [];
    if n > 0 {
      stops := SomeStopList(rows, w, n - 1);
      if Listed(rows, n - 1, w) {
        stops := stops + [n - 1];
      }
    }
  }

  lemma ClaimKeepsListed(s: State, now: Time, w: string, got: Option<int>, id: int)
    requires Possible(s, now, Claim(w, got)) && Listed(s.rows, id, w)
    ensures Listed(Apply(s, now, Claim(w, got)).rows, id, w)
  {
  }

  /** The worker pulls and is told. */
  lemma WorkerIsTold(y: Story, z0: Story, w: string, k: nat, id: int) returns (z: Story)
    requires Forgotten(y, z0, w, k, id) && At(z0).pools[w].fetcher.Idle? && Listed(At(z0).srv.rows, id, w) && w != ""
    ensures Forgotten(y, z, w, k, id) && ListedAt(z, w, id)
  {
    var now := At(z0).srv.clock;
    var got := SomeAnswer(At(z0).srv, w);
    ClaimKeepsListed(At(z0).srv, now, w, got, id);
    z := Forget(y, z0, now, Pull(w, got), w, k, id);
    FleetRefinesProtocol(z);
    var stops := SomeStopList(At(z).srv.rows, w, At(z).srv.nextId);
    z := Forget(y, z, now, ReadStops(w, stops), w, k, id);
  }

  lemma NextStopIsMissed(y: Story, z0: Story, w: string, k: nat, id: int)
    requires Forgotten(y, z0, w, k, id) && At(z0).pools[w].fetcher.Idle? && id in At(z0).srv.rows
    ensures !CanBeStopped(y, w, k, id)
  {
    var stopped := OperatorStops(y, z0, w, k, id);
    var told := WorkerIsTold(y, stopped, w, k, id);
    ForgottenAndListedIsMissed(y, told, w, k, id);
  }

  lemma LingererCostsTheStop(y: Story, w: string, k: nat, j: nat, id: int)
    requires Told(y) && Careful(y) && RunsAt(y, w, k, id) && !At(y).pools[w].slots[k].cancelled
    requires j < |At(y).pools[w].slots| && At(y).pools[w].slots[j].Done? && At(y).pools[w].slots[j].task.id == id
    requires id in At(y).srv.rows || ListedAt(y, w, id)
    ensures !CanBeStopped(y, w, k, id)
  {
    var left := LingererLeaves(y, w, k, j, id);
    if ListedAt(y, w, id) {
      ForgottenAndListedIsMissed(y, left, w, k, id);
    } else {
      var idle := FetcherReturns(y, left, w, k, j, id);
      NextStopIsMissed(y, idle, w, k, id);
    }
  }

  // ---- exactly ------------------------------------------------------------------------

  /** With careful restarts, an execution that registers can be stopped for as long as the
      task does not register again, over everything the fleet can go through, exactly when
      no earlier execution of the task lingers on the worker, or its row is gone and no
      list under way names it, so that nobody will ask. */
  lemma CleanIsExact(y: Story, now: Time, w: string, k: nat)
    requires Told(Next(y, now, Local(w, Pool.Register(k)))) && Careful(y)
    ensures w in At(y).pools && k < |At(y).pools[w].slots| && At(y).pools[w].slots[k].Taken?
    ensures
      var f, p, id := At(y), At(y).pools[w], At(y).pools[w].slots[k].task.id;
      CanBeStopped(Next(y, now, Local(w, Pool.Register(k))), w, k, id)
      <==> Pool.NoneLingers(p, id) || (id !in f.srv.rows && !(p.fetcher.Answered? && id in p.fetcher.stops))
  {
    RegistrationInThePool(y, now, w, k);
    var p, id := At(y).pools[w], At(y).pools[w].slots[k].task.id;
    var y' := Next(y, now, Local(w, Pool.Register(k)));
    if Pool.NoneLingers(p, id) {
      CleanRegistrationCanBeStopped(y, now, w, k, id);
    } else if id !in At(y).srv.rows && !(p.fetcher.Answered? && id in p.fetcher.stops) {
      TakenIdIsKnown(y, w, k);
      GoneTasksAreNeverListed(y', w, k, id);
    } else {
      var j: nat :| j < |p.slots| && p.slots[j].Done? && p.slots[j].task.id == id;
      LingererCostsTheStop(y', w, k, j, id);
    }
  }

  lemma TakenIdIsKnown(y: Story, w: string, k: nat)
    requires Told(y) && Careful(y) && w in At(y).pools && k < |At(y).pools[w].slots| && At(y).pools[w].slots[k].Taken?
    ensures At(y).pools[w].slots[k].task.id < At(y).srv.nextId
  {
    var p, id := At(y).pools[w], At(y).pools[w].slots[k].task.id;
    FleetRefinesProtocol(y);
    CarefulExecutionsAreUnique(y, id, w, w);
    SlotCounts(p.slots, k, id);
    assert At(y).srv.tokens[Token(id, w)] == HeldBy(At(y), id, w) > 0;
    assert Token(id, w).taskId == id;
  }

  // ---- a registration that was not clean ------------------------------------------------------

  /** A careful story of one worker has come to this point. */
  ghost predicate Reached(y: Story, s: State, w: string, p: Pool.State, mail: seq<Message>) {
    Told(y) && Careful(y) && At(y) == Fleet(s, map[w := p], mail)
  }

  lemma PoolMoves(y: Story, s: State, w: string, p: Pool.State, mail: seq<Message>, e: Pool.Event) returns (y': Story, p': Pool.State)
    requires Reached(y, s, w, p, mail) && Pool.CanDo(p, e) && IsLocal(e)
    ensures p' == Pool.Do(p, e) && Reached(y', s, w, p', mail)
  {
    y', p' := Next(y, s.clock, Local(w, e)), Pool.Do(p, e);
    assert map[w := p][w := p'] == map[w := p'];
  }

  lemma ServerMoves(y: Story, s: State, w: string, p: Pool.State, mail: seq<Message>, ev: Event) returns (y': Story, s': State)
    requires Reached(y, s, w, p, mail) && FromOperator(ev) && Possible(s, s.clock, ev)
    requires ev.Restart? ==> mail == [] && InFlight(p, ev.id) == 0
    ensures s' == Apply(s, s.clock, ev) && Reached(y', s', w, p, mail)
  {
    y', s' := Next(y, s.clock, Operator(ev)), Apply(s, s.clock, ev);
  }

  lemma Stops(y0: Story, s: State, w: string, p: Pool.State, t: Task) returns (y: Story, s': State)
    requires Reached(y0, s, w, p, []) && s.rows == map[1 := t] && Active(t)
    ensures Reached(y, s', w, p, []) && s'.clock == s.clock && s'.rows == map[1 := StopRow(t, "stopped by user", s.clock)]
  {
    y, s' := ServerMoves(y0, s, w, p, [], Stop(1));
  }

  lemma Restarts(y0: Story, s: State, w: string, p: Pool.State, t: Task) returns (y: Story, s': State)
    requires Reached(y0, s, w, p, []) && s.rows == map[1 := t] && t.status.Stopped? && InFlight(p, 1) == 0
    ensures Reached(y, s', w, p, []) && s'.clock == s.clock && s'.rows == map[1 := ResumeRow(t, s.clock)]
  {
    y, s' := ServerMoves(y0, s, w, p, [], Restart(1));
  }

  lemma Pulls(y0: Story, s: State, w: string, p: Pool.State, mail: seq<Message>, got: Option<int>, stops: seq<int>)
    returns (y: Story, s': State, p': Pool.State)
    requires Reached(y0, s, w, p, mail) && p.fetcher.Idle? && Possible(s, s.clock, Claim(w, got))
    requires forall id :: id in stops <==> Listed(Apply(s, s.clock, Claim(w, got)).rows, id, w)
    ensures s' == Apply(s, s.clock, Claim(w, got)) && Reached(y, s', w, p', mail)
    ensures p' == p.(fetcher := Pool.Answered(if got.Some? then Some(s'.rows[got.value]) else None, stops))
  {
    s' := Apply(s, s.clock, Claim(w, got));
    var task := if got.Some? then Some(s'.rows[got.value]) else None;
    p' := p.(fetcher := Pool.Answered(task, stops));
    var y1 := Next(y0, s.clock, Pull(w, got));
    assert map[w := p][w := p.(fetcher := Pool.Claimed(task))] == map[w := p.(fetcher := Pool.Claimed(task))];
    assert Reached(y1, s', w, p.(fetcher := Pool.Claimed(task)), mail);
    y := Next(y1, s.clock, ReadStops(w, stops));
    assert map[w := p.(fetcher := Pool.Claimed(task))][w := p'] == map[w := p'];
  }

  /** The worker of a one-row table pulls the row and starts it in a free slot. */
  lemma PulledInto(y0: Story, s: State, w: string, p0: Pool.State, row: Task, k: nat) returns (y: Story, s': State, p: Pool.State)
    requires Reached(y0, s, w, p0, []) && w != "" && s.rows == map[1 := row] && row.id == 1 && Due(row, s.clock)
    requires p0.fetcher.Idle? && p0.jobs == [] && p0.workers > 0 && k < |p0.slots| && p0.slots[k].Free?
    ensures s'.clock == s.clock && Reached(y, s', w, p, [])
    ensures
      var t := ClaimRow(row, w, s.clock);
      s'.rows == map[1 := t] && p == p0.(slots := p0.slots[k := Pool.Executing(t, false)], active := p0.active[1 := k])
  {
    var t := ClaimRow(row, w, s.clock);
    assert ClaimRows(s.rows, 1, w, s.clock) == map[1 := t];
    y, s', p := Pulls(y0, s, w, p0, [], Some(1), []);
    y, p := PoolMoves(y, s', w, p, [], Pool.Deliver);
    assert p == p0.(fetcher := Pool.Holding(t));
    y, p := PoolMoves(y, s', w, p, [], Pool.Push);
    assert p == p0.(jobs := [t]);
    y, p := PoolMoves(y, s', w, p, [], Pool.Take(k));
    assert p == p0.(slots := p0.slots[k := Pool.Taken(t)]);
    y, p := PoolMoves(y, s', w, p, [], Pool.Register(k));
    assert p.slots == p0.slots[k := Pool.Executing(t, false)];
  }

  /** A one-row system whose worker executes the row, uncancelled, in slot 0 of 2. */
  lemma StartedInSlotZero(w: string, d: Draft) returns (y: Story, s: State, p: Pool.State, t: Task)
    requires w != "" && d.name != "" && d.command != "" && d.kind.Once?
    ensures Reached(y, s, w, p, []) && t.id == 1 && t.kind.Once? && t.status.Running? && t.workerId == w
    ensures s.rows == map[1 := t] && p == Pool.State(2, Pool.Idle, [], [Pool.Executing(t, false), Pool.Free], map[1 := 0])
  {
    p := Pool.NewPool(2);
    assert p.slots == [Pool.Free, Pool.Free];
    y := Boot(map[w := 2]);
    assert Reached(y, INITIAL, w, p, []);
    y, s := ServerMoves(y, INITIAL, w, p, [], Create(d));
    var row := NewRow(FromDraft(d), 1, 0);
    assert s.rows == map[1 := row];
    t := ClaimRow(row, w, 0);
    y, s, p := PulledInto(y, s, w, p, row, 0);
  }

  /** The execution ends in time and its report detaches the row an operator has just
      stopped; the client has not seen the answer yet, so slot 0 lingers. */
  lemma StoppedAndDetached(y0: Story, s0: State, w: string, p0: Pool.State, t: Task) returns (y: Story, s: State, p: Pool.State)
    requires Reached(y0, s0, w, p0, []) && t.id == 1 && t.kind.Once? && t.status.Running? && t.workerId == w && w != ""
    requires s0.rows == map[1 := t] && p0 == Pool.State(2, Pool.Idle, [], [Pool.Executing(t, false), Pool.Free], map[1 := 0])
    ensures Reached(y, s, w, p, []) && s.clock == s0.clock && s.rows == map[1 := StopRow(t, "stopped by user", s.clock).(workerId := "")]
    ensures p == p0.(slots := [Pool.Done(t), Pool.Free])
  {
    y, s := Stops(y0, s0, w, p0, t);
    y, p := Reports(y, s, w, p0, 0, true);
    y, s := Arrives(y, s, w, p, Outcome(1, w, true, ""));
  }

  lemma Arrives(y0: Story, s: State, w: string, p: Pool.State, o: Outcome) returns (y: Story, s': State)
    requires Reached(y0, s, w, p, [Said(o)])
    ensures s'.clock == s.clock && s'.rows == ReportRows(s.rows, o, s.clock) && Reached(y, s', w, p, [])
  {
    y, s' := Next(y0, s.clock, Arrive(0)), Apply(s, s.clock, Report(o));
    assert Without([Said(o)], 0) == [];
  }

  lemma Reports(y0: Story, s: State, w: string, p: Pool.State, k: nat, success: bool) returns (y: Story, p': Pool.State)
    requires Reached(y0, s, w, p, []) && k < |p.slots| && p.slots[k].Executing? && !p.slots[k].cancelled
    ensures p' == p.(slots := p.slots[k := Pool.Done(p.slots[k].task)])
    ensures Reached(y, s, w, p', [Said(Outcome(p.slots[k].task.id, w, success, ""))])
  {
    var m := Finish(w, k, Some((success, "")));
    y, p' := Next(y0, s.clock, m), Pool.Do(p, Pool.Complete(k));
    assert map[w := p][w := p'] == map[w := p'];
    assert MailAfter(At(y0), m) == [Said(Outcome(p.slots[k].task.id, w, success, ""))];
  }

  /** An operator restarts the row; the worker pulls it into slot 1, and then slot 0 leaves. */
  lemma StartedAgain(y0: Story, s0: State, w: string, p0: Pool.State, t0: Task)
    returns (y: Story, s: State, p: Pool.State, t: Task)
    requires Reached(y0, s0, w, p0, []) && s0.rows == map[1 := t0] && t0.id == 1 && t0.kind.Once? && t0.status.Stopped? && w != ""
    requires p0.fetcher.Idle? && p0.jobs == [] && p0.workers == 2
    requires |p0.slots| == 2 && p0.slots[0].Done? && p0.slots[0].task.id == 1 && p0.slots[1].Free?
    ensures Reached(y, s, w, p, []) && s.rows == map[1 := t] && t.id == 1 && t.kind.Once? && t.status.Running? && t.workerId == w
    ensures p == p0.(slots := [Pool.Free, Pool.Executing(t, false)], active := p0.active[1 := 1] - {1})
  {
    assert InSlots(p0.slots, 1) == 0 by {
      assert p0.slots[1..] == [p0.slots[1]];
      FreeSlotsHoldNothing([p0.slots[1]], 1);
    }
    y, s := Restarts(y0, s0, w, p0, t0);
    t := ClaimRow(ResumeRow(t0, s.clock), w, s.clock);
    y, s, p := PulledInto(y, s, w, p0, ResumeRow(t0, s.clock), 1);
    y, p := PoolMoves(y, s, w, p, [], Pool.Leave(0));
    assert p.slots == [Pool.Free, Pool.Executing(t, false)];
  }

  /** With every restart careful, a task that comes back to a worker before its previous
      execution there has left can be missed: its row is stopped and owned by the worker,
      the response lists it, it is executing, and processing the response cancels nothing. */
  lemma StopCanMissAnExecution(w: string, d: Draft) returns (y: Story)
    requires w != "" && d.name != "" && d.command != "" && d.kind.Once?
    ensures Told(y) && Careful(y) && w in At(y).pools && At(y).pools[w].fetcher == Pool.Answered(None, [1])
    ensures Listed(At(y).srv.rows, 1, w)
    ensures
      var p := At(y).pools[w];
      |p.slots| == 2 && p.slots[1].Executing? && p.slots[1].task.id == 1 && !p.slots[1].cancelled
      && Pool.Do(p, Pool.Deliver).slots == p.slots
  {
    var s, p, t;
    y, s, p, t := StartedInSlotZero(w, d);
    y, s, p := StoppedAndDetached(y, s, w, p, t);
    y, s, p, t := StartedAgain(y, s, w, p, s.rows[1]);
    y, s := Stops(y, s, w, p, t);
    y, s, p := Pulls(y, s, w, p, [], None, [1]);
    Pool.RepeatedListingIsNoOp(p, [1]);
  }
}

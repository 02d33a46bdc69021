/** A worker process (internal/worker/pool.go): one fetcher, a bounded jobs queue,
    a fixed set of executor slots, and the map of cancel functions. Each step is
    one thing a goroutine does between two synchronisation points. */
module Pool {
  import opened Tasks

  /** Where the fetcher is inside fetch: between pulls, after the server claimed,
      after it read the stop list, or blocked on the jobs channel. */
  datatype Fetcher =
    | Idle
    | Claimed(got: Option<Task>)
    | Answered(got: Option<Task>, stops: seq<int>)
    | Holding(task: Task)

  /** Where an executor is inside runTask: the task is dequeued, registered and
      executing, or finished but not yet unregistered. */
  datatype Slot =
    | Free
    | Taken(task: Task)
    | Executing(task: Task, cancelled: bool)
    | Done(task: Task)

  datatype State = State(workers: nat, fetcher: Fetcher, jobs: seq<Task>, slots: seq<Slot>, active: map<int, nat>)

  datatype Event =
    | Ask(claimed: Option<Task>)
    | ReadStops(stops: seq<int>)
    | DropResponse
    | Deliver
    | Push
    | Take(k: nat)
    | Register(k: nat)
    | Expire(k: nat)
    | Complete(k: nat)
    | Leave(k: nat)

  function NewPool(workers: int): State {
    var n := Max(1, workers);
    State(n, Idle, [], seq(n, _ => Free), map[])
  }

  predicate Room(p: State) {
    |p.jobs| < p.workers * 2
  }

  function CancelOne(p: State, id: int): State {
    if id !in p.active then p else
    var k := p.active[id];
    p.(active := p.active - {id},
       slots := if k < |p.slots| && p.slots[k].Executing? then p.slots[k := p.slots[k].(cancelled := true)] else p.slots)
  }

  /** Cancel the listed tasks, first to last. */
  function CancelAll(p: State, ids: seq<int>): State {
    if ids == [] then p else CancelOne(CancelAll(p, ids[..|ids| - 1]), ids[|ids| - 1])
  }

  predicate CanDo(p: State, e: Event) {
    match e
    case Ask(_) => p.fetcher.Idle?
    case ReadStops(_) => p.fetcher.Claimed?
    case DropResponse => p.fetcher.Claimed? || p.fetcher.Answered?
    case Deliver => p.fetcher.Answered?
    case Push => p.fetcher.Holding? && Room(p)
    case Take(k) => k < |p.slots| && p.slots[k].Free? && p.jobs != []
    case Register(k) => k < |p.slots| && p.slots[k].Taken?
    case Expire(k) => k < |p.slots| && p.slots[k].Executing?
    case Complete(k) => k < |p.slots| && p.slots[k].Executing?
    case Leave(k) => k < |p.slots| && p.slots[k].Done?
  }

  function Do(p: State, e: Event): State
    requires CanDo(p, e)
  {
    match e
    case Ask(got) => p.(fetcher := Claimed(got))
    case ReadStops(stops) => p.(fetcher := Answered(p.fetcher.got, stops))
    case DropResponse => p.(fetcher := Idle)
    case Deliver =>
      CancelAll(p, p.fetcher.stops).(fetcher := if p.fetcher.got.Some? then Holding(p.fetcher.got.value) else Idle)
    case Push => p.(fetcher := Idle, jobs := p.jobs + [p.fetcher.task])
    case Take(k) => p.(jobs := p.jobs[1..], slots := p.slots[k := Taken(p.jobs[0])])
    case Register(k) =>
      p.(slots := p.slots[k := Executing(p.slots[k].task, false)], active := p.active[p.slots[k].task.id := k])
    case Expire(k) => p.(slots := p.slots[k := p.slots[k].(cancelled := true)])
    case Complete(k) => p.(slots := p.slots[k := Done(p.slots[k].task)])
    case Leave(k) => p.(slots := p.slots[k := Free], active := p.active - {p.slots[k].task.id})
  }

  // ---- stop delivery within one pool ------------------------------------------

  /** The cancel function stored for an id belongs to the slot that runs it. */
  predicate ActiveOk(p: State) {
    forall id :: id in p.active ==>
      var k := p.active[id];
      k < |p.slots| && (p.slots[k].Executing? || p.slots[k].Done?) && p.slots[k].task.id == id
  }

  predicate Hits(p: State, ids: seq<int>, k: nat) {
    exists i :: 0 <= i < |ids| && ids[i] in p.active && p.active[ids[i]] == k
  }

  lemma CancelOneEffect(p: State, id: int)
    requires ActiveOk(p)
    ensures
      var p' := CancelOne(p, id);
      && p'.workers == p.workers && p'.jobs == p.jobs && p'.fetcher == p.fetcher && |p'.slots| == |p.slots|
      && ActiveOk(p')
      && p'.active == p.active - {id}
      && (forall k :: 0 <= k < |p.slots| ==>
            p'.slots[k] == if p.slots[k].Executing? && id in p.active && p.active[id] == k
                           then Executing(p.slots[k].task, true) else p.slots[k])
  {
  }

  lemma HitsByLast(p: State, front: seq<int>, last: int, k: nat)
    ensures Hits(p, front + [last], k) <==> Hits(p, front, k) || (last in p.active && p.active[last] == k)
    ensures last in front && last in p.active && p.active[last] == k ==> Hits(p, front, k)
  {
    var ids := front + [last];
    assert ids[|front|] == last && forall i :: 0 <= i < |front| ==> ids[i] == front[i];
    if Hits(p, front, k) {
      var i :| 0 <= i < |front| && front[i] in p.active && p.active[front[i]] == k;
      assert ids[i] == front[i];
    }
  }

  /** A stop list cancels exactly the executing slots whose cancel function is
      stored under a listed id, and forgets every listed id. */
  lemma {:induction false} CancelAllEffect(p: State, ids: seq<int>)
    requires ActiveOk(p)
    ensures
      var p' := CancelAll(p, ids);
      && p'.workers == p.workers && p'.jobs == p.jobs && p'.fetcher == p.fetcher && |p'.slots| == |p.slots|
      && ActiveOk(p')
      && p'.active == p.active - (set id | id in ids)
      && (forall k :: 0 <= k < |p.slots| ==>
            p'.slots[k] == if p.slots[k].Executing? && Hits(p, ids, k) then Executing(p.slots[k].task, true) else p.slots[k])
  {
    if ids != [] {
      var front, last := ids[..|ids| - 1], ids[|ids| - 1];
      var q, p' := CancelAll(p, front), CancelAll(p, ids);
      CancelAllEffect(p, front);
      assert p' == CancelOne(q, last);
      CancelOneEffect(q, last);
      forall k | 0 <= k < |p.slots|
        ensures p'.slots[k] == if p.slots[k].Executing? && Hits(p, ids, k) then Executing(p.slots[k].task, true) else p.slots[k]
      {
        HitsByLast(p, front, last, k);
        assert ids == front + [last];
      }
      assert (set id | id in ids) == (set id | id in front) + {last} by {
        assert ids == front + [last];
      }
      assert p'.active == q.active - {last};
    }
  }

  /** Listing ids that are not stored changes nothing. */
  lemma {:induction false} RepeatedListingIsNoOp(p: State, ids: seq<int>)
    requires forall id :: id in ids ==> id !in p.active
    ensures CancelAll(p, ids) == p
  {
    if ids != [] {
      RepeatedListingIsNoOp(p, ids[..|ids| - 1]);
    }
  }

  predicate NoneLingers(p: State, id: int) {
    forall j :: 0 <= j < |p.slots| && p.slots[j].Done? ==> p.slots[j].task.id != id
  }

  // ---- conservation over whole runs --------------------------------------------

  datatype Run = Begin(workers: int) | Step(prev: Run, e: Event)

  function After(r: Run): State {
    match r
    case Begin(n) => NewPool(n)
    case Step(p, e) => if CanDo(After(p), e) then Do(After(p), e) else After(p)
  }

  predicate Valid(r: Run) {
    match r
    case Begin(_) => true
    case Step(p, e) => Valid(p) && CanDo(After(p), e)
  }

  /** Tasks the fetcher has decoded from responses, in order. */
  function Received(r: Run): seq<Task>
    requires Valid(r)
  {
    match r
    case Begin(_) => []
    case Step(p, e) =>
      Received(p) + if e.Deliver? && After(p).fetcher.got.Some? then [After(p).fetcher.got.value] else []
  }

  /** Tasks the executors have dequeued, in order. */
  function Started(r: Run): seq<Task>
    requires Valid(r)
  {
    match r
    case Begin(_) => []
    case Step(p, e) => Started(p) + if e.Take? then [After(p).jobs[0]] else []
  }

  /** Tasks whose runTask has returned. */
  function Finished(r: Run): seq<Task>
    requires Valid(r)
  {
    match r
    case Begin(_) => []
    case Step(p, e) => Finished(p) + if e.Leave? then [After(p).slots[e.k].task] else []
  }

  function InHand(f: Fetcher): seq<Task> {
    if f.Holding? then [f.task] else []
  }

  function Load(s: Slot): multiset<Task> {
    if s.Free? then multiset{} else multiset{s.task}
  }

  /** The tasks the executor slots are busy with. */
  function Busy(slots: seq<Slot>): multiset<Task> {
    if slots == [] then multiset{} else Busy(slots[..|slots| - 1]) + Load(slots[|slots| - 1])
  }

  /** How often a task occurs among them. */
  function Copies(slots: seq<Slot>, t: Task): nat {
    if slots == [] then 0 else (if !slots[0].Free? && slots[0].task == t then 1 else 0) + Copies(slots[1..], t)
  }

  lemma {:induction false} CopiesOfLast(front: seq<Slot>, last: Slot, t: Task)
    ensures Copies(front + [last], t) == Copies(front, t) + Load(last)[t]
  {
    if front == [] {
      assert front + [last] == [last];
    } else {
      assert (front + [last])[1..] == front[1..] + [last];
      CopiesOfLast(front[1..], last, t);
    }
  }

  lemma {:induction false} BusyCounts(slots: seq<Slot>, t: Task)
    ensures Busy(slots)[t] == Copies(slots, t)
  {
    if slots != [] {
      var front, last := slots[..|slots| - 1], slots[|slots| - 1];
      BusyCounts(front, t);
      CopiesOfLast(front, last, t);
      assert slots == front + [last];
    }
  }

  lemma {:induction false} CopiesUpdate(slots: seq<Slot>, k: nat, s: Slot, t: Task)
    requires k < |slots|
    ensures Copies(slots[k := s], t) + Load(slots[k])[t] == Copies(slots, t) + Load(s)[t]
  {
    if k == 0 {
      assert slots[k := s][1..] == slots[1..];
    } else {
      CopiesUpdate(slots[1..], k - 1, s, t);
      assert slots[k := s][1..] == slots[1..][k - 1 := s];
    }
  }

  lemma BusyUpdate(slots: seq<Slot>, k: nat, s: Slot, t: Task)
    requires k < |slots|
    ensures Busy(slots[k := s])[t] + Load(slots[k])[t] == Busy(slots)[t] + Load(s)[t]
  {
    BusyCounts(slots, t);
    BusyCounts(slots[k := s], t);
    CopiesUpdate(slots, k, s, t);
  }

  lemma {:induction false} FreeSlotsAreIdle(slots: seq<Slot>)
    requires forall k :: 0 <= k < |slots| ==> slots[k].Free?
    ensures Busy(slots) == multiset{}
  {
    if slots != [] {
      FreeSlotsAreIdle(slots[..|slots| - 1]);
    }
  }

  lemma {:induction false} SameLoadSameBusy(a: seq<Slot>, b: seq<Slot>)
    requires |a| == |b| && forall k :: 0 <= k < |a| ==> Load(a[k]) == Load(b[k])
    ensures Busy(a) == Busy(b)
  {
    if a != [] {
      var n := |a| - 1;
      forall k | 0 <= k < n ensures Load(a[..n][k]) == Load(b[..n][k]) {
        assert Load(a[k]) == Load(b[k]);
      }
      SameLoadSameBusy(a[..n], b[..n]);
    }
  }

  lemma {:induction false} BusyFits(slots: seq<Slot>)
    ensures |Busy(slots)| <= |slots|
  {
    if slots != [] {
      BusyFits(slots[..|slots| - 1]);
    }
  }

  predicate Sized(p: State) {
    p.workers >= 1 && |p.slots| == p.workers && |p.jobs| <= p.workers * 2
  }

  lemma StepKeepsShape(p: State, e: Event)
    requires Sized(p) && ActiveOk(p) && CanDo(p, e)
    ensures Sized(Do(p, e)) && ActiveOk(Do(p, e)) && Do(p, e).workers == p.workers
  {
    if e.Deliver? {
      CancelAllEffect(p, p.fetcher.stops);
    }
  }

  function Dequeued(p: State, e: Event): seq<Task>
    requires CanDo(p, e)
  {
    if e.Take? then [p.jobs[0]] else []
  }

  function Returned(p: State, e: Event): seq<Task>
    requires CanDo(p, e)
  {
    if e.Leave? then [p.slots[e.k].task] else []
  }

  /** One slot changes its load. */
  lemma SlotMovesLoad(slots: seq<Slot>, k: nat, s: Slot, gone: seq<Task>, come: seq<Task>)
    requires k < |slots|
    requires Load(slots[k]) + multiset(come) == Load(s) + multiset(gone)
    ensures Busy(slots[k := s]) + multiset(gone) == Busy(slots) + multiset(come)
  {
    var left, right := Busy(slots[k := s]) + multiset(gone), Busy(slots) + multiset(come);
    forall t: Task ensures left[t] == right[t] {
      BusyUpdate(slots, k, s, t);
      assert (Load(slots[k]) + multiset(come))[t] == (Load(s) + multiset(gone))[t];
    }
  }

  /** The one slot an executor step touches, and what it becomes. */
  predicate TouchesSlot(e: Event) {
    e.Take? || e.Register? || e.Expire? || e.Complete? || e.Leave?
  }

  function Becomes(p: State, e: Event): Slot
    requires CanDo(p, e) && TouchesSlot(e)
  {
    match e
    case Take(k) => Taken(p.jobs[0])
    case Register(k) => Executing(p.slots[k].task, false)
    case Expire(k) => Executing(p.slots[k].task, true)
    case Complete(k) => Done(p.slots[k].task)
    case Leave(k) => Free
  }

  lemma StepMovesLoad(p: State, e: Event)
    requires ActiveOk(p) && CanDo(p, e)
    ensures Busy(Do(p, e).slots) + multiset(Returned(p, e)) == Busy(p.slots) + multiset(Dequeued(p, e))
  {
    if TouchesSlot(e) {
      SlotMovesLoad(p.slots, e.k, Becomes(p, e), Returned(p, e), Dequeued(p, e));
      assert Do(p, e).slots == p.slots[e.k := Becomes(p, e)];
    } else if e.Deliver? {
      CancelAllEffect(p, p.fetcher.stops);
      SameLoadSameBusy(p.slots, Do(p, e).slots);
    }
  }

  lemma StepMovesQueue(p: State, e: Event, received: seq<Task>, started: seq<Task>)
    requires ActiveOk(p) && CanDo(p, e)
    requires received == started + p.jobs + InHand(p.fetcher)
    ensures
      received + (if e.Deliver? && p.fetcher.got.Some? then [p.fetcher.got.value] else [])
      == started + Dequeued(p, e) + Do(p, e).jobs + InHand(Do(p, e).fetcher)
  {
    if e.Take? {
      assert p.jobs == [p.jobs[0]] + p.jobs[1..];
    } else if e.Deliver? {
      CancelAllEffect(p, p.fetcher.stops);
    }
  }

  lemma StepBalances(started: seq<Task>, dequeued: seq<Task>, finished: seq<Task>, returned: seq<Task>,
                     busy: multiset<Task>, busy': multiset<Task>)
    requires multiset(started) == busy + multiset(finished)
    requires busy' + multiset(returned) == busy + multiset(dequeued)
    ensures multiset(started + dequeued) == busy' + multiset(finished + returned)
  {
    forall t: Task ensures multiset(started + dequeued)[t] == (busy' + multiset(finished + returned))[t] {
      assert (busy' + multiset(returned))[t] == (busy + multiset(dequeued))[t];
    }
  }

  lemma {:induction false} ShapeIsKept(r: Run)
    requires Valid(r)
    ensures Sized(After(r)) && ActiveOk(After(r))
  {
    if r.Step? {
      ShapeIsKept(r.prev);
      StepKeepsShape(After(r.prev), r.e);
    }
  }

  /** Tasks start in the order they were received; the rest wait in the queue or the
      fetcher's hand. */
  lemma {:induction false} TasksStartInOrder(r: Run)
    requires Valid(r)
    ensures Received(r) == Started(r) + After(r).jobs + InHand(After(r).fetcher)
  {
    if r.Step? {
      TasksStartInOrder(r.prev);
      ShapeIsKept(r.prev);
      StepMovesQueue(After(r.prev), r.e, Received(r.prev), Started(r.prev));
    }
  }

  lemma {:induction false} StartedTasksAreBusyOrFinished(r: Run)
    requires Valid(r)
    ensures multiset(Started(r)) == Busy(After(r).slots) + multiset(Finished(r))
  {
    match r
    case Begin(n) =>
      FreeSlotsAreIdle(After(r).slots);
    case Step(p, e) =>
      StartedTasksAreBusyOrFinished(p);
      ShapeIsKept(p);
      var s := After(p);
      StepMovesLoad(s, e);
      StepBalances(Started(p), Dequeued(s, e), Finished(p), Returned(s, e), Busy(s.slots), Busy(Do(s, e).slots));
  }

  /** Every received task is in exactly one place: the fetcher's hand, the queue, an
      executor slot, or finished. */
  lemma TasksAreConserved(r: Run)
    requires Valid(r)
    ensures multiset(Received(r))
            == multiset(InHand(After(r).fetcher)) + multiset(After(r).jobs) + Busy(After(r).slots) + multiset(Finished(r))
  {
    TasksStartInOrder(r);
    StartedTasksAreBusyOrFinished(r);
    assert multiset(Received(r)) == multiset(Started(r)) + multiset(After(r).jobs) + multiset(InHand(After(r).fetcher));
  }

  /** A worker never holds more than 3 * workers + 1 unfinished tasks. */
  lemma UnfinishedWorkIsBounded(r: Run)
    requires Valid(r)
    ensures |Received(r)| <= |Finished(r)| + 3 * After(r).workers + 1
  {
    ShapeIsKept(r);
    TasksStartInOrder(r);
    StartedTasksAreBusyOrFinished(r);
    BusyFits(After(r).slots);
    assert |multiset(Started(r))| == |Started(r)|;
    assert |multiset(Finished(r))| == |Finished(r)|;
  }

  /** The worker has pulled k tasks into its first k slots and m more into its queue, and
      none has left. */
  ghost predicate Loaded(r: Run, k: nat, m: nat) {
    && Valid(r) && Sized(After(r)) && After(r).fetcher.Idle? && |After(r).jobs| == m
    && |Received(r)| == k + m && Finished(r) == []
    && forall j :: 0 <= j < |After(r).slots| ==> (After(r).slots[j].Free? <==> j >= k)
  }

  lemma PulledOnce(r: Run, t: Task, k: nat, m: nat) returns (r': Run)
    requires Loaded(r, k, m)
    ensures Valid(r') && After(r') == After(r).(fetcher := Holding(t))
    ensures |Received(r')| == k + m + 1 && Finished(r') == []
  {
    var asked := Step(r, Ask(Some(t)));
    assert Valid(asked) && After(asked) == After(r).(fetcher := Claimed(Some(t)));
    assert Finished(asked) == [] && Received(asked) == Received(r);
    var answered := Step(asked, ReadStops([]));
    assert Valid(answered) && After(answered) == After(r).(fetcher := Answered(Some(t), []));
    assert Finished(answered) == [] && Received(answered) == Received(r);
    r' := Step(answered, Deliver);
  }

  lemma PulledAndPushed(r: Run, t: Task, k: nat, m: nat) returns (r': Run)
    requires Loaded(r, k, m) && m < 2 * After(r).workers
    ensures Loaded(r', k, m + 1) && After(r').workers == After(r).workers
  {
    var held := PulledOnce(r, t, k, m);
    r' := Step(held, Push);
    assert After(r').slots == After(r).slots;
  }

  lemma {:induction false} SlotsFilled(n: int, t: Task, k: nat) returns (r: Run)
    requires k <= Max(1, n)
    ensures Loaded(r, k, 0) && After(r).workers == Max(1, n)
  {
    if k == 0 {
      r := Begin(n);
      assert Received(r) == [] && Finished(r) == [];
    } else {
      var before := SlotsFilled(n, t, k - 1);
      var pushed := PulledAndPushed(before, t, k - 1, 0);
      r := Step(pushed, Take(k - 1));
    }
  }

  lemma {:induction false} QueueFilled(n: int, t: Task, m: nat) returns (r: Run)
    requires m <= 2 * Max(1, n)
    ensures Loaded(r, Max(1, n), m) && After(r).workers == Max(1, n)
  {
    if m == 0 {
      r := SlotsFilled(n, t, Max(1, n));
    } else {
      var before := QueueFilled(n, t, m - 1);
      r := PulledAndPushed(before, t, Max(1, n), m - 1);
    }
  }

  /** And it can come to hold that many: the configured slots, at least one, twice as many
      in the queue, and one in the fetcher's hand. */
  lemma UnfinishedBoundIsReached(n: int, t: Task) returns (r: Run)
    ensures Valid(r) && After(r).workers == (if n < 1 then 1 else n)
    ensures |Received(r)| == |Finished(r)| + 3 * (if n < 1 then 1 else n) + 1
  {
    var full := QueueFilled(n, t, 2 * Max(1, n));
    r := PulledOnce(full, t, Max(1, n), 2 * Max(1, n));
  }

  /** z continues r without ending the execution in slot k. */
  predicate Unended(r: Run, z: Run, k: nat) {
    r == z || (z.Step? && Unended(r, z.prev, k) && z.e != Complete(k))
  }

  /** An execution whose timeout fired stays cancelled until it ends. */
  lemma {:induction false} TimeoutIsFinal(r: Run, z: Run, k: nat)
    requires Valid(z) && Unended(r, z, k) && r.Step? && r.e == Expire(k) && CanDo(After(r.prev), r.e)
    ensures k < |After(r.prev).slots| && After(r.prev).slots[k].Executing?
    ensures k < |After(z).slots| && After(z).slots[k] == Executing(After(r.prev).slots[k].task, true)
  {
    if r != z {
      TimeoutIsFinal(r, z.prev, k);
      ShapeIsKept(z.prev);
      if z.e.Deliver? {
        CancelAllEffect(After(z.prev), After(z.prev).fetcher.stops);
      }
    }
  }

  lemma {:induction false} ActiveFits(active: map<int, nat>, slots: seq<Slot>)
    requires forall id :: id in active ==>
               active[id] < |slots| && !slots[active[id]].Free? && slots[active[id]].task.id == id
    ensures |active| <= |Busy(slots)|
  {
    if slots == [] {
      assert forall id :: id !in active;
      assert active == map[];
    } else {
      var n := |slots| - 1;
      if !slots[n].Free? && slots[n].task.id in active && active[slots[n].task.id] == n {
        var id := slots[n].task.id;
        var rest := active - {id};
        assert active.Keys == rest.Keys + {id};
        ActiveFits(rest, slots[..n]);
      } else {
        ActiveFits(active, slots[..n]);
      }
    }
  }

  /** The heartbeat's active count never exceeds the slots in use, hence never the
      total, even when one id runs in two slots. */
  lemma ActiveCountIsBounded(r: Run)
    requires Valid(r)
    ensures |After(r).active| <= |Busy(After(r).slots)| <= After(r).workers
  {
    ShapeIsKept(r);
    ActiveFits(After(r).active, After(r).slots);
    BusyFits(After(r).slots);
  }

  // ---- which registrations a stop can reach --------------------------------------

  predicate Registers(p: State, e: Event, id: int) {
    e.Register? && CanDo(p, e) && p.slots[e.k].task.id == id
  }

  /** z continues r without registering the task again. */
  predicate Since(r: Run, z: Run, id: int) {
    r == z || (z.Step? && Since(r, z.prev, id) && !Registers(After(z.prev), z.e, id))
  }

  predicate Runs(p: State, k: nat, id: int) {
    k < |p.slots| && p.slots[k].Executing? && p.slots[k].task.id == id
  }

  /** No other slot executes the task or lingers after doing so. */
  predicate Sole(p: State, k: nat, id: int) {
    forall j :: 0 <= j < |p.slots| && j != k && (p.slots[j].Executing? || p.slots[j].Done?) ==> p.slots[j].task.id != id
  }

  /** Whatever happens after r short of a new registration of the task: while slot k
      executes it, a response that lists it leaves it cancelled. */
  ghost predicate Stoppable(r: Run, k: nat, id: int) {
    forall z ::
      Since(r, z, id) && Valid(z) && Runs(After(z), k, id) && After(z).fetcher.Answered? && id in After(z).fetcher.stops ==>
      var q := Do(After(z), Deliver);
      Runs(q, k, id) && q.slots[k].cancelled
  }

  /** The slot's execution is cancelled, or can be. */
  predicate Within(p: State, k: nat, id: int) {
    Sole(p, k, id) && (Runs(p, k, id) && !p.slots[k].cancelled ==> id in p.active && p.active[id] == k)
  }

  lemma DeliverCancelsWithin(p: State, k: nat, id: int)
    requires ActiveOk(p) && p.fetcher.Answered? && Within(p, k, id)
    ensures Within(Do(p, Deliver), k, id)
    ensures Runs(p, k, id) && id in p.fetcher.stops ==>
              Runs(Do(p, Deliver), k, id) && Do(p, Deliver).slots[k].cancelled
  {
    var stops := p.fetcher.stops;
    CancelAllEffect(p, stops);
    if Runs(p, k, id) && !p.slots[k].cancelled && id in stops {
      var i :| 0 <= i < |stops| && stops[i] == id;
      assert Hits(p, stops, k);
    }
  }

  lemma StepKeepsWithin(p: State, e: Event, k: nat, id: int)
    requires ActiveOk(p) && CanDo(p, e) && Within(p, k, id) && !Registers(p, e, id)
    ensures Within(Do(p, e), k, id)
  {
    if e.Deliver? {
      DeliverCancelsWithin(p, k, id);
    }
  }

  lemma {:induction false} StaysWithin(r: Run, z: Run, k: nat, id: int)
    requires Since(r, z, id) && Valid(z) && Within(After(r), k, id)
    ensures Within(After(z), k, id)
  {
    if r != z {
      StaysWithin(r, z.prev, k, id);
      ShapeIsKept(z.prev);
      StepKeepsWithin(After(z.prev), z.e, k, id);
    }
  }

  /** A continuation of r in which slot k executes the task, uncancelled and forgotten. */
  ghost predicate Forgotten(r: Run, z: Run, k: nat, id: int) {
    && Since(r, z, id) && Valid(z) && Sized(After(z))
    && Runs(After(z), k, id) && !After(z).slots[k].cancelled && id !in After(z).active
  }

  lemma Forget(r: Run, z: Run, e: Event, k: nat, id: int) returns (z': Run)
    requires Forgotten(r, z, k, id) && CanDo(After(z), e) && !e.Register? && !e.Deliver?
    requires !((e.Expire? || e.Complete?) && e.k == k)
    ensures z' == Step(z, e) && Forgotten(r, z', k, id) && After(z') == Do(After(z), e)
  {
    z' := Step(z, e);
  }

  /** The other execution ends and leaves, taking the cancel function with it. */
  lemma OtherLeaves(r: Run, k: nat, j: nat, id: int) returns (z: Run)
    requires Valid(r) && Runs(After(r), k, id) && !After(r).slots[k].cancelled
    requires j < |After(r).slots| && j != k
    requires (After(r).slots[j].Executing? || After(r).slots[j].Done?) && After(r).slots[j].task.id == id
    ensures Forgotten(r, z, k, id) && j < |After(z).slots| && After(z).slots[j].Free?
  {
    ShapeIsKept(r);
    var done := r;
    if After(r).slots[j].Executing? {
      done := Step(r, Complete(j));
      assert Since(r, r, id);
      assert After(done) == Do(After(r), Complete(j));
    }
    assert Since(r, done, id) && Valid(done) && After(done).slots[j].Done?;
    z := Step(done, Leave(j));
    assert After(z) == Do(After(done), Leave(j));
  }

  /** The fetcher can always get back to its next pull. */
  lemma FetcherReturns(r: Run, z0: Run, k: nat, j: nat, id: int) returns (z: Run)
    requires Forgotten(r, z0, k, id) && j < |After(z0).slots| && After(z0).slots[j].Free?
    ensures Forgotten(r, z, k, id) && After(z).fetcher.Idle?
  {
    z := z0;
    match After(z0).fetcher
    case Idle =>
    case Claimed(_) => z := Forget(r, z, DropResponse, k, id);
    case Answered(_, _) => z := Forget(r, z, DropResponse, k, id);
    case Holding(_) =>
      if !Room(After(z)) {
        z := Forget(r, z, Take(j), k, id);
      }
      z := Forget(r, z, Push, k, id);
  }

  lemma ForgottenIsMissed(r: Run, z0: Run, k: nat, id: int)
    requires Forgotten(r, z0, k, id) && After(z0).fetcher.Idle?
    ensures !Stoppable(r, k, id)
  {
    var z := Forget(r, z0, Ask(None), k, id);
    z := Forget(r, z, ReadStops([id]), k, id);
    RepeatedListingIsNoOp(After(z), [id]);
  }

  /** The map of cancel functions is keyed by task id alone. An execution that registers
      stays within reach of every later stop list, until the task registers again, exactly
      when no other slot is then executing the task or lingering after it. */
  lemma RegistrationIsStoppableIff(r: Run, k: nat)
    requires Valid(r) && r.Step? && r.e == Register(k)
    ensures
      var id := After(r).slots[k].task.id;
      Stoppable(r, k, id) <==> Sole(After(r.prev), k, id)
  {
    ShapeIsKept(r.prev);
    var p, id := After(r.prev), After(r).slots[k].task.id;
    if Sole(p, k, id) {
      forall z | Since(r, z, id) && Valid(z) && Runs(After(z), k, id) && After(z).fetcher.Answered? && id in After(z).fetcher.stops
        ensures Runs(Do(After(z), Deliver), k, id) && Do(After(z), Deliver).slots[k].cancelled
      {
        StaysWithin(r, z, k, id);
        ShapeIsKept(z);
        DeliverCancelsWithin(After(z), k, id);
      }
    } else {
      var j: nat :| j < |p.slots| && j != k && (p.slots[j].Executing? || p.slots[j].Done?) && p.slots[j].task.id == id;
      var z := OtherLeaves(r, k, j, id);
      z := FetcherReturns(r, z, k, j, id);
      ForgottenIsMissed(r, z, k, id);
    }
  }
}

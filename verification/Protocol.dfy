/** The task lifecycle as a protocol: the table, the cron entries and the
    executions in flight, moved by one transaction at a time under a monotone
    clock. A run is the list of steps taken so far, newest outermost. */
module Protocol {
  import opened Tasks
  import opened Lifecycle

  /** An execution in flight: claimed by a worker, not yet reported or lost. */
  datatype Token = Token(taskId: int, workerId: string)

  datatype State = State(
    rows: Rows,
    nextId: int,
    clock: Time,
    tokens: multiset<Token>,
    entries: set<Task>)

  datatype Event =
    | Create(draft: Draft)
    | Spawn(def: Task, stamp: string)
    | Delete(id: int)
    | SetEnabled(id: int, on: bool)
    | DisableCron
    | StopChildren
    | Stop(id: int)
    | Restart(id: int)
    | Claim(worker: string, got: Option<int>)
    | Report(outcome: Outcome)
    | Lose(token: Token)
    | Resync(valid: set<string>)

  datatype Run = Start | Then(prev: Run, now: Time, ev: Event)

  const INITIAL := State(map[], 1, 0, multiset{}, {})

  function Insert(s: State, draft: Task, now: Time): State {
    s.(rows := s.rows[s.nextId := NewRow(draft, s.nextId, now)], nextId := s.nextId + 1)
  }

  /** The cron entries a resync installs; valid holds the expressions the parser accepts. */
  function EntriesOf(rows: Rows, valid: set<string>): set<Task> {
    set i | i in rows && Schedulable(rows[i]) && rows[i].cronExpr in valid :: rows[i]
  }

  function Apply(s0: State, now: Time, ev: Event): State {
    var s := s0.(clock := now);
    match ev
    case Create(d) => Insert(s, FromDraft(d), now)
    case Spawn(def, stamp) => Insert(s, ChildOf(def, stamp), now)
    case Delete(id) => s.(rows := s.rows - {id})
    case SetEnabled(id, on) => s.(rows := SetEnabledRows(s.rows, id, on, now))
    case DisableCron => s.(rows := DisableCronRows(s.rows, now))
    case StopChildren => s.(rows := StopChildrenRows(s.rows, now))
    case Stop(id) => s.(rows := StopRows(s.rows, id, now))
    case Restart(id) => s.(rows := ResumeRows(s.rows, id, now))
    case Claim(w, None) => s
    case Claim(w, Some(id)) => s.(rows := ClaimRows(s.rows, id, w, now), tokens := s.tokens + multiset{Token(id, w)})
    case Report(o) => s.(rows := ReportRows(s.rows, o, now), tokens := s.tokens - multiset{Token(o.taskId, o.workerId)})
    case Lose(tok) => s.(tokens := s.tokens - multiset{tok})
    case Resync(valid) => s.(entries := EntriesOf(s.rows, valid))
  }

  /** What the server lets happen. Anyone may send a report; a pull names a worker. */
  ghost predicate Possible(s: State, now: Time, ev: Event) {
    && s.clock <= now
    && match ev
       case Create(d) => d.name != "" && d.command != "" && (d.kind.Cron? ==> d.cronExpr != "")
       case Spawn(def, _) => def in s.entries
       case Claim(w, None) => w != "" && NothingDue(s.rows, now)
       case Claim(w, Some(id)) => w != "" && EarliestDue(s.rows, now, id)
       case Lose(tok) => tok in s.tokens
       case _ => true
  }

  function After(r: Run): State {
    match r
    case Start => INITIAL
    case Then(p, now, ev) => Apply(After(p), now, ev)
  }

  ghost predicate Valid(r: Run) {
    match r
    case Start => true
    case Then(p, now, ev) => Valid(p) && Possible(After(p), now, ev)
  }

  /** Reports carry a worker id; the result endpoint itself does not insist. */
  ghost predicate Honest(r: Run) {
    match r
    case Start => true
    case Then(p, _, ev) => Honest(p) && (ev.Report? ==> ev.outcome.workerId != "")
  }

  /** One report per claim, and restarts only of rows with no execution in flight. An
      operator can tell from an empty worker_id (Finality.DetachedRowsAreIdle). */
  ghost predicate Allowed(s: State, ev: Event) {
    && (ev.Report? ==> Token(ev.outcome.taskId, ev.outcome.workerId) in s.tokens)
    && (ev.Restart? && ev.id in s.rows && s.rows[ev.id].status.Stopped? ==> forall w :: Token(ev.id, w) !in s.tokens)
  }

  ghost predicate Disciplined(r: Run) {
    match r
    case Start => true
    case Then(p, _, ev) => Disciplined(p) && Allowed(After(p), ev)
  }

  /** r continues p. */
  predicate Extends(p: Run, r: Run) {
    p == r || (r.Then? && Extends(p, r.prev))
  }

  // ---- what a single step can do to a row -------------------------------------

  predicate Untouched(t: Task, t': Task) {
    t' == t.(enabled := t'.enabled, updatedAt := t'.updatedAt)
  }

  predicate Halted(t: Task, t': Task) {
    Active(t) && t' == t.(status := Stopped, result := t'.result, enabled := t'.enabled, updatedAt := t'.updatedAt)
  }

  /** A row that survives a step is left alone, stopped, restarted, claimed, or
      reported by its owner: no transaction does anything else to it. */
  lemma RowCases(s: State, now: Time, ev: Event, id: int)
    requires id in s.rows && id < s.nextId && id in Apply(s, now, ev).rows
    ensures
      var t, t' := s.rows[id], Apply(s, now, ev).rows[id];
      || Untouched(t, t')
      || Halted(t, t')
      || (ev == Restart(id) && t.status.Stopped? && t' == ResumeRow(t, now))
      || (ev.Claim? && ev.got == Some(id) && t' == ClaimRow(t, ev.worker, now))
      || (ev.Report? && ev.outcome.taskId == id && ev.outcome.workerId == t.workerId && t' == ReportRow(t, ev.outcome, now))
  {
    match ev
    case SetEnabled(parent, on) => PauseCases(s.rows, parent, on, now, id);
    case DisableCron => assert Untouched(s.rows[id], DisableCronRows(s.rows, now)[id]);
    case StopChildren =>
      var t' := StopChildrenRows(s.rows, now)[id];
      assert if AnyChildInFlight(s.rows[id]) then Halted(s.rows[id], t') else t' == s.rows[id];
    case Stop(_) => assert Untouched(s.rows[id], StopRows(s.rows, id, now)[id]) || Halted(s.rows[id], StopRows(s.rows, id, now)[id]);
    case _ =>
  }

  lemma PauseCases(rows: Rows, parent: int, on: bool, now: Time, id: int)
    requires id in rows
    ensures id in SetEnabledRows(rows, parent, on, now)
    ensures
      var t, t' := rows[id], SetEnabledRows(rows, parent, on, now)[id];
      Untouched(t, t') || Halted(t, t')
  {
    var toggled := ToggleRows(rows, parent, on, now);
    assert Untouched(rows[id], toggled[id]);
  }

  /** Rows appear only at the next id, by a creation or a spawn. */
  lemma NewRows(s: State, now: Time, ev: Event, id: int)
    requires id !in s.rows && id in Apply(s, now, ev).rows
    ensures id == s.nextId && s.nextId < Apply(s, now, ev).nextId
    ensures ev.Create? || ev.Spawn?
    ensures
      Apply(s, now, ev).rows[id] == NewRow(if ev.Create? then FromDraft(ev.draft) else ChildOf(ev.def, ev.stamp), id, now)
  {
  }

  lemma {:induction false} KnownIds(r: Run, id: int)
    requires Valid(r) && id in After(r).rows
    ensures 1 <= id < After(r).nextId
  {
    if r.Then? {
      if id in After(r.prev).rows {
        KnownIds(r.prev, id);
      } else {
        NextIdIsPositive(r.prev);
        NewRows(After(r.prev), r.now, r.ev, id);
      }
    }
  }

  lemma {:induction false} NextIdIsPositive(r: Run)
    ensures After(r).nextId >= 1
  {
    if r.Then? {
      NextIdIsPositive(r.prev);
    }
  }

  lemma StepMovesForward(s: State, now: Time, ev: Event)
    ensures Apply(s, now, ev).clock == now && s.nextId <= Apply(s, now, ev).nextId
  {
  }

  lemma {:induction false} ExtendsValid(p: Run, r: Run)
    requires Extends(p, r) && Valid(r)
    ensures Valid(p) && After(p).clock <= After(r).clock && After(p).nextId <= After(r).nextId
  {
    if p != r {
      ExtendsValid(p, r.prev);
      StepMovesForward(After(r.prev), r.now, r.ev);
    }
  }
}

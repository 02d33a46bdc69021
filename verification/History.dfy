/** Every column of a row is what the events wrote to it last. The writes are judged
    by the event and the row before it, in the terms of the documentation; nothing here
    leans on the functions that compute the new rows. */
module History {
  import opened Tasks
  import opened Lifecycle
  import opened Protocol
  import opened Ownership
  import opened Conservation

  // ---- what an event is to a row -------------------------------------------------------

  predicate IsBirth(s: State, ev: Event, id: int) {
    id == s.nextId && (ev.Create? || ev.Spawn?)
  }

  predicate Takes(ev: Event, id: int) {
    ev.Claim? && ev.got == Some(id)
  }

  predicate Resumes(s: State, ev: Event, id: int) {
    ev == Restart(id) && id in s.rows && s.rows[id].status.Stopped?
  }

  /** Why an event stops the row, if it does: only pending and running rows are stopped. */
  function StopReason(s: State, ev: Event, id: int): Option<string> {
    if id !in s.rows || !(s.rows[id].status.Pending? || s.rows[id].status.Running?) then None
    else match ev
      case Stop(hit) => if hit == id then Some("stopped by user") else None
      case SetEnabled(parent, on) =>
        if !on && parent in s.rows && s.rows[id].parentId == parent then Some("stopped: cron paused") else None
      case StopChildren => if s.rows[id].parentId > 0 then Some("stopped: cron shutdown") else None
      case _ => None
  }

  predicate FromOwner(s: State, ev: Event, id: int) {
    ev.Report? && ev.outcome.taskId == id && id in s.rows && s.rows[id].workerId == ev.outcome.workerId
  }

  predicate Detaches(s: State, ev: Event, id: int) {
    FromOwner(s, ev, id) && s.rows[id].status.Stopped?
  }

  predicate Succeeds(s: State, ev: Event, id: int) {
    FromOwner(s, ev, id) && !s.rows[id].status.Stopped? && ev.outcome.success
  }

  predicate Kills(s: State, ev: Event, id: int) {
    && FromOwner(s, ev, id) && !s.rows[id].status.Stopped? && !ev.outcome.success
    && s.rows[id].retryCount >= s.rows[id].maxRetry
  }

  predicate Fails(s: State, ev: Event, id: int) {
    && FromOwner(s, ev, id) && s.rows[id].status.Running? && !ev.outcome.success
    && s.rows[id].retryCount < s.rows[id].maxRetry
  }

  /** A switch of the enabled flag: by hand, or the shutdown of all definitions. */
  function Switch(s: State, ev: Event, id: int): Option<bool> {
    if ev == SetEnabled(id, true) then Some(true)
    else if ev == SetEnabled(id, false) then Some(false)
    else if ev.DisableCron? && id in s.rows && s.rows[id].kind.Cron? then Some(false)
    else None
  }

  // ---- what it writes to each column ----------------------------------------------------

  function StatusWritten(s: State, ev: Event, id: int): Option<Status> {
    if IsBirth(s, ev, id) || Resumes(s, ev, id) || Fails(s, ev, id) then Some(Pending)
    else if Takes(ev, id) then Some(Running)
    else if StopReason(s, ev, id).Some? then Some(Stopped)
    else if Succeeds(s, ev, id) then Some(Success)
    else if Kills(s, ev, id) then Some(Dead)
    else None
  }

  function HolderWritten(s: State, ev: Event, id: int): Option<string> {
    if IsBirth(s, ev, id) || Resumes(s, ev, id) || Fails(s, ev, id) || Detaches(s, ev, id) then Some("")
    else if Takes(ev, id) then Some(ev.worker)
    else None
  }

  function ResultWritten(s: State, ev: Event, id: int): Option<string> {
    if IsBirth(s, ev, id) || Resumes(s, ev, id) then Some("")
    else if StopReason(s, ev, id).Some? then StopReason(s, ev, id)
    else if Succeeds(s, ev, id) || Kills(s, ev, id) || Fails(s, ev, id) then Some(ev.outcome.output)
    else None
  }

  /** The k-th retry waits 5k seconds. */
  function DueWritten(s: State, now: Time, ev: Event, id: int): Option<Time> {
    if IsBirth(s, ev, id) || Resumes(s, ev, id) then Some(now)
    else if Fails(s, ev, id) then Some(now + (s.rows[id].retryCount + 1) * 5_000_000_000)
    else None
  }

  /** A detached row keeps its timestamp. */
  predicate IsTouched(s: State, ev: Event, id: int) {
    || IsBirth(s, ev, id) || Takes(ev, id) || Resumes(s, ev, id) || StopReason(s, ev, id).Some?
    || Succeeds(s, ev, id) || Kills(s, ev, id) || Fails(s, ev, id) || Switch(s, ev, id).Some?
  }

  // ---- the columns of a run ---------------------------------------------------------------

  /** The creation or spawn that made the row, and when. */
  function Birth(r: Run, id: int): Option<(Event, Time)> {
    match r
    case Start => None
    case Then(p, now, ev) => if IsBirth(After(p), ev, id) then Some((ev, now)) else Birth(p, id)
  }

  function StatusOf(r: Run, id: int): Option<Status> {
    match r
    case Start => None
    case Then(p, _, ev) => if StatusWritten(After(p), ev, id).Some? then StatusWritten(After(p), ev, id) else StatusOf(p, id)
  }

  function HolderOf(r: Run, id: int): Option<string> {
    match r
    case Start => None
    case Then(p, _, ev) => if HolderWritten(After(p), ev, id).Some? then HolderWritten(After(p), ev, id) else HolderOf(p, id)
  }

  function ResultOf(r: Run, id: int): Option<string> {
    match r
    case Start => None
    case Then(p, _, ev) => if ResultWritten(After(p), ev, id).Some? then ResultWritten(After(p), ev, id) else ResultOf(p, id)
  }

  function DueAt(r: Run, id: int): Option<Time> {
    match r
    case Start => None
    case Then(p, now, ev) =>
      if DueWritten(After(p), now, ev, id).Some? then DueWritten(After(p), now, ev, id) else DueAt(p, id)
  }

  function TouchedAt(r: Run, id: int): Option<Time> {
    match r
    case Start => None
    case Then(p, now, ev) => if IsTouched(After(p), ev, id) then Some(now) else TouchedAt(p, id)
  }

  /** The failures that counted: those retried and the one that killed it. */
  function Failures(r: Run, id: int): nat {
    match r
    case Start => 0
    case Then(p, _, ev) => Failures(p, id) + if Fails(After(p), ev, id) || Kills(After(p), ev, id) then 1 else 0
  }

  /** The last switch since the row was made; on if there was none. */
  function IsOn(r: Run, id: int): bool {
    match r
    case Start => true
    case Then(p, _, ev) =>
      if IsBirth(After(p), ev, id) then true
      else if Switch(After(p), ev, id).Some? then Switch(After(p), ev, id).value
      else IsOn(p, id)
  }

  // ---- what a birth fixes for good ----------------------------------------------------------

  /** The row does the work it was made for: that of the request, or that of the
      definition whose tick spawned it. */
  predicate DoesWorkOf(t: Task, birth: Event) {
    match birth
    case Create(d) =>
      && t.name == d.name && t.command == d.command && t.kind == d.kind && t.cronExpr == d.cronExpr
      && t.maxRetry == d.maxRetry && t.timeoutSec == d.timeoutSec && t.parentId == 0
    case Spawn(def, stamp) =>
      && t.name == def.name + "#" + stamp && t.command == def.command && t.kind.Once? && t.cronExpr == ""
      && t.maxRetry == def.maxRetry && t.timeoutSec == def.timeoutSec && t.parentId == def.id
    case _ => false
  }

  // ---- one step -----------------------------------------------------------------------------

  predicate WritesFit(s: State, now: Time, ev: Event, id: int, t: Task, t': Task) {
    && t'.status == (if StatusWritten(s, ev, id).Some? then StatusWritten(s, ev, id).value else t.status)
    && t'.workerId == (if HolderWritten(s, ev, id).Some? then HolderWritten(s, ev, id).value else t.workerId)
    && t'.result == (if ResultWritten(s, ev, id).Some? then ResultWritten(s, ev, id).value else t.result)
    && t'.nextRunAt == (if DueWritten(s, now, ev, id).Some? then DueWritten(s, now, ev, id).value else t.nextRunAt)
    && t'.updatedAt == (if IsTouched(s, ev, id) then now else t.updatedAt)
    && t'.enabled == (if Switch(s, ev, id).Some? then Switch(s, ev, id).value else t.enabled)
    && t'.retryCount == t.retryCount + (if Fails(s, ev, id) || Kills(s, ev, id) then 1 else 0)
    && t' == t.(status := t'.status, workerId := t'.workerId, result := t'.result, nextRunAt := t'.nextRunAt,
                updatedAt := t'.updatedAt, enabled := t'.enabled, retryCount := t'.retryCount)
  }

  lemma ReportFits(s: State, now: Time, o: Outcome, id: int)
    requires id in s.rows && id < s.nextId
    ensures WritesFit(s, now, Report(o), id, s.rows[id], Apply(s, now, Report(o)).rows[id])
  {
  }

  lemma PauseFits(s: State, now: Time, parent: int, on: bool, id: int)
    requires id in s.rows && id < s.nextId
    ensures WritesFit(s, now, SetEnabled(parent, on), id, s.rows[id], Apply(s, now, SetEnabled(parent, on)).rows[id])
  {
  }

  lemma ShutdownFits(s: State, now: Time, ev: Event, id: int)
    requires id in s.rows && id < s.nextId && (ev.DisableCron? || ev.StopChildren?)
    ensures WritesFit(s, now, ev, id, s.rows[id], Apply(s, now, ev).rows[id])
  {
  }

  lemma ClaimFits(s: State, now: Time, w: string, got: Option<int>, id: int)
    requires id in s.rows && id < s.nextId && Possible(s, now, Claim(w, got))
    ensures WritesFit(s, now, Claim(w, got), id, s.rows[id], Apply(s, now, Claim(w, got)).rows[id])
  {
  }

  lemma StopFits(s: State, now: Time, hit: int, id: int)
    requires id in s.rows && id < s.nextId
    ensures WritesFit(s, now, Stop(hit), id, s.rows[id], Apply(s, now, Stop(hit)).rows[id])
  {
  }

  lemma RestartFits(s: State, now: Time, hit: int, id: int)
    requires id in s.rows && id < s.nextId
    ensures WritesFit(s, now, Restart(hit), id, s.rows[id], Apply(s, now, Restart(hit)).rows[id])
  {
  }

  lemma OthersFit(s: State, now: Time, ev: Event, id: int)
    requires id in s.rows && id < s.nextId && id in Apply(s, now, ev).rows
    requires ev.Create? || ev.Spawn? || ev.Delete? || ev.Lose? || ev.Resync?
    ensures WritesFit(s, now, ev, id, s.rows[id], Apply(s, now, ev).rows[id])
  {
    assert Apply(s, now, ev).rows[id] == s.rows[id];
  }

  lemma StepFits(s: State, now: Time, ev: Event, id: int)
    requires id in s.rows && id < s.nextId && Possible(s, now, ev) && id in Apply(s, now, ev).rows
    ensures WritesFit(s, now, ev, id, s.rows[id], Apply(s, now, ev).rows[id])
  {
    match ev
    case Report(o) => ReportFits(s, now, o, id);
    case SetEnabled(parent, on) => PauseFits(s, now, parent, on, id);
    case DisableCron => ShutdownFits(s, now, ev, id);
    case StopChildren => ShutdownFits(s, now, ev, id);
    case Claim(w, got) => ClaimFits(s, now, w, got, id);
    case Stop(hit) => StopFits(s, now, hit, id);
    case Restart(hit) => RestartFits(s, now, hit, id);
    case _ => OthersFit(s, now, ev, id);
  }

  // ---- the whole row ------------------------------------------------------------------------

  /** The row that the history of an id describes. */
  ghost predicate Describes(r: Run, id: int, t: Task) {
    && t.id == id
    && Birth(r, id).Some? && DoesWorkOf(t, Birth(r, id).value.0) && t.createdAt == Birth(r, id).value.1
    && StatusOf(r, id) == Some(t.status)
    && HolderOf(r, id) == Some(t.workerId)
    && ResultOf(r, id) == Some(t.result)
    && DueAt(r, id) == Some(t.nextRunAt)
    && TouchedAt(r, id) == Some(t.updatedAt)
    && t.retryCount == Failures(r, id)
    && t.enabled == IsOn(r, id)
  }

  lemma BirthDescribes(p: Run, now: Time, ev: Event, id: int)
    requires Valid(p) && Possible(After(p), now, ev) && id !in After(p).rows && id in Apply(After(p), now, ev).rows
    ensures Describes(Then(p, now, ev), id, Apply(After(p), now, ev).rows[id])
  {
    NewRows(After(p), now, ev, id);
    NoFailuresYet(p, id);
    assert IsBirth(After(p), ev, id) && !Fails(After(p), ev, id) && !Kills(After(p), ev, id);
    assert DoesWorkOf(Apply(After(p), now, ev).rows[id], ev);
  }

  lemma {:induction false} NoFailuresYet(r: Run, id: int)
    requires Valid(r) && id >= After(r).nextId
    ensures Failures(r, id) == 0 && Birth(r, id).None?
  {
    if r.Then? {
      StepMovesForward(After(r.prev), r.now, r.ev);
      NoFailuresYet(r.prev, id);
      if id in After(r.prev).rows {
        KnownIds(r.prev, id);
      }
    }
  }

  /** In every run, whoever reports whatever, each of the sixteen columns of each row is
      what the events of the row's history wrote last. */
  lemma {:induction false} RowIsItsHistory(r: Run, id: int)
    requires Valid(r) && id in After(r).rows
    ensures Describes(r, id, After(r).rows[id])
  {
    match r
    case Start =>
    case Then(p, now, ev) =>
      if id in After(p).rows {
        RowIsItsHistory(p, id);
        KnownIds(p, id);
        StepFits(After(p), now, ev, id);
      } else {
        BirthDescribes(p, now, ev, id);
      }
  }

  // ---- enabling and disabling -----------------------------------------------------------------

  /** A definition is enabled exactly when its last switch since it was made, by hand or in
      a shutdown, turned it on, or there was none. */
  lemma EnabledIsTheLastSwitch(r: Run, id: int)
    requires Valid(r) && id in After(r).rows
    ensures After(r).rows[id].enabled <==> IsOn(r, id)
  {
    RowIsItsHistory(r, id);
  }

  /** A switch by hand sets the flag to what was asked, and no other row's. */
  lemma SwitchSetsOneFlag(s: State, now: Time, id: int, on: bool, i: int)
    requires i in s.rows
    ensures i in Apply(s, now, SetEnabled(id, on)).rows
    ensures Apply(s, now, SetEnabled(id, on)).rows[i].enabled == if i == id then on else s.rows[i].enabled
  {
  }

  /** At the next resync the definition has its entry, and may spawn, exactly when it was
      switched on: pausing and resuming undo each other. */
  lemma SwitchDecidesTheEntry(s: State, now: Time, id: int, on: bool, valid: set<string>, stamp: string)
    requires TableOk(s) && id in s.rows && s.rows[id].kind.Cron? && s.rows[id].cronExpr in valid
    ensures
      var s' := Apply(Apply(s, now, SetEnabled(id, on)), now, Resync(valid));
      && id in s'.rows && s'.rows[id].id == id
      && (on <==> s'.rows[id] in s'.entries)
      && (on <==> exists d :: d in s'.entries && d.id == id)
      && (on ==> Possible(s', now, Spawn(s'.rows[id], stamp)))
  {
    var s1 := Apply(s, now, SetEnabled(id, on));
    var s' := Apply(s1, now, Resync(valid));
    SwitchSetsOneFlag(s, now, id, on, id);
    StepKeepsTable(s.(clock := now), now, SetEnabled(id, on));
    RowCases(s, now, SetEnabled(id, on), id);
    assert s'.rows == s1.rows && s1.rows[id].id == id && s1.rows[id].kind.Cron? && s1.rows[id].cronExpr in valid;
    if d :| d in s'.entries && d.id == id {
      var i :| i in s1.rows && Schedulable(s1.rows[i]) && s1.rows[i] == d;
      assert i == id;
    }
  }

  // ---- when a failed task comes back --------------------------------------------------------------

  /** A failure its owner reports with retries left puts the row back in the queue,
      detached, with one more retry counted and due five seconds later per retry. */
  lemma FailureIsRetried(s: State, now: Time, o: Outcome)
    requires o.taskId in s.rows && s.rows[o.taskId].workerId == o.workerId && s.rows[o.taskId].status.Running?
    requires !o.success && s.rows[o.taskId].retryCount < s.rows[o.taskId].maxRetry
    ensures
      var t := s.rows[o.taskId];
      Apply(s, now, Report(o)).rows == s.rows[o.taskId := t.(
        status := Pending, workerId := "", retryCount := t.retryCount + 1, result := o.output, updatedAt := now,
        nextRunAt := now + (t.retryCount + 1) * 5_000_000_000)]
  {
  }

  /** When the row last failed with retries left. */
  function FailedAt(r: Run, id: int): Option<Time> {
    match r
    case Start => None
    case Then(p, now, ev) => if Fails(After(p), ev, id) then Some(now) else FailedAt(p, id)
  }

  /** A task that was never restarted is due exactly 5k seconds after its k-th failure,
      and at once if it has not failed. */
  lemma {:induction false} RetryIsDueExactly(r: Run, id: int)
    requires Valid(r) && id in After(r).rows && !Terminal(After(r).rows[id]) && Restarts(r, id) == 0
    ensures
      var t := After(r).rows[id];
      && (FailedAt(r, id).Some? ==> t.nextRunAt == FailedAt(r, id).value + t.retryCount * 5_000_000_000)
      && (FailedAt(r, id).None? ==> t.nextRunAt == t.createdAt && t.retryCount == 0)
  {
    match r
    case Start =>
    case Then(p, now, ev) =>
      if id in After(p).rows {
        KnownIds(p, id);
        StepFits(After(p), now, ev, id);
        if !Terminal(After(p).rows[id]) {
          RetryIsDueExactly(p, id);
        } else {
          OutcomeSetIsNeverLeft(p, r, id);
        }
      } else {
        NewRows(After(p), now, ev, id);
        NeverFailed(p, id);
      }
  }

  lemma {:induction false} NeverFailed(r: Run, id: int)
    requires Valid(r) && id >= After(r).nextId
    ensures FailedAt(r, id).None?
  {
    if r.Then? {
      StepMovesForward(After(r.prev), r.now, r.ev);
      NeverFailed(r.prev, id);
      if id in After(r.prev).rows {
        KnownIds(r.prev, id);
      }
    }
  }

  /** One-shot, pending, and its time has come. */
  predicate IsDue(s: State, now: Time, id: int) {
    id in s.rows && s.rows[id].kind == Once && s.rows[id].status == Pending && s.rows[id].nextRunAt <= now
  }

  /** A pull can be given a row from the instant it is due on and not before, if no other
      due row was to come earlier, and is given nothing only when no row is due. */
  lemma PullAnswersIff(s: State, now: Time, w: string, got: Option<int>)
    ensures
      Possible(s, now, Claim(w, got))
      <==> s.clock <= now && w != ""
           && match got
              case None => (forall j :: j in s.rows ==> !IsDue(s, now, j))
              case Some(id) =>
                IsDue(s, now, id)
                && forall j :: j in s.rows && IsDue(s, now, j) ==> s.rows[id].nextRunAt <= s.rows[j].nextRunAt
  {
    forall j | j in s.rows ensures IsDue(s, now, j) <==> Due(s.rows[j], now) {
    }
  }

  // ---- where the work comes from --------------------------------------------------------------------

  lemma {:induction false} BirthIsKnown(r: Run, id: int)
    requires Birth(r, id).Some?
    ensures id < After(r).nextId
  {
    if !IsBirth(After(r.prev), r.ev, id) {
      BirthIsKnown(r.prev, id);
      StepMovesForward(After(r.prev), r.now, r.ev);
    }
  }

  /** An id is born once. */
  lemma {:induction false} BirthIsForGood(p: Run, r: Run, id: int)
    requires Extends(p, r) && Birth(p, id).Some?
    ensures Birth(r, id) == Birth(p, id)
  {
    if p != r {
      BirthIsForGood(p, r.prev, id);
      BirthIsKnown(r.prev, id);
    }
  }

  /** An entry is a snapshot of a definition, with the work of the request that made it. */
  lemma {:induction false} EntriesAreDefinitions(r: Run, d: Task)
    requires Valid(r) && d in After(r).entries
    ensures Birth(r, d.id).Some? && Birth(r, d.id).value.0.Create? && DoesWorkOf(d, Birth(r, d.id).value.0)
  {
    var p := r.prev;
    if r.ev.Resync? {
      var i :| i in After(p).rows && Schedulable(After(p).rows[i]) && After(p).rows[i] == d;
      RowIsItsHistory(p, i);
    } else {
      EntriesAreDefinitions(p, d);
      BirthIsKnown(p, d.id);
    }
  }

  /** What a cron tick enqueues is the work of the request that created the definition,
      under the definition's id and stamped with the tick, however long ago that was and
      whatever has happened to the definition since. */
  lemma {:induction false} ChildrenDoTheDefinitionsWork(r: Run, id: int)
    requires Valid(r) && id in After(r).rows && Birth(r, id).Some? && Birth(r, id).value.0.Spawn?
    ensures
      var t, def := After(r).rows[id], Birth(r, id).value.0.def;
      && t.parentId == def.id && Birth(r, def.id).Some? && Birth(r, def.id).value.0.Create?
      && var d := Birth(r, def.id).value.0.draft;
         && t.name == d.name + "#" + Birth(r, id).value.0.stamp
         && t.command == d.command && t.maxRetry == d.maxRetry && t.timeoutSec == d.timeoutSec && t.kind.Once?
  {
    RowIsItsHistory(r, id);
    SpawnsFollowDefinitions(r, id);
  }

  lemma {:induction false} SpawnsFollowDefinitions(r: Run, id: int)
    requires Valid(r) && Birth(r, id).Some? && Birth(r, id).value.0.Spawn?
    ensures
      var def := Birth(r, id).value.0.def;
      Birth(r, def.id).Some? && Birth(r, def.id).value.0.Create? && DoesWorkOf(def, Birth(r, def.id).value.0)
  {
    var p, def := r.prev, Birth(r, id).value.0.def;
    if IsBirth(After(p), r.ev, id) {
      EntriesAreDefinitions(p, def);
    } else {
      SpawnsFollowDefinitions(p, id);
    }
    BirthIsKnown(p, def.id);
  }
}

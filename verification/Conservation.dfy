/** Bookkeeping over whole runs: how often a task is claimed, retried, restarted
    and stopped, and how its retries are spaced in time. */
module Conservation {
  import opened Tasks
  import opened Lifecycle
  import opened Protocol
  import opened Ownership

  // ---- events of one task -----------------------------------------------------

  predicate IsClaim(ev: Event, id: int) {
    ev.Claim? && ev.got == Some(id)
  }

  /** A failure reported for a running row that still has retries left. */
  predicate IsRetry(s: State, ev: Event, id: int) {
    && ev.Report? && ev.outcome.taskId == id && !ev.outcome.success
    && Owns(s.rows, id, ev.outcome.workerId)
    && s.rows[id].status.Running?
    && s.rows[id].retryCount < s.rows[id].maxRetry
  }

  predicate IsRestart(s: State, ev: Event, id: int) {
    ev == Restart(id) && id in s.rows && s.rows[id].status.Stopped?
  }

  /** A stop, a pause of the parent or a cron shutdown that hits a pending row. */
  predicate IsStopFromPending(s: State, ev: Event, id: int) {
    && id in s.rows && s.rows[id].status.Pending?
    && (|| ev == Stop(id)
        || (ev.SetEnabled? && !ev.on && ev.id in s.rows && s.rows[id].parentId == ev.id)
        || (ev.StopChildren? && s.rows[id].parentId > 0))
  }

  function Bit(b: bool): nat {
    if b then 1 else 0
  }

  function Claims(r: Run, id: int): nat {
    if r.Start? then 0 else Claims(r.prev, id) + Bit(IsClaim(r.ev, id))
  }

  function Retries(r: Run, id: int): nat {
    if r.Start? then 0 else Retries(r.prev, id) + Bit(IsRetry(After(r.prev), r.ev, id))
  }

  function Restarts(r: Run, id: int): nat {
    if r.Start? then 0 else Restarts(r.prev, id) + Bit(IsRestart(After(r.prev), r.ev, id))
  }

  function StopsFromPending(r: Run, id: int): nat {
    if r.Start? then 0 else StopsFromPending(r.prev, id) + Bit(IsStopFromPending(After(r.prev), r.ev, id))
  }

  // ---- conservation -----------------------------------------------------------

  ghost predicate Balanced(r: Run, id: int) {
    var s := After(r);
    && (id in s.rows ==>
          var t := s.rows[id];
          && Claims(r, id) + StopsFromPending(r, id) + Bit(t.status.Pending?) == 1 + Retries(r, id) + Restarts(r, id)
          && Retries(r, id) <= Max(0, t.maxRetry)
          && Retries(r, id) <= t.retryCount
          && (!Terminal(t) ==> t.retryCount == Retries(r, id)))
    && (s.nextId <= id ==>
          Claims(r, id) == StopsFromPending(r, id) == Retries(r, id) == Restarts(r, id) == 0)
  }

  /** What a step does to a row matches what the step counts for. */
  ghost predicate Accounted(s: State, ev: Event, id: int, t': Task)
    requires id in s.rows
  {
    var t := s.rows[id];
    && Bit(t'.status.Pending?) + Bit(IsClaim(ev, id)) + Bit(IsStopFromPending(s, ev, id))
       == Bit(t.status.Pending?) + Bit(IsRetry(s, ev, id)) + Bit(IsRestart(s, ev, id))
    && t'.maxRetry == t.maxRetry
    && (!Terminal(t') ==> !Terminal(t) && t'.retryCount == t.retryCount + Bit(IsRetry(s, ev, id)))
    && (Terminal(t') ==> t'.retryCount >= t.retryCount && !IsRetry(s, ev, id))
  }

  lemma ReportIsAccounted(s: State, now: Time, o: Outcome, id: int)
    requires TableOk(s) && id in s.rows && o.workerId != ""
    ensures Accounted(s, Report(o), id, ReportRows(s.rows, o, now)[id])
  {
    if id == o.taskId && Owns(s.rows, id, o.workerId) {
      assert ReportRows(s.rows, o, now)[id] == ReportRow(s.rows[id], o, now);
    } else {
      assert ReportRows(s.rows, o, now)[id] == s.rows[id];
    }
  }

  lemma ClaimIsAccounted(s: State, now: Time, w: string, got: int, id: int)
    requires TableOk(s) && id in s.rows && EarliestDue(s.rows, now, got)
    ensures Accounted(s, Claim(w, Some(got)), id, ClaimRows(s.rows, got, w, now)[id])
  {
  }

  lemma StopIsAccounted(s: State, now: Time, hit: int, id: int)
    requires id in s.rows
    ensures Accounted(s, Stop(hit), id, StopRows(s.rows, hit, now)[id])
  {
  }

  lemma RestartIsAccounted(s: State, now: Time, hit: int, id: int)
    requires id in s.rows
    ensures Accounted(s, Restart(hit), id, ResumeRows(s.rows, hit, now)[id])
  {
  }

  lemma SweepIsAccounted(s: State, now: Time, ev: Event, id: int)
    requires id in s.rows && (ev.SetEnabled? || ev.DisableCron? || ev.StopChildren?)
    ensures Accounted(s, ev, id, Apply(s, now, ev).rows[id])
  {
    match ev
    case SetEnabled(parent, on) =>
      assert on || parent !in s.rows || !ChildInFlight(s.rows[id], parent) ==>
          SetEnabledRows(s.rows, parent, on, now)[id].status == s.rows[id].status;
    case _ =>
  }

  lemma StatusChanges(s: State, now: Time, ev: Event, id: int)
    requires TableOk(s) && Possible(s, now, ev) && (ev.Report? ==> ev.outcome.workerId != "")
    requires id in s.rows && id in Apply(s, now, ev).rows
    ensures Accounted(s, ev, id, Apply(s, now, ev).rows[id])
  {
    match ev
    case Report(o) => ReportIsAccounted(s, now, o, id);
    case Claim(w, Some(got)) => ClaimIsAccounted(s, now, w, got, id);
    case Stop(hit) => StopIsAccounted(s, now, hit, id);
    case Restart(hit) => RestartIsAccounted(s, now, hit, id);
    case SetEnabled(_, _) => SweepIsAccounted(s, now, ev, id);
    case DisableCron => SweepIsAccounted(s, now, ev, id);
    case StopChildren => SweepIsAccounted(s, now, ev, id);
    case _ => assert Apply(s, now, ev).rows[id] == s.rows[id];
  }

  /** For every task the table still holds, claims plus stops-from-pending plus
      one if it is pending equals one plus retries plus restarts. */
  lemma {:induction false} ExecutionsBalance(r: Run, id: int)
    requires Valid(r) && Honest(r)
    ensures Balanced(r, id)
  {
    match r
    case Start =>
    case Then(p, now, ev) =>
      ExecutionsBalance(p, id);
      TableInvariant(p);
      if id in After(r).rows {
        if id in After(p).rows {
          StatusChanges(After(p), now, ev, id);
        } else {
          NewRows(After(p), now, ev, id);
        }
      }
  }

  /** No task runs more often than its retries and restarts account for. */
  lemma ClaimsAreBounded(r: Run, id: int)
    requires Valid(r) && Honest(r) && id in After(r).rows
    ensures Claims(r, id) <= 1 + Max(0, After(r).rows[id].maxRetry) + Restarts(r, id)
  {
    ExecutionsBalance(r, id);
  }

  lemma {:induction false} CountsGrow(p: Run, r: Run, id: int)
    requires Extends(p, r)
    ensures Claims(p, id) <= Claims(r, id) && StopsFromPending(p, id) <= StopsFromPending(r, id)
    ensures Retries(p, id) <= Retries(r, id) && Restarts(p, id) <= Restarts(r, id)
  {
    if p != r {
      CountsGrow(p, r.prev, id);
    }
  }

  /** Two claims of one id are separated by a retry or a restart. */
  lemma ClaimsAreSeparated(p: Run, r: Run, id: int)
    requires Valid(r) && Honest(r) && p != r && Extends(p, r)
    requires p.Then? && IsClaim(p.ev, id) && IsClaim(r.ev, id)
    ensures Retries(p, id) + Restarts(p, id) < Retries(r, id) + Restarts(r, id)
  {
    ExtendsValid(p, r);
    HonestPrefix(p, r);
    ExecutionsBalance(p, id);
    ExecutionsBalance(r, id);
    CountsGrow(p, r.prev, id);
  }

  lemma {:induction false} HonestPrefix(p: Run, r: Run)
    requires Extends(p, r) && Honest(r)
    ensures Honest(p)
  {
    if p != r {
      HonestPrefix(p, r.prev);
    }
  }

  /** Nothing more happens to a deleted task. */
  lemma {:induction false} DeletedIsOver(p: Run, r: Run, id: int)
    requires Extends(p, r) && Valid(r)
    requires id < After(p).nextId && id !in After(p).rows
    ensures Claims(r, id) == Claims(p, id) && Retries(r, id) == Retries(p, id)
    ensures Restarts(r, id) == Restarts(p, id) && StopsFromPending(r, id) == StopsFromPending(p, id)
  {
    if p != r {
      IdsAreNeverReused(p, r.prev, id);
      DeletedIsOver(p, r.prev, id);
    }
  }

  // ---- backoff ----------------------------------------------------------------

  /** The delays the first k retries impose together. */
  function Backoff(k: nat): Time {
    if k == 0 then 0 else Backoff(k - 1) + RetryDelay(k)
  }

  /** 5k(k+1)/2 seconds. */
  function QuadraticDelay(k: nat): Time {
    k * (k + 1) / 2 * (5 * SECOND)
  }

  /** The delays add up to a quadratic in the number of retries. */
  lemma {:induction false} BackoffIsQuadratic(k: nat)
    ensures Backoff(k) == QuadraticDelay(k)
  {
    if k > 0 {
      BackoffIsQuadratic(k - 1);
      var before := (k - 1) * k;
      assert k * (k + 1) == before + 2 * k;
      assert (before + 2 * k) / 2 == before / 2 + k;
      assert Backoff(k) == before / 2 * (5 * SECOND) + k * (5 * SECOND);
    }
  }

  function FirstClaimAt(r: Run, id: int): Option<Time> {
    match r
    case Start => None
    case Then(p, now, ev) =>
      var earlier := FirstClaimAt(p, id);
      if earlier.None? && IsClaim(ev, id) then Some(now) else earlier
  }

  /** Retries the row has been through, not counting the failure that killed it. */
  function Spent(t: Task): nat {
    Max(0, Min(t.retryCount, t.maxRetry))
  }

  /** The row against the time of its first claim. */
  predicate Spaced(t: Task, first: Option<Time>, clock: Time) {
    match first
    case None => t.retryCount == 0 && !t.status.Running? && !Terminal(t)
    case Some(at) =>
      && at <= clock
      && 0 <= t.retryCount
      && (t.status.Pending? ==> at + Backoff(Spent(t)) <= t.nextRunAt)
      && (t.status.Running? || Terminal(t) ==> at + Backoff(Spent(t)) <= clock)
  }

  lemma ReportKeepsSpacing(t: Task, o: Outcome, first: Option<Time>, clock: Time, now: Time)
    requires Spaced(t, first, clock) && clock <= now
    requires t.status.Running? || t.status.Stopped? || Terminal(t)
    requires !Terminal(t) ==> t.retryCount <= Max(0, t.maxRetry)
    ensures Spaced(ReportRow(t, o, now), first, now)
  {
    var t' := ReportRow(t, o, now);
    if t'.status.Pending? {
      assert Spent(t') == Spent(t) + 1 == t'.retryCount;
      assert Backoff(Spent(t')) == Backoff(Spent(t)) + RetryDelay(t'.retryCount);
    } else {
      assert !t'.status.Stopped? ==> Spent(t') == Spent(t);
    }
  }

  lemma StepKeepsSpacing(s: State, now: Time, ev: Event, id: int, first: Option<Time>)
    requires TableOk(s) && Possible(s, now, ev) && (ev.Report? ==> ev.outcome.workerId != "")
    requires id in s.rows && id in Apply(s, now, ev).rows && !IsRestart(s, ev, id)
    requires Spaced(s.rows[id], first, s.clock)
    requires !Terminal(s.rows[id]) ==> s.rows[id].retryCount <= Max(0, s.rows[id].maxRetry)
    ensures Spaced(Apply(s, now, ev).rows[id], if first.None? && IsClaim(ev, id) then Some(now) else first, now)
  {
    var t, t' := s.rows[id], Apply(s, now, ev).rows[id];
    RowCases(s, now, ev, id);
    if ev.Report? && ev.outcome.taskId == id && ev.outcome.workerId == t.workerId {
      ReportKeepsSpacing(t, ev.outcome, first, s.clock, now);
    } else {
      assert t'.retryCount == t.retryCount && t'.maxRetry == t.maxRetry && t'.nextRunAt == t.nextRunAt;
      assert Spent(t') == Spent(t);
    }
  }

  /** In a task that is never restarted, each retry waits its turn. */
  lemma {:induction false} RetriesAreSpaced(r: Run, id: int)
    requires Valid(r) && Honest(r)
    ensures id in After(r).rows && Restarts(r, id) == 0 ==>
              Spaced(After(r).rows[id], FirstClaimAt(r, id), After(r).clock)
  {
    match r
    case Start =>
    case Then(p, now, ev) =>
      RetriesAreSpaced(p, id);
      TableInvariant(p);
      ExecutionsBalance(p, id);
      NoClaimNoTime(p, id);
      if id in After(r).rows && Restarts(r, id) == 0 {
        if id in After(p).rows {
          StepKeepsSpacing(After(p), now, ev, id, FirstClaimAt(p, id));
        } else {
          NewRows(After(p), now, ev, id);
        }
      }
  }

  lemma {:induction false} NoClaimNoTime(r: Run, id: int)
    ensures FirstClaimAt(r, id).None? <==> Claims(r, id) == 0
  {
    if r.Then? {
      NoClaimNoTime(r.prev, id);
    }
  }

  /** The claim made at retry_count k comes at least 5k(k+1)/2 seconds after the
      first claim of the task. */
  lemma ClaimBacksOffQuadratically(r: Run, id: int)
    requires Valid(r) && Honest(r) && r.Then? && IsClaim(r.ev, id)
    requires Restarts(r, id) == 0
    ensures id in After(r).rows && After(r).rows[id].retryCount >= 0 && FirstClaimAt(r, id).Some?
    ensures r.now - FirstClaimAt(r, id).value >= QuadraticDelay(After(r).rows[id].retryCount)
  {
    RetriesAreSpaced(r, id);
    ExecutionsBalance(r, id);
    NoClaimNoTime(r, id);
    BackoffIsQuadratic(After(r).rows[id].retryCount);
  }

  /** A task with M retries is not dead before 5M(M+1)/2 seconds have passed. */
  lemma DeathTakesQuadraticTime(r: Run, id: int)
    requires Valid(r) && Honest(r) && id in After(r).rows
    requires Restarts(r, id) == 0
    requires After(r).rows[id].status.Dead? && After(r).rows[id].maxRetry >= 0
    ensures FirstClaimAt(r, id).Some?
    ensures After(r).clock - FirstClaimAt(r, id).value >= QuadraticDelay(After(r).rows[id].maxRetry)
  {
    RetriesAreSpaced(r, id);
    TableInvariant(r);
    BackoffIsQuadratic(After(r).rows[id].maxRetry);
  }
}

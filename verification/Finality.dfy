/** Outcome finality: with one report per claim, and restarts only of rows with no
    execution in flight, a success or dead row is never rewritten. */
module Finality {
  import opened Tasks
  import opened Lifecycle
  import opened Protocol
  import opened Ownership

  /** Each execution in flight is the only one of its task, and its holder owns
      the row, which is running or stopped (or has been deleted). */
  ghost predicate TokensOk(s: State) {
    && (forall tok :: tok in s.tokens ==>
          && s.tokens[tok] == 1
          && tok.workerId != ""
          && tok.taskId < s.nextId
          && (tok.taskId in s.rows ==>
                var t := s.rows[tok.taskId];
                t.workerId == tok.workerId && (t.status.Running? || t.status.Stopped?)))
    && (forall a, b :: a in s.tokens && b in s.tokens && a.taskId == b.taskId ==> a == b)
  }

  /** A token was there before, or is that of the claim just made, of a row that had none. */
  lemma TokensAreOldOrClaimed(s: State, now: Time, ev: Event, tok: Token)
    requires TokensOk(s) && Possible(s, now, ev) && tok in Apply(s, now, ev).tokens
    ensures
      || (tok in s.tokens && Apply(s, now, ev).tokens[tok] == 1)
      || (ev == Claim(tok.workerId, Some(tok.taskId)) && Apply(s, now, ev).tokens[tok] == 1
          && forall other :: other in s.tokens ==> other.taskId != tok.taskId)
  {
    var s' := Apply(s, now, ev);
    if ev.Claim? && ev.got.Some? {
      assert forall other :: other in s.tokens ==> other.taskId != ev.got.value;
    } else {
      assert s'.tokens <= s.tokens;
    }
  }

  /** The row of an execution in flight stays with its worker. */
  lemma TokenKeepsItsRow(s: State, now: Time, ev: Event, tok: Token)
    requires TableOk(s) && TokensOk(s) && Possible(s, now, ev) && Allowed(s, ev)
    requires tok in Apply(s, now, ev).tokens && tok.taskId in Apply(s, now, ev).rows
    ensures
      var t := Apply(s, now, ev).rows[tok.taskId];
      t.workerId == tok.workerId && (t.status.Running? || t.status.Stopped?)
  {
    TokensAreOldOrClaimed(s, now, ev, tok);
    if tok.taskId in s.rows {
      assert ev.Report? ==> Token(ev.outcome.taskId, ev.outcome.workerId) in s.tokens;
      assert ev == Restart(tok.taskId) && s.rows[tok.taskId].status.Stopped? ==> Token(tok.taskId, tok.workerId) !in s.tokens;
      RowCases(s, now, ev, tok.taskId);
    } else {
      NewRows(s, now, ev, tok.taskId);
    }
  }

  lemma StepKeepsTokens(s: State, now: Time, ev: Event)
    requires TableOk(s) && TokensOk(s) && Possible(s, now, ev) && Allowed(s, ev)
    ensures TokensOk(Apply(s, now, ev))
  {
    var s' := Apply(s, now, ev);
    forall tok | tok in s'.tokens
      ensures s'.tokens[tok] == 1 && tok.workerId != "" && tok.taskId < s'.nextId
      ensures tok.taskId in s'.rows ==>
                && s'.rows[tok.taskId].workerId == tok.workerId
                && (s'.rows[tok.taskId].status.Running? || s'.rows[tok.taskId].status.Stopped?)
    {
      TokensAreOldOrClaimed(s, now, ev, tok);
      if tok.taskId in s'.rows {
        TokenKeepsItsRow(s, now, ev, tok);
      }
    }
    forall a, b | a in s'.tokens && b in s'.tokens && a.taskId == b.taskId ensures a == b {
      TokensAreOldOrClaimed(s, now, ev, a);
      TokensAreOldOrClaimed(s, now, ev, b);
    }
  }

  /** A disciplined run is honest, and its executions are unique and owned. */
  lemma {:induction false} TokenInvariant(r: Run)
    requires Valid(r) && Disciplined(r)
    ensures Honest(r) && TableOk(After(r)) && TokensOk(After(r))
  {
    match r
    case Start =>
    case Then(p, now, ev) =>
      TokenInvariant(p);
      StepKeepsTable(After(p), now, ev);
      StepKeepsTokens(After(p), now, ev);
  }

  /** Pending and finished rows have no execution in flight. */
  lemma IdleRowsHaveNoToken(r: Run, id: int, worker: string)
    requires Valid(r) && Disciplined(r) && id in After(r).rows
    requires After(r).rows[id].status.Pending? || Terminal(After(r).rows[id])
    ensures Token(id, worker) !in After(r).tokens
  {
    TokenInvariant(r);
  }

  predicate SameOutcome(t: Task, t': Task) {
    t'.status == t.status && t'.result == t.result && t'.retryCount == t.retryCount && t'.workerId == t.workerId
  }

  lemma StepKeepsOutcome(s: State, now: Time, ev: Event, id: int)
    requires TableOk(s) && TokensOk(s) && Possible(s, now, ev) && Allowed(s, ev)
    requires id in s.rows && Terminal(s.rows[id]) && id in Apply(s, now, ev).rows
    ensures SameOutcome(s.rows[id], Apply(s, now, ev).rows[id])
  {
    RowCases(s, now, ev, id);
  }

  /** Once a row is success or dead, every later state that still has the row
      shows the same outcome. */
  lemma {:induction false} OutcomeIsFinal(p: Run, r: Run, id: int)
    requires Extends(p, r) && Valid(r) && Disciplined(r)
    requires id in After(p).rows && Terminal(After(p).rows[id])
    requires id in After(r).rows
    ensures SameOutcome(After(p).rows[id], After(r).rows[id])
  {
    if p != r {
      TokenInvariant(r.prev);
      if id !in After(r.prev).rows {
        DisciplinedPrefix(p, r);
        ExtendsValid(p, r.prev);
        TokenInvariant(p);
        IdsAreNeverReused(r.prev, r, id);
      }
      OutcomeIsFinal(p, r.prev, id);
      StepKeepsOutcome(After(r.prev), r.now, r.ev, id);
    }
  }

  lemma {:induction false} DisciplinedPrefix(p: Run, r: Run)
    requires Extends(p, r) && Disciplined(r)
    ensures Disciplined(p)
  {
    if p != r {
      DisciplinedPrefix(p, r.prev);
    }
  }

  // ---- outcomes are what workers said ---------------------------------------------

  /** A report that decides a row: its owner's, not stopped, and either a success or a
      failure with no retry left. */
  predicate Decides(s: State, ev: Event, id: int) {
    && ev.Report? && ev.outcome.taskId == id && Owns(s.rows, id, ev.outcome.workerId)
    && !s.rows[id].status.Stopped?
    && (ev.outcome.success || s.rows[id].retryCount >= s.rows[id].maxRetry)
  }

  /** The last deciding report about an id. */
  function Verdict(r: Run, id: int): Option<Outcome> {
    match r
    case Start => None
    case Then(p, _, ev) => if Decides(After(p), ev, id) then Some(ev.outcome) else Verdict(p, id)
  }

  /** A finished row shows exactly what the last deciding report said and who sent it,
      and no row is finished without one. */
  lemma {:induction false} OutcomeIsTheLastVerdict(r: Run, id: int)
    requires Valid(r) && id in After(r).rows && Terminal(After(r).rows[id])
    ensures Verdict(r, id).Some?
    ensures
      var t, o := After(r).rows[id], Verdict(r, id).value;
      && t.workerId == o.workerId && t.result == o.output
      && (t.status.Success? <==> o.success)
  {
    var p, s := r.prev, After(r.prev);
    if id !in s.rows {
      NewRows(s, r.now, r.ev, id);
      assert false;
    }
    KnownIds(p, id);
    StepDecides(s, r.now, r.ev, id);
    if !Decides(s, r.ev, id) {
      OutcomeIsTheLastVerdict(p, id);
    }
  }

  lemma StepDecides(s: State, now: Time, ev: Event, id: int)
    requires id in s.rows && id < s.nextId && id in Apply(s, now, ev).rows && Terminal(Apply(s, now, ev).rows[id])
    ensures Decides(s, ev, id) ==>
              var t, o := Apply(s, now, ev).rows[id], ev.outcome;
              t.workerId == o.workerId && t.result == o.output && (t.status.Success? <==> o.success)
    ensures !Decides(s, ev, id) ==> Terminal(s.rows[id]) && SameOutcome(s.rows[id], Apply(s, now, ev).rows[id])
  {
    RowCases(s, now, ev, id);
  }

  // ---- the hypotheses are needed ------------------------------------------------

  /** For one late report against a finished row: the outcome is safe from a
      worker, whatever it sends, exactly when that worker is not the row's owner. */
  lemma LateReportIsHarmlessIff(rows: Rows, id: int, worker: string, now: Time)
    requires id in rows && Terminal(rows[id])
    ensures
      (forall success, output :: SameOutcome(rows[id], ReportRows(rows, Outcome(id, worker, success, output), now)[id]))
      <==> rows[id].workerId != worker
  {
    if rows[id].workerId == worker {
      var loud := rows[id].result + "!";
      assert |loud| == |rows[id].result| + 1;
      assert ReportRows(rows, Outcome(id, worker, true, loud), now)[id].result == loud;
      assert !SameOutcome(rows[id], ReportRows(rows, Outcome(id, worker, true, loud), now)[id]);
    }
  }

  // ---- which restarts are safe -----------------------------------------------------

  /** An empty worker_id shows that no execution of the row is in flight. */
  lemma DetachedRowsAreIdle(r: Run, id: int, w: string)
    requires Valid(r) && Disciplined(r) && id in After(r).rows && After(r).rows[id].workerId == ""
    ensures Token(id, w) !in After(r).tokens
  {
    TokenInvariant(r);
  }

  /** r continues q with allowed steps only. */
  ghost predicate AllowedSince(q: Run, r: Run) {
    q == r || (r.Then? && AllowedSince(q, r.prev) && Allowed(After(r.prev), r.ev))
  }

  lemma {:induction false} AllowedSinceExtends(q: Run, r: Run)
    requires AllowedSince(q, r)
    ensures Extends(q, r) && (Disciplined(q) ==> Disciplined(r))
  {
    if q != r {
      AllowedSinceExtends(q, r.prev);
    }
  }

  /** Along an allowed continuation r of q, the outcome p recorded for x is rewritten. */
  ghost predicate Rewrites(q: Run, p: Run, r: Run, x: int) {
    && AllowedSince(q, r) && Extends(q, p) && Extends(p, r) && Valid(r)
    && x in After(p).rows && Terminal(After(p).rows[x])
    && x in After(r).rows && !SameOutcome(After(p).rows[x], After(r).rows[x])
  }

  lemma Continue(q: Run, c: Run, now: Time, ev: Event) returns (c': Run)
    requires AllowedSince(q, c) && Valid(c) && Possible(After(c), now, ev) && Allowed(After(c), ev)
    ensures c' == Then(c, now, ev) && AllowedSince(q, c') && Valid(c') && After(c') == Apply(After(c), now, ev)
  {
    c' := Then(c, now, ev);
  }

  /** Deleting every other row with an id below n is an allowed continuation. */
  lemma {:induction false} ClearedBelow(q: Run, id: int, n: nat) returns (c: Run)
    requires Valid(q)
    ensures AllowedSince(q, c) && Valid(c) && After(c).clock == After(q).clock && After(c).tokens == After(q).tokens
    ensures forall i :: i in After(c).rows <==> i in After(q).rows && (i < 0 || i >= n || i == id)
    ensures id in After(q).rows ==> After(c).rows[id] == After(q).rows[id]
  {
    c := q;
    if n > 0 {
      c := ClearedBelow(q, id, n - 1);
      if n - 1 != id {
        c := Continue(q, c, After(c).clock, Delete(n - 1));
      }
    }
  }

  lemma OwnerReports(q: Run, c: Run, id: int, w: string, output: string) returns (c': Run)
    requires AllowedSince(q, c) && Valid(c) && Token(id, w) in After(c).tokens
    requires Owns(After(c).rows, id, w) && !After(c).rows[id].status.Stopped?
    ensures c'.Then? && c'.prev == c && AllowedSince(q, c') && Valid(c') && Owns(After(c').rows, id, w)
    ensures After(c').rows[id].status.Success? && After(c').rows[id].result == output
    ensures After(c').tokens[Token(id, w)] == After(c).tokens[Token(id, w)] - 1
  {
    c' := Continue(q, c, After(c).clock, Report(Outcome(id, w, true, output)));
  }

  /** With every other row gone the restarted row is the one to claim, and two executions
      of it, both its owner's, disagree on the output. */
  lemma RewriteAfterRestart(q: Run, c0: Run, id: int, w: string) returns (p: Run, r: Run)
    requires AllowedSince(q, c0) && Valid(c0) && id in After(c0).rows && Token(id, w) in After(c0).tokens && w != ""
    requires forall i :: i in After(c0).rows ==> i == id
    requires Due(After(c0).rows[id], After(c0).clock)
    ensures Rewrites(q, p, r, id)
  {
    var now, tok := After(c0).clock, Token(id, w);
    var c1 := Continue(q, c0, now, Claim(w, Some(id)));
    assert After(c1).tokens[tok] >= 2 && After(c1).rows[id] == ClaimRow(After(c0).rows[id], w, now);
    p := OwnerReports(q, c1, id, w, "");
    r := OwnerReports(q, p, id, w, "!");
    assert Extends(p, r) by {
      assert Extends(p, p);
    }
    AllowedSinceExtends(q, p);
  }

  lemma UnsafeRestart(q: Run, id: int, w: string) returns (p: Run, r: Run)
    requires q.Then? && q.ev == Restart(id) && Valid(q) && Disciplined(q.prev)
    requires id in After(q.prev).rows && After(q.prev).rows[id].status.Stopped?
    requires Token(id, w) in After(q.prev).tokens
    ensures Rewrites(q, p, r, id)
  {
    TokenInvariant(q.prev);
    assert Token(id, w).workerId == w && After(q.prev).rows[id].workerId == w;
    NextIdIsPositive(q);
    var c := ClearedBelow(q, id, After(q).nextId);
    forall i | i in After(c).rows ensures i == id {
      KnownIds(q, i);
    }
    p, r := RewriteAfterRestart(q, c, id, w);
  }

  /** Restarting a stopped row opens the way to a rewritten outcome, with one report per
      claim and no other careless restart, exactly when an execution of it is in flight. */
  lemma RestartIsSafeIff(q: Run, id: int)
    requires q.Then? && q.ev == Restart(id) && Valid(q) && Disciplined(q.prev)
    requires id in After(q.prev).rows && After(q.prev).rows[id].status.Stopped?
    ensures (forall p, r, x :: !Rewrites(q, p, r, x)) <==> (forall w :: Token(id, w) !in After(q.prev).tokens)
  {
    if w :| Token(id, w) in After(q.prev).tokens {
      var p, r := UnsafeRestart(q, id, w);
    } else {
      forall p, r, x ensures !Rewrites(q, p, r, x) {
        if Rewrites(q, p, r, x) {
          AllowedSinceExtends(q, r);
          OutcomeIsFinal(p, r, x);
        }
      }
    }
  }

  ghost predicate OneReportPerClaim(r: Run) {
    match r
    case Start => true
    case Then(p, _, ev) =>
      OneReportPerClaim(p) && (ev.Report? ==> Token(ev.outcome.taskId, ev.outcome.workerId) in After(p).tokens)
  }

  ghost predicate Reaches(r: Run, s: State) {
    Valid(r) && OneReportPerClaim(r) && After(r) == s
  }

  lemma Step(r: Run, s: State, now: Time, ev: Event) returns (r': Run, s': State)
    requires Reaches(r, s) && Possible(s, now, ev)
    requires ev.Report? ==> Token(ev.outcome.taskId, ev.outcome.workerId) in s.tokens
    ensures r' == Then(r, now, ev) && s' == Apply(s, now, ev) && Reaches(r', s')
  {
    r', s' := Then(r, now, ev), Apply(s, now, ev);
  }

  lemma StoppedRestartedClaimed(r0: Run, s0: State, w: string, t: Task) returns (r: Run, s: State)
    requires Reaches(r0, s0) && w != "" && s0.clock == 1 && s0.tokens == multiset{Token(1, w)}
    requires s0.rows == map[1 := ClaimRow(t, w, 1)] && t.kind.Once?
    ensures Reaches(r, s) && s.clock == 3 && s.tokens == multiset{Token(1, w), Token(1, w)}
    ensures s.rows == map[1 := ClaimRow(ResumeRow(t, 3), w, 3)]
  {
    r, s := Step(r0, s0, 2, Stop(1));
    assert s.rows == map[1 := StopRow(ClaimRow(t, w, 1), "stopped by user", 2)];
    r, s := Step(r, s, 3, Restart(1));
    assert s.rows == map[1 := ResumeRow(t, 3)];
    r, s := Step(r, s, 3, Claim(w, Some(1)));
  }

  lemma ClaimedStoppedRestartedClaimed(w: string, d: Draft) returns (r: Run, s: State)
    requires w != "" && d.name != "" && d.command != "" && d.kind.Once?
    ensures Reaches(r, s) && s.clock == 3
    ensures s.tokens == multiset{Token(1, w), Token(1, w)}
    ensures s.rows == map[1 := ClaimRow(ResumeRow(NewRow(FromDraft(d), 1, 1), 3), w, 3)]
  {
    var t := NewRow(FromDraft(d), 1, 1);
    r, s := Step(Start, INITIAL, 1, Create(d));
    assert s.rows == map[1 := t];
    r, s := Step(r, s, 1, Claim(w, Some(1)));
    assert s.rows == map[1 := ClaimRow(t, w, 1)] && s.tokens == multiset{Token(1, w)};
    r, s := StoppedRestartedClaimed(r, s, w, t);
  }

  /** A restart of a row whose worker is still attached: the worker claims the row
      again while its first execution lives, and the two reports flip success to dead. */
  lemma RestartHypothesisIsNeeded(w: string, d: Draft) returns (p: Run, r: Run)
    requires w != "" && d.name != "" && d.command != "" && d.kind.Once? && d.maxRetry <= 0
    ensures r.Then? && r.prev == p && Valid(r) && OneReportPerClaim(r)
    ensures 1 in After(p).rows && After(p).rows[1].status.Success?
    ensures 1 in After(r).rows && After(r).rows[1].status.Dead?
  {
    var s;
    r, s := ClaimedStoppedRestartedClaimed(w, d);
    r, s := Step(r, s, 4, Report(Outcome(1, w, true, "")));
    p := r;
    r, s := Step(r, s, 5, Report(Outcome(1, w, false, "")));
  }

}

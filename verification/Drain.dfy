/** Without new work the table drains: a rank over the whole table pays for every
    claim, report and stop that has an effect. */
module Drain {
  import opened Sets
  import opened Tasks
  import opened Lifecycle
  import opened Protocol
  import opened Ownership
  import opened Conservation
  import opened Finality

  function RowRank(t: Task): nat {
    if t.kind.Cron? then 0
    else if t.status.Pending? then 2 * Max(0, t.maxRetry - t.retryCount) + 2
    else if t.status.Running? then 2 * Max(0, t.maxRetry - t.retryCount) + 1
    else 0
  }

  function Weight(rows: Rows, id: int): nat {
    if id in rows then RowRank(rows[id]) else 0
  }

  /** The weights of the ids below n, added up. */
  function RankBelow(rows: Rows, n: nat): nat {
    if n == 0 then 0 else RankBelow(rows, n - 1) + Weight(rows, n - 1)
  }

  function Rank(s: State): nat
    requires 0 <= s.nextId
  {
    RankBelow(s.rows, s.nextId)
  }

  lemma {:induction false} RankDrops(rows: Rows, rows': Rows, n: nat, k: int)
    requires forall id :: 0 <= id < n ==> Weight(rows', id) <= Weight(rows, id)
    ensures RankBelow(rows', n) <= RankBelow(rows, n)
    ensures 0 <= k < n && Weight(rows', k) < Weight(rows, k) ==> RankBelow(rows', n) < RankBelow(rows, n)
  {
    if n > 0 {
      RankDrops(rows, rows', n - 1, k);
    }
  }

  lemma {:induction false} WeightIsInRank(rows: Rows, n: nat, k: int)
    requires 0 <= k < n
    ensures Weight(rows, k) <= RankBelow(rows, n)
  {
    if k < n - 1 {
      WeightIsInRank(rows, n - 1, k);
    }
  }

  predicate IsNewWork(s: State, ev: Event) {
    ev.Create? || ev.Spawn? || (ev.Restart? && IsRestart(s, ev, ev.id))
  }

  /** A stop, a pause of the parent or a cron shutdown that hits an active row. */
  predicate Halts(s: State, ev: Event, id: int) {
    && id in s.rows
    && (|| (ev == Stop(id) && Active(s.rows[id]))
        || (ev.SetEnabled? && !ev.on && ev.id in s.rows && ChildInFlight(s.rows[id], ev.id))
        || (ev.StopChildren? && AnyChildInFlight(s.rows[id])))
  }

  /** The one-shot row a step claims, finishes, retries or stops. */
  ghost predicate Affects(s: State, ev: Event, id: int) {
    && id in s.rows && s.rows[id].kind.Once?
    && (|| IsClaim(ev, id)
        || (ev.Report? && ev.outcome.taskId == id && ev.outcome.workerId == s.rows[id].workerId && s.rows[id].status.Running?)
        || Halts(s, ev, id))
  }

  ghost predicate IsEffective(s: State, ev: Event) {
    exists id :: Affects(s, ev, id)
  }

  lemma ReportLowersRank(t: Task, o: Outcome, now: Time)
    requires t.status.Running? || t.status.Stopped? || Terminal(t)
    ensures RowRank(ReportRow(t, o, now)) <= RowRank(t)
    ensures t.kind.Once? && t.status.Running? ==> RowRank(ReportRow(t, o, now)) < RowRank(t)
  {
  }

  lemma RowRankNeverRises(s: State, now: Time, ev: Event, id: int)
    requires TableOk(s) && Possible(s, now, ev) && (ev.Report? ==> ev.outcome.workerId != "")
    requires !IsNewWork(s, ev) && id in s.rows && id in Apply(s, now, ev).rows
    ensures RowRank(Apply(s, now, ev).rows[id]) <= RowRank(s.rows[id])
  {
    RowCases(s, now, ev, id);
    if ev.Report? && ev.outcome.taskId == id && ev.outcome.workerId == s.rows[id].workerId {
      ReportLowersRank(s.rows[id], ev.outcome, now);
    }
  }

  lemma AffectedRankDrops(s: State, now: Time, ev: Event, id: int)
    requires TableOk(s) && Possible(s, now, ev) && (ev.Report? ==> ev.outcome.workerId != "")
    requires Affects(s, ev, id)
    ensures id in Apply(s, now, ev).rows && RowRank(Apply(s, now, ev).rows[id]) < RowRank(s.rows[id])
  {
    match ev
    case Report(o) =>
      ReportLowersRank(s.rows[id], o, now);
      assert ReportRows(s.rows, o, now)[id] == ReportRow(s.rows[id], o, now);
    case Claim(w, _) => assert ClaimRows(s.rows, id, w, now)[id] == ClaimRow(s.rows[id], w, now);
    case Stop(_) => assert StopRows(s.rows, id, now)[id].status.Stopped?;
    case SetEnabled(parent, on) => assert SetEnabledRows(s.rows, parent, on, now)[id].status.Stopped?;
    case StopChildren => assert StopChildrenRows(s.rows, now)[id].status.Stopped?;
  }

  lemma WeightsNeverRise(s: State, now: Time, ev: Event, id: int)
    requires TableOk(s) && Possible(s, now, ev) && (ev.Report? ==> ev.outcome.workerId != "")
    requires !IsNewWork(s, ev)
    ensures Weight(Apply(s, now, ev).rows, id) <= Weight(s.rows, id)
    ensures Affects(s, ev, id) ==> Weight(Apply(s, now, ev).rows, id) < Weight(s.rows, id)
  {
    if Affects(s, ev, id) {
      AffectedRankDrops(s, now, ev, id);
    } else if id in Apply(s, now, ev).rows {
      if id in s.rows {
        RowRankNeverRises(s, now, ev, id);
      } else {
        NewRows(s, now, ev, id);
      }
    }
  }

  /** Every step that brings no new work keeps the rank from rising, and every
      effective claim, report or stop lowers it. */
  lemma RankDropsOnEffect(s: State, now: Time, ev: Event)
    requires TableOk(s) && Possible(s, now, ev) && (ev.Report? ==> ev.outcome.workerId != "")
    requires !IsNewWork(s, ev)
    ensures Apply(s, now, ev).nextId == s.nextId
    ensures Rank(Apply(s, now, ev)) <= Rank(s)
    ensures IsEffective(s, ev) ==> Rank(Apply(s, now, ev)) < Rank(s)
  {
    var s' := Apply(s, now, ev);
    forall id | 0 <= id < s.nextId ensures Weight(s'.rows, id) <= Weight(s.rows, id) {
      WeightsNeverRise(s, now, ev, id);
    }
    RankDrops(s.rows, s'.rows, s.nextId, 0);
    if id :| Affects(s, ev, id) {
      WeightsNeverRise(s, now, ev, id);
      RankDrops(s.rows, s'.rows, s.nextId, id);
    }
  }

  ghost predicate NoNewWork(p: Run, r: Run)
    requires Extends(p, r)
  {
    p == r || (NoNewWork(p, r.prev) && !IsNewWork(After(r.prev), r.ev))
  }

  ghost function EffectiveSteps(r: Run): nat {
    if r.Start? then 0 else EffectiveSteps(r.prev) + Bit(IsEffective(After(r.prev), r.ev))
  }

  /** In any run without new work, the effective steps are bounded by the rank. */
  lemma {:induction false} EffectiveStepsAreBounded(p: Run, r: Run)
    requires Extends(p, r) && Valid(r) && Honest(r) && NoNewWork(p, r)
    ensures TableOk(After(p)) && TableOk(After(r))
    ensures EffectiveSteps(r) + Rank(After(r)) <= EffectiveSteps(p) + Rank(After(p))
  {
    TableInvariant(r);
    if p != r {
      EffectiveStepsAreBounded(p, r.prev);
      RankDropsOnEffect(After(r.prev), r.now, r.ev);
    }
  }

  /** Every one-shot row is finished or stopped. */
  predicate Drained(rows: Rows) {
    forall id :: id in rows && rows[id].kind.Once? ==> !Active(rows[id])
  }

  lemma {:induction false} DrainedHasNoRank(rows: Rows, n: nat)
    requires Drained(rows)
    ensures RankBelow(rows, n) == 0
  {
    if n > 0 {
      DrainedHasNoRank(rows, n - 1);
    }
  }

  /** Rank zero is exactly a drained table. */
  lemma RankZeroIsDrained(s: State)
    requires TableOk(s)
    ensures Rank(s) == 0 <==> Drained(s.rows)
  {
    if Rank(s) == 0 {
      forall id | id in s.rows && s.rows[id].kind.Once? ensures !Active(s.rows[id]) {
        WeightIsInRank(s.rows, s.nextId, id);
      }
    } else if Drained(s.rows) {
      DrainedHasNoRank(s.rows, s.nextId);
    }
  }

  /** Among due tasks one is earliest. */
  lemma {:induction false} EarliestExists(rows: Rows, due: set<int>) returns (id: int)
    requires due != {} && forall j :: j in due ==> j in rows
    ensures id in due && forall j :: j in due ==> rows[id].nextRunAt <= rows[j].nextRunAt
    decreases due
  {
    HasMember(due);
    id :| id in due;
    if due != {id} {
      var rest := EarliestExists(rows, due - {id});
      if rows[rest].nextRunAt < rows[id].nextRunAt {
        id := rest;
      }
    }
  }

  // ---- which tables can drain by themselves ------------------------------------------

  /** A running row whose execution is gone. */
  ghost predicate Abandoned(s: State, id: int) {
    id in s.rows && s.rows[id].status.Running? && forall w :: Token(id, w) !in s.tokens
  }

  /** A one-shot row that waits, or runs with its execution in flight. */
  ghost predicate Alive(s: State, id: int) {
    id in s.rows && s.rows[id].kind.Once? && Active(s.rows[id]) && !Abandoned(s, id)
  }

  /** A claim or a report of an execution in flight that has an effect at some instant. */
  ghost predicate IsProgress(s: State, now: Time, ev: Event) {
    Possible(s, now, ev) && Allowed(s, ev) && IsEffective(s, ev) && (ev.Claim? || ev.Report?)
  }

  lemma AliveCanProgress(s: State, x: int) returns (now: Time, ev: Event)
    requires TableOk(s) && TokensOk(s) && Alive(s, x)
    ensures IsProgress(s, now, ev)
  {
    if s.rows[x].status.Running? {
      var w :| Token(x, w) in s.tokens;
      assert Token(x, w).workerId == s.rows[x].workerId;
      now, ev := s.clock, Report(Outcome(x, w, true, ""));
      assert Affects(s, ev, x);
    } else {
      now := Max(s.clock, s.rows[x].nextRunAt);
      var due := set i | i in s.rows && Due(s.rows[i], now);
      assert x in due;
      var id := EarliestExists(s.rows, due);
      ev := Claim("worker", Some(id));
      assert Affects(s, ev, id);
    }
  }

  /** Some claim or report of a live execution can still have an effect, now or after
      waiting, exactly while some one-shot row waits or runs with its execution in flight:
      what is then left active is abandoned. */
  lemma ProgressIsPossibleIff(s: State)
    requires TableOk(s) && TokensOk(s)
    ensures (exists now, ev :: IsProgress(s, now, ev)) <==> (exists id :: Alive(s, id))
  {
    if x :| Alive(s, x) {
      var now, ev := AliveCanProgress(s, x);
    }
    if now, ev :| IsProgress(s, now, ev) {
      var id :| Affects(s, ev, id);
      assert ev.Report? ==> Token(id, ev.outcome.workerId) in s.tokens;
      assert Alive(s, id);
    }
  }

  /** r continues p, and in between nobody deletes or stops the row. */
  predicate LeftAlone(p: Run, r: Run, id: int) {
    p == r || (r.Then? && LeftAlone(p, r.prev, id) && r.ev != Delete(id) && !Halts(After(r.prev), r.ev, id))
  }

  lemma AbandonedRowIsLeft(s: State, now: Time, ev: Event, id: int)
    requires TableOk(s) && TokensOk(s) && Possible(s, now, ev) && Allowed(s, ev)
    requires Abandoned(s, id) && ev != Delete(id) && !Halts(s, ev, id)
    ensures id in Apply(s, now, ev).rows && Apply(s, now, ev).rows[id].status.Running?
  {
    assert ev.Report? ==> Token(ev.outcome.taskId, ev.outcome.workerId) in s.tokens;
    match ev
    case Delete(_) =>
    case SetEnabled(parent, on) =>
      assert SetEnabledRows(s.rows, parent, on, now)[id].status == s.rows[id].status;
    case StopChildren =>
      assert StopChildrenRows(s.rows, now)[id] == s.rows[id];
    case _ => RowCases(s, now, ev, id);
  }

  lemma StepKeepsAbandoned(s: State, now: Time, ev: Event, id: int)
    requires TableOk(s) && TokensOk(s) && Possible(s, now, ev) && Allowed(s, ev)
    requires Abandoned(s, id) && ev != Delete(id) && !Halts(s, ev, id)
    ensures Abandoned(Apply(s, now, ev), id)
  {
    var s' := Apply(s, now, ev);
    forall w ensures Token(id, w) !in s'.tokens {
      assert Token(id, w) !in s.tokens && Token(id, w).taskId == id;
      if Token(id, w) in s'.tokens {
        TokensAreOldOrClaimed(s, now, ev, Token(id, w));
      }
    }
    AbandonedRowIsLeft(s, now, ev, id);
  }

  lemma {:induction false} AbandonedRowsStayRunning(p: Run, r: Run, id: int)
    requires Valid(r) && Disciplined(r) && LeftAlone(p, r, id) && Abandoned(After(p), id)
    ensures Abandoned(After(r), id)
  {
    if p != r {
      AbandonedRowsStayRunning(p, r.prev, id);
      TokenInvariant(r.prev);
      StepKeepsAbandoned(After(r.prev), r.now, r.ev, id);
    }
  }

  /** Nothing recovers a running row whose execution was lost: until somebody stops or
      deletes it, it stays running and no execution of it is ever in flight again. */
  lemma LostExecutionIsNotRecovered(p: Run, r: Run, id: int, w: string)
    requires p.Then? && p.ev == Lose(Token(id, w)) && id in After(p.prev).rows && After(p.prev).rows[id].status.Running?
    requires Valid(r) && Disciplined(r) && LeftAlone(p, r, id)
    ensures Abandoned(After(r), id)
  {
    LeftAloneExtends(p, r, id);
    ExtendsValid(p, r);
    DisciplinedPrefix(p, r);
    TokenInvariant(p.prev);
    forall v ensures Token(id, v) !in After(p).tokens {
      assert Token(id, v).taskId == Token(id, w).taskId;
    }
    AbandonedRowsStayRunning(p, r, id);
  }

  lemma {:induction false} LeftAloneExtends(p: Run, r: Run, id: int)
    requires LeftAlone(p, r, id)
    ensures Extends(p, r)
  {
    if p != r {
      LeftAloneExtends(p, r.prev, id);
    }
  }

  /** Such a run: the only worker's response is lost on its way. */
  lemma ExecutionIsLost(w: string, d: Draft) returns (p: Run)
    requires w != "" && d.name != "" && d.command != "" && d.kind.Once?
    ensures Valid(p) && Disciplined(p) && p.Then? && p.ev == Lose(Token(1, w))
    ensures 1 in After(p.prev).rows && After(p.prev).rows[1].status.Running? && Abandoned(After(p), 1)
    ensures forall now, ev :: !IsProgress(After(p), now, ev)
  {
    var r1 := Then(Start, 1, Create(d));
    var row := NewRow(FromDraft(d), 1, 1);
    assert After(r1).rows == map[1 := row] && After(r1).tokens == multiset{} && Valid(r1) && Disciplined(r1);
    var r2 := Then(r1, 1, Claim(w, Some(1)));
    assert After(r2).rows == map[1 := ClaimRow(row, w, 1)] && After(r2).tokens == multiset{Token(1, w)};
    assert Valid(r2) && Disciplined(r2);
    p := Then(r2, 1, Lose(Token(1, w)));
    assert After(p).rows == map[1 := ClaimRow(row, w, 1)] && After(p).tokens == multiset{};
    TokenInvariant(p);
    ProgressIsPossibleIff(After(p));
  }
}

/** Pausing a cron definition, over whole runs. */
module Pause {
  import opened Tasks
  import opened Lifecycle
  import opened Protocol
  import opened Ownership
  import opened Conservation

  predicate ActiveChild(s: State, c: int, parent: int) {
    c in s.rows && ChildInFlight(s.rows[c], parent)
  }

  /** Disabled for good unless someone enables it: the id cannot be reused. */
  predicate Disabled(s: State, parent: int) {
    1 <= parent < s.nextId && (parent in s.rows ==> !s.rows[parent].enabled)
  }

  predicate Unscheduled(s: State, parent: int) {
    Disabled(s, parent) && forall d :: d in s.entries ==> d.id != parent
  }

  /** No step between p and r enables the definition again. */
  predicate NotReenabled(p: Run, r: Run, parent: int)
    requires Extends(p, r)
  {
    p == r || (NotReenabled(p, r.prev, parent) && r.ev != SetEnabled(parent, true))
  }

  function Spawns(r: Run, parent: int): nat {
    if r.Start? then 0 else Spawns(r.prev, parent) + Bit(r.ev.Spawn? && r.ev.def.id == parent)
  }

  /** Right after the pause no child of the definition is pending or running. */
  lemma PauseStopsEveryChild(s: State, now: Time, parent: int, c: int)
    requires TableOk(s) && parent in s.rows
    ensures Disabled(Apply(s, now, SetEnabled(parent, false)), parent)
    ensures !ActiveChild(Apply(s, now, SetEnabled(parent, false)), c, parent)
  {
  }

  lemma StepStaysDisabled(s: State, now: Time, ev: Event, parent: int)
    requires Disabled(s, parent) && ev != SetEnabled(parent, true)
    ensures Disabled(Apply(s, now, ev), parent)
  {
    if parent !in s.rows && parent in Apply(s, now, ev).rows {
      NewRows(s, now, ev, parent);
    }
  }

  lemma {:induction false} StaysDisabled(p: Run, r: Run, parent: int)
    requires Extends(p, r) && Valid(r) && NotReenabled(p, r, parent)
    requires Disabled(After(p), parent)
    ensures Disabled(After(r), parent)
  {
    if p != r {
      StaysDisabled(p, r.prev, parent);
      StepStaysDisabled(After(r.prev), r.now, r.ev, parent);
    }
  }

  lemma StepStaysQuiet(s: State, now: Time, ev: Event, parent: int)
    requires TableOk(s) && Possible(s, now, ev) && ev != SetEnabled(parent, true)
    requires ev.Report? ==> ev.outcome.workerId != ""
    requires Unscheduled(s, parent)
    ensures Unscheduled(Apply(s, now, ev), parent)
    ensures !(ev.Spawn? && ev.def.id == parent)
    ensures forall c :: c in Apply(s, now, ev).rows && Apply(s, now, ev).rows[c].parentId == parent ==>
              c in s.rows && s.rows[c].parentId == parent
    ensures forall c :: ActiveChild(Apply(s, now, ev), c, parent) && !IsRestart(s, ev, c) ==> ActiveChild(s, c, parent)
  {
    var s' := Apply(s, now, ev);
    StepStaysDisabled(s, now, ev, parent);
    forall c | c in s'.rows && s'.rows[c].parentId == parent
      ensures c in s.rows && s.rows[c].parentId == parent
      ensures Active(s'.rows[c]) && !IsRestart(s, ev, c) ==> Active(s.rows[c])
    {
      if c in s.rows {
        RowCases(s, now, ev, c);
      } else {
        NewRows(s, now, ev, c);
      }
    }
  }

  /** Without an entry a disabled definition spawns nothing, gains no child, and a
      child is pending or running only if it already was or has been restarted. */
  lemma {:induction false} UnscheduledStaysQuiet(q: Run, r: Run, parent: int, c: int)
    requires Extends(q, r) && Valid(r) && Honest(r) && NotReenabled(q, r, parent)
    requires Unscheduled(After(q), parent)
    ensures Unscheduled(After(r), parent) && Spawns(r, parent) == Spawns(q, parent)
    ensures c in After(r).rows && After(r).rows[c].parentId == parent ==>
              c in After(q).rows && After(q).rows[c].parentId == parent
    ensures ActiveChild(After(r), c, parent) ==>
              ActiveChild(After(q), c, parent) || Restarts(r, c) > Restarts(q, c)
  {
    if q != r {
      UnscheduledStaysQuiet(q, r.prev, parent, c);
      TableInvariant(r.prev);
      CountsGrow(q, r.prev, c);
      StepStaysQuiet(After(r.prev), r.now, r.ev, parent);
    }
  }

  lemma StepReactivates(s: State, now: Time, ev: Event, parent: int, c: int)
    requires TableOk(s) && Possible(s, now, ev) && (ev.Report? ==> ev.outcome.workerId != "")
    requires c in s.rows && !ActiveChild(s, c, parent) && ActiveChild(Apply(s, now, ev), c, parent)
    ensures IsRestart(s, ev, c)
  {
    RowCases(s, now, ev, c);
  }

  /** Nothing but a restart makes a child active again, whatever the entries. */
  lemma {:induction false} ReactivationTakesARestart(q: Run, r: Run, parent: int, c: int)
    requires Extends(q, r) && Valid(r) && Honest(r)
    requires c in After(q).rows && !ActiveChild(After(q), c, parent) && ActiveChild(After(r), c, parent)
    ensures Restarts(r, c) > Restarts(q, c)
  {
    if q != r {
      CountsGrow(q, r.prev, c);
      if ActiveChild(After(r.prev), c, parent) {
        ReactivationTakesARestart(q, r.prev, parent, c);
      } else {
        StillThere(q, r, c);
        TableInvariant(r.prev);
        StepReactivates(After(r.prev), r.now, r.ev, parent, c);
      }
    }
  }

  /** A row at both ends of a stretch was there just before the end. */
  lemma StillThere(q: Run, r: Run, c: int)
    requires q != r && Extends(q, r) && Valid(r) && c in After(q).rows && c in After(r).rows
    ensures c in After(r.prev).rows
  {
    ExtendsValid(q, r.prev);
    KnownIds(q, c);
    if c !in After(r.prev).rows {
      IdsAreNeverReused(r.prev, r, c);
    }
  }

  /** From the pause on, a child it found runs only if it has been restarted since. */
  lemma PausedChildNeedsARestart(p: Run, paused: Time, r: Run, parent: int, c: int)
    requires Extends(Then(p, paused, SetEnabled(parent, false)), r) && Valid(r) && Honest(r)
    requires parent in After(p).rows && c in After(p).rows && ActiveChild(After(r), c, parent)
    ensures Restarts(r, c) > Restarts(p, c)
  {
    var start := Then(p, paused, SetEnabled(parent, false));
    ExtendsValid(start, r);
    HonestPrefix(start, r);
    TableInvariant(p);
    PauseStopsEveryChild(After(p), paused, parent, c);
    ReactivationTakesARestart(start, r, parent, c);
  }

  /** From the first resync after a pause on, and until the definition is enabled
      again: no spawn, no new child, and only restarted children run; a child the pause
      found runs only if it has been restarted since the pause. Children that a stale entry
      spawned between the pause and the resync are the exception named. */
  lemma PausedCronStaysQuiet(p: Run, paused: Time, q: Run, r: Run, parent: int, c: int)
    requires Extends(Then(p, paused, SetEnabled(parent, false)), q) && Extends(q, r) && Valid(r) && Honest(r)
    requires parent in After(p).rows
    requires NotReenabled(Then(p, paused, SetEnabled(parent, false)), q, parent) && NotReenabled(q, r, parent)
    requires q.Then? && q.ev.Resync?
    ensures Spawns(r, parent) == Spawns(q, parent)
    ensures c in After(r).rows && After(r).rows[c].parentId == parent ==> c in After(q).rows
    ensures ActiveChild(After(r), c, parent) ==>
              ActiveChild(After(q), c, parent) || Restarts(r, c) > Restarts(q, c)
    ensures c in After(p).rows && ActiveChild(After(r), c, parent) ==>
              Restarts(r, c) > Restarts(p, c)
  {
    var start := Then(p, paused, SetEnabled(parent, false));
    ExtendsValid(q, r);
    ExtendsValid(start, q);
    HonestPrefix(q, r);
    HonestPrefix(start, q);
    TableInvariant(p);
    TableInvariant(q.prev);
    PauseStopsEveryChild(After(p), paused, parent, c);
    StaysDisabled(start, q.prev, parent);
    UnscheduledStaysQuiet(q, r, parent, c);
    ExtendsThrough(start, q, r);
    if c in After(p).rows && ActiveChild(After(r), c, parent) {
      PausedChildNeedsARestart(p, paused, r, parent, c);
    }
  }

  lemma {:induction false} ExtendsThrough(p: Run, q: Run, r: Run)
    requires Extends(p, q) && Extends(q, r)
    ensures Extends(p, r)
  {
    if q != r {
      ExtendsThrough(p, q, r.prev);
    }
  }

  // ---- stopping a definition ------------------------------------------------------

  /** Of everything that can happen, only a stop by hand moves a pending definition. */
  lemma DefinitionMovesIff(s: State, now: Time, ev: Event, id: int)
    requires TableOk(s) && Possible(s, now, ev) && (ev.Report? ==> ev.outcome.workerId != "")
    requires id in s.rows && s.rows[id].kind.Cron? && s.rows[id].status.Pending? && id in Apply(s, now, ev).rows
    ensures !Apply(s, now, ev).rows[id].status.Pending? <==> ev == Stop(id)
  {
    match ev
    case SetEnabled(parent, on) => assert SetEnabledRows(s.rows, parent, on, now)[id].status == s.rows[id].status;
    case Stop(hit) => assert StopRows(s.rows, hit, now)[id].status.Stopped? <==> hit == id;
    case _ => RowCases(s, now, ev, id);
  }

  /** Whether the definition has ever been stopped by hand. */
  predicate EverStopped(r: Run, id: int) {
    r.Then? && (EverStopped(r.prev, id) || (r.ev == Stop(id) && id in After(r.prev).rows))
  }

  /** Whether the row was pending in every state of the run that had it. */
  predicate PendingThroughout(r: Run, id: int) {
    && (id in After(r).rows ==> After(r).rows[id].status.Pending?)
    && (r.Then? ==> PendingThroughout(r.prev, id))
  }

  /** The server takes a definition past pending in the course of a run exactly when
      somebody stops it by hand. */
  lemma {:induction false} DefinitionStaysPendingIff(r: Run, id: int)
    requires Valid(r) && Honest(r) && id in After(r).rows && After(r).rows[id].kind.Cron?
    ensures PendingThroughout(r, id) <==> !EverStopped(r, id)
  {
    TableInvariant(r);
    var p, s := r.prev, After(r.prev);
    TableInvariant(p);
    if id in s.rows {
      KnownIds(p, id);
      RowStaysOk(s, r.now, r.ev, id);
      DefinitionStaysPendingIff(p, id);
      if s.rows[id].status.Pending? {
        DefinitionMovesIff(s, r.now, r.ev, id);
      }
    } else {
      NewRows(s, r.now, r.ev, id);
      NeverThereBefore(p, id);
    }
  }

  lemma {:induction false} NeverThereBefore(r: Run, id: int)
    requires Valid(r) && id >= After(r).nextId
    ensures PendingThroughout(r, id) && !EverStopped(r, id)
  {
    if id in After(r).rows {
      KnownIds(r, id);
      assert false;
    }
    if r.Then? {
      StepMovesForward(After(r.prev), r.now, r.ev);
      NeverThereBefore(r.prev, id);
      if id in After(r.prev).rows {
        KnownIds(r.prev, id);
        assert false;
      }
    }
  }

  /** One stop by hand does it. */
  lemma DefinitionCanBeStopped(d: Draft) returns (r: Run)
    requires d.name != "" && d.command != "" && d.kind.Cron? && d.cronExpr != ""
    ensures Valid(r) && Disciplined(r) && 1 in After(r).rows
    ensures After(r).rows[1].kind.Cron? && After(r).rows[1].status.Stopped? && After(r).rows[1].enabled
  {
    var created := Then(Start, 1, Create(d));
    assert After(created).rows == map[1 := NewRow(FromDraft(d), 1, 1)];
    r := Then(created, 2, Stop(1));
  }

  /** And it does not pause: a stopped definition that is still enabled is scheduled at the
      next resync as before, and goes on spawning pending children. */
  lemma StoppedDefinitionStillSpawns(s: State, now: Time, id: int, valid: set<string>, stamp: string)
    requires TableOk(s) && id in s.rows && Schedulable(s.rows[id]) && s.rows[id].cronExpr in valid
    ensures
      var s' := Apply(Apply(s, now, Stop(id)), now, Resync(valid));
      && s'.rows[id].status.Stopped?
      && Possible(s', now, Spawn(s'.rows[id], stamp))
      && var after := Apply(s', now, Spawn(s'.rows[id], stamp));
         ActiveChild(after, s.nextId, id) && Due(after.rows[s.nextId], now)
  {
    var s' := Apply(Apply(s, now, Stop(id)), now, Resync(valid));
    assert s'.rows[id].status.Stopped? && Schedulable(s'.rows[id]);
    assert s'.rows[id] in s'.entries;
    assert s'.nextId == s.nextId && s'.rows[id].id == id;
  }
}

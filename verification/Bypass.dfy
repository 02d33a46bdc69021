/** Bounded bypass: an overdue task is overtaken only by tasks that were already
    ahead of it, each at most once. */
module Bypass {
  import opened Sets
  import opened Tasks
  import opened Lifecycle
  import opened Protocol
  import opened Ownership
  import opened Conservation

  predicate Overdue(s: State, x: int) {
    x in s.rows && s.rows[x].kind.Once? && s.rows[x].status.Pending? && s.rows[x].nextRunAt < s.clock
  }

  /** The pending tasks scheduled no later than x, x among them. */
  function Ahead(s: State, x: int): set<int>
    requires x in s.rows
  {
    set i | i in s.rows && s.rows[i].kind.Once? && s.rows[i].status.Pending? && s.rows[i].nextRunAt <= s.rows[x].nextRunAt
  }

  function SuccessfulClaims(r: Run): nat {
    if r.Start? then 0 else SuccessfulClaims(r.prev) + Bit(r.ev.Claim? && r.ev.got.Some?)
  }

  function EmptyClaims(r: Run): nat {
    if r.Start? then 0 else EmptyClaims(r.prev) + Bit(r.ev.Claim? && r.ev.got.None?)
  }

  /** Between p and r, x is neither stopped nor deleted. */
  predicate Spared(p: Run, r: Run, x: int)
    requires Extends(p, r)
  {
    p == r || (Spared(p, r.prev, x) && x in After(r).rows && !After(r).rows[x].status.Stopped?)
  }

  lemma StepOnlyShortensTheQueue(s: State, now: Time, ev: Event, x: int)
    requires TableOk(s) && Possible(s, now, ev) && (ev.Report? ==> ev.outcome.workerId != "")
    requires Overdue(s, x) && !IsClaim(ev, x)
    requires x in Apply(s, now, ev).rows && !Apply(s, now, ev).rows[x].status.Stopped?
    ensures Overdue(Apply(s, now, ev), x)
    ensures Apply(s, now, ev).rows[x].nextRunAt == s.rows[x].nextRunAt
    ensures
      Ahead(Apply(s, now, ev), x) <= if ev.Claim? && ev.got.Some? then Ahead(s, x) - {ev.got.value} else Ahead(s, x)
    ensures ev.Claim? ==> ev.got.Some? && ev.got.value in Ahead(s, x)
  {
    RowCases(s, now, ev, x);
    var s' := Apply(s, now, ev);
    forall i | i in Ahead(s', x)
      ensures i in Ahead(s, x)
      ensures ev.Claim? && ev.got.Some? ==> i != ev.got.value
    {
      if i in s.rows {
        RowCases(s, now, ev, i);
      } else {
        NewRows(s, now, ev, i);
      }
    }
    if ev.Claim? {
      assert Due(s.rows[x], now);
    }
  }

  /** While x waits, the queue ahead of it never grows, each successful claim
      shortens it, and no claim comes back empty. */
  lemma {:induction false} QueueNeverGrows(p: Run, r: Run, x: int)
    requires Extends(p, r) && Valid(r) && Honest(r)
    requires Overdue(After(p), x) && Spared(p, r, x) && Claims(r, x) == Claims(p, x)
    ensures Overdue(After(r), x) && After(r).rows[x].nextRunAt == After(p).rows[x].nextRunAt
    ensures Ahead(After(r), x) <= Ahead(After(p), x)
    ensures SuccessfulClaims(r) + |Ahead(After(r), x)| <= SuccessfulClaims(p) + |Ahead(After(p), x)|
    ensures EmptyClaims(r) == EmptyClaims(p)
  {
    if p != r {
      var q, s, s' := r.prev, After(r.prev), After(r);
      CountsGrow(p, q, x);
      QueueNeverGrows(p, q, x);
      TableInvariant(q);
      StepOnlyShortensTheQueue(s, r.now, r.ev, x);
      if r.ev.Claim? {
        assert |Ahead(s, x) - {r.ev.got.value}| == |Ahead(s, x)| - 1;
        SubsetIsNoLarger(Ahead(s', x), Ahead(s, x) - {r.ev.got.value});
      } else {
        SubsetIsNoLarger(Ahead(s', x), Ahead(s, x));
      }
    }
  }

  lemma WaitsAmongThoseAhead(s: State, x: int)
    requires Overdue(s, x)
    ensures |Ahead(s, x)| > 0
  {
    assert x in Ahead(s, x);
  }

  /** An overdue task that is neither stopped nor deleted is claimed within as many
      successful claims as there were tasks ahead of it, itself included. */
  lemma OverdueTaskIsServed(p: Run, r: Run, x: int)
    requires Extends(p, r) && Valid(r) && Honest(r)
    requires Overdue(After(p), x) && Spared(p, r, x)
    requires SuccessfulClaims(r) >= SuccessfulClaims(p) + |Ahead(After(p), x)|
    ensures Claims(r, x) > Claims(p, x)
  {
    CountsGrow(p, r, x);
    if Claims(r, x) == Claims(p, x) {
      QueueNeverGrows(p, r, x);
      WaitsAmongThoseAhead(After(r), x);
    }
  }
}

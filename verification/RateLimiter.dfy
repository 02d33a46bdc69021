/** The per-client token bucket with eviction (internal/server/server.go). Times are
    in minutes; arithmetic is over the reals. */
module RateLimiter {

  datatype Bucket = Bucket(tokens: real, last: real)

  type Buckets = map<string, Bucket>

  /** Tokens that flow in over d minutes. */
  function Flow(d: real, perMin: real): real {
    d * perMin
  }

  /** A bucket after refill, capped. */
  function Refilled(k: Bucket, perMin: real, now: real): real {
    var level := k.tokens + Flow(now - k.last, perMin);
    if level > perMin then perMin else level
  }

  /** Tokens available to a client at an instant. */
  function Level(b: Buckets, perMin: real, key: string, now: real): real {
    if key in b then Refilled(b[key], perMin, now) else perMin
  }

  predicate Grants(b: Buckets, perMin: real, key: string, now: real) {
    Level(b, perMin, key, now) >= 1.0
  }

  function Asked(b: Buckets, perMin: real, key: string, now: real): Buckets {
    var level := Level(b, perMin, key, now);
    b[key := Bucket(if level < 1.0 then level else level - 1.0, now)]
  }

  function Swept(b: Buckets, ttl: real, now: real): Buckets {
    map key | key in b && b[key].last >= now - ttl :: b[key]
  }

  class RateLimiter {
    var tokens: map<string, real>
    var last: map<string, real>
    const perMin: real

    ghost predicate Valid()
      reads this
    {
      tokens.Keys == last.Keys && perMin >= 1.0
    }

    ghost function View(): Buckets
      requires Valid()
      reads this
    {
      map key | key in tokens :: Bucket(tokens[key], last[key])
    }

    constructor (perMin: int)
      requires perMin > 0
      ensures Valid() && View() == map[] && this.perMin == perMin as real
    {
      this.tokens, this.last := map[], map[];
      this.perMin := perMin as real;
    }

    method Allow(key: string, now: real) returns (ok: bool)
      requires Valid()
      modifies this
      ensures Valid()
      ensures ok == Grants(old(View()), perMin, key, now)
      ensures View() == Asked(old(View()), perMin, key, now)
      ensures
        var refilled := if key in old(tokens) then old(tokens)[key] + (now - old(last)[key]) * perMin else perMin;
        var level := if refilled > perMin then perMin else refilled;
        && (ok <==> level >= 1.0)
        && tokens == old(tokens)[key := if ok then level - 1.0 else level] && last == old(last)[key := now]
    {
      var level;
      ghost var refilled := if key in tokens then tokens[key] + (now - last[key]) * perMin else perMin;
      if key !in tokens {
        level := perMin;
      } else {
        var elapsed := now - last[key];
        level := tokens[key] + elapsed * perMin;
        assert level == refilled;
        if level > perMin {
          level := perMin;
        }
      }
      assert level == if refilled > perMin then perMin else refilled;
      assert level == Level(View(), perMin, key, now);
      if level < 1.0 {
        last := last[key := now];
        tokens := tokens[key := level];
        return false;
      }
      level := level - 1.0;
      last := last[key := now];
      tokens := tokens[key := level];
      ok := true;
    }

    method Cleanup(ttl: real, now: real)
      requires Valid()
      modifies this
      ensures Valid()
      ensures View() == Swept(old(View()), ttl, now)
    {
      var cutoff := now - ttl;
      ghost var was := last;
      ghost var wasTokens := tokens;
      var todo := last.Keys;
      while todo != {}
        invariant todo <= was.Keys && tokens.Keys == last.Keys
        invariant forall k :: k in last <==> k in was && (k in todo || was[k] >= cutoff)
        invariant forall k :: k in last ==> last[k] == was[k] && tokens[k] == wasTokens[k]
        decreases todo
      {
        var k :| k in todo;
        if last[k] < cutoff {
          tokens := tokens - {k};
          last := last - {k};
        }
        todo := todo - {k};
      }
    }
  }

  // ---- runs -----------------------------------------------------------------------

  datatype Op = Allow(key: string) | Cleanup(ttl: real)

  datatype Run = Start | Then(prev: Run, now: real, op: Op)

  function After(r: Run, perMin: real): Buckets {
    match r
    case Start => map[]
    case Then(p, now, Allow(key)) => Asked(After(p, perMin), perMin, key, now)
    case Then(p, now, Cleanup(ttl)) => Swept(After(p, perMin), ttl, now)
  }

  /** The same run on a limiter that never evicts. */
  function Kept(r: Run, perMin: real): Buckets {
    match r
    case Start => map[]
    case Then(p, now, Allow(key)) => Asked(Kept(p, perMin), perMin, key, now)
    case Then(p, _, Cleanup(_)) => Kept(p, perMin)
  }

  /** Time does not go back. */
  predicate Timed(r: Run) {
    r.Then? ==> Timed(r.prev) && (r.prev.Then? ==> r.prev.now <= r.now)
  }

  predicate LongTtl(r: Run) {
    r.Then? ==> LongTtl(r.prev) && (r.op.Cleanup? ==> r.op.ttl >= 1.0)
  }

  /** No later question tells the two tables apart. */
  ghost predicate Alike(a: Buckets, b: Buckets, perMin: real, clock: real) {
    forall key, now :: now >= clock ==> Level(a, perMin, key, now) == Level(b, perMin, key, now)
  }

  predicate Sound(b: Buckets, clock: real) {
    forall key :: key in b ==> b[key].tokens >= 0.0 && b[key].last <= clock
  }

  lemma FlowGrows(a: real, b: real, p: real)
    requires a <= b && p >= 0.0
    ensures Flow(a, p) <= Flow(b, p)
  {
    assert b * p - a * p == (b - a) * p >= 0.0;
  }

  lemma FlowIsPositive(a: real, p: real)
    requires a >= 0.0 && p >= 0.0
    ensures Flow(a, p) >= 0.0
  {
  }

  lemma FlowAdds(a: real, b: real, p: real)
    ensures Flow(a, p) + Flow(b, p) == Flow(a + b, p)
  {
  }

  lemma RefilledIsBounded(k: Bucket, perMin: real, now: real)
    requires perMin >= 1.0 && k.tokens >= 0.0 && k.last <= now
    ensures 0.0 <= Refilled(k, perMin, now) <= perMin
  {
    FlowIsPositive(now - k.last, perMin);
  }

  /** A bucket idle for a minute is full. */
  lemma IdleBucketIsFull(k: Bucket, perMin: real, now: real)
    requires perMin >= 1.0 && k.tokens >= 0.0 && now - k.last >= 1.0
    ensures Refilled(k, perMin, now) == perMin
  {
    FlowGrows(1.0, now - k.last, perMin);
  }

  /** Refilling twice is refilling once. */
  lemma RefillComposes(k: Bucket, perMin: real, now: real, later: real)
    requires Refilled(k, perMin, now) < perMin
    ensures Refilled(Bucket(Refilled(k, perMin, now), now), perMin, later) == Refilled(k, perMin, later)
  {
    FlowAdds(now - k.last, later - now, perMin);
  }

  lemma RefillIsSteady(k: Bucket, perMin: real, now: real, later: real)
    requires perMin >= 1.0 && now <= later
    ensures Refilled(k, perMin, later) <= Refilled(k, perMin, now) + Flow(later - now, perMin)
  {
    FlowIsPositive(later - now, perMin);
    FlowAdds(now - k.last, later - now, perMin);
  }

  lemma LevelIsSound(b: Buckets, perMin: real, key: string, clock: real, now: real)
    requires Sound(b, clock) && perMin >= 1.0 && clock <= now
    ensures 0.0 <= Level(b, perMin, key, now) <= perMin
  {
    if key in b {
      RefilledIsBounded(b[key], perMin, now);
    }
  }

  lemma {:induction false} RunIsSound(r: Run, perMin: real, clock: real)
    requires Timed(r) && perMin >= 1.0 && (r.Then? ==> r.now <= clock)
    ensures Sound(After(r, perMin), clock) && Sound(Kept(r, perMin), clock)
  {
    if r.Then? {
      RunIsSound(r.prev, perMin, r.now);
      if r.op.Allow? {
        LevelIsSound(After(r.prev, perMin), perMin, r.op.key, r.now, r.now);
        LevelIsSound(Kept(r.prev, perMin), perMin, r.op.key, r.now, r.now);
      }
    }
  }

  lemma AskingKeepsAlike(a: Buckets, b: Buckets, perMin: real, key: string, clock: real, now: real)
    requires Alike(a, b, perMin, clock) && clock <= now
    ensures Grants(a, perMin, key, now) == Grants(b, perMin, key, now)
    ensures Alike(Asked(a, perMin, key, now), Asked(b, perMin, key, now), perMin, now)
  {
    assert Level(a, perMin, key, now) == Level(b, perMin, key, now);
    forall k, later | later >= now
      ensures Level(Asked(a, perMin, key, now), perMin, k, later) == Level(Asked(b, perMin, key, now), perMin, k, later)
    {
      assert Level(a, perMin, k, later) == Level(b, perMin, k, later);
    }
  }

  /** A bucket idle for a minute has refilled to what a fresh client gets. */
  lemma SweepingIsAlike(b: Buckets, perMin: real, ttl: real, now: real)
    requires Sound(b, now) && perMin >= 1.0 && ttl >= 1.0
    ensures Alike(Swept(b, ttl, now), b, perMin, now)
  {
    forall key, later | later >= now
      ensures Level(Swept(b, ttl, now), perMin, key, later) == Level(b, perMin, key, later)
    {
      if key in b && key !in Swept(b, ttl, now) {
        IdleBucketIsFull(b[key], perMin, later);
      }
    }
  }

  lemma AlikeIsTransitive(a: Buckets, b: Buckets, c: Buckets, perMin: real, clock: real, now: real)
    requires Alike(a, b, perMin, clock) && Alike(b, c, perMin, now) && clock <= now
    ensures Alike(a, c, perMin, now)
  {
    forall key, later | later >= now ensures Level(a, perMin, key, later) == Level(c, perMin, key, later) {
      assert Level(a, perMin, key, later) == Level(b, perMin, key, later);
    }
  }

  /** The answers given to every request so far. */
  function Answers(r: Run, perMin: real): seq<bool> {
    if r.Start? then []
    else Answers(r.prev, perMin) + if r.op.Allow? then [Grants(After(r.prev, perMin), perMin, r.op.key, r.now)] else []
  }

  function KeptAnswers(r: Run, perMin: real): seq<bool> {
    if r.Start? then []
    else KeptAnswers(r.prev, perMin) + if r.op.Allow? then [Grants(Kept(r.prev, perMin), perMin, r.op.key, r.now)] else []
  }

  /** Eviction is invisible: in any run whose cleanups use a ttl of at least a minute,
      every answer is that of a limiter that never evicts, and so is every later one. */
  lemma {:induction false} EvictionIsInvisible(r: Run, perMin: real, clock: real)
    requires Timed(r) && LongTtl(r) && perMin >= 1.0 && (r.Then? ==> r.now <= clock)
    ensures Answers(r, perMin) == KeptAnswers(r, perMin)
    ensures Alike(After(r, perMin), Kept(r, perMin), perMin, clock)
  {
    if r.Then? {
      var p := r.prev;
      EvictionIsInvisible(p, perMin, r.now);
      if r.op.Allow? {
        AskingKeepsAlike(After(p, perMin), Kept(p, perMin), perMin, r.op.key, r.now, r.now);
      } else {
        RunIsSound(p, perMin, r.now);
        SweepingIsAlike(After(p, perMin), perMin, r.op.ttl, r.now);
        AlikeIsTransitive(After(r, perMin), After(p, perMin), Kept(p, perMin), perMin, r.now, r.now);
      }
      AlikeLater(After(r, perMin), Kept(r, perMin), perMin, r.now, clock);
    }
  }

  lemma AlikeLater(a: Buckets, b: Buckets, perMin: real, clock: real, now: real)
    requires Alike(a, b, perMin, clock) && clock <= now
    ensures Alike(a, b, perMin, now)
  {
  }

  /** Rejected requests leave no trace: refilling twice is refilling once. */
  lemma RejectionIsAlike(b: Buckets, perMin: real, key: string, now: real)
    requires perMin >= 1.0 && !Grants(b, perMin, key, now)
    ensures Alike(Asked(b, perMin, key, now), b, perMin, now)
  {
    forall k, later | later >= now
      ensures Level(Asked(b, perMin, key, now), perMin, k, later) == Level(b, perMin, k, later)
    {
      if k == key {
        RefillComposes(b[key], perMin, now, later);
      }
    }
  }

  /** The run with its rejected requests left out. */
  function Accepted(r: Run, perMin: real): Run {
    if r.Start? then r
    else if r.op.Allow? && !Grants(After(r.prev, perMin), perMin, r.op.key, r.now) then Accepted(r.prev, perMin)
    else Then(Accepted(r.prev, perMin), r.now, r.op)
  }

  lemma SweepingKeepsAlike(a: Buckets, b: Buckets, perMin: real, ttl: real, clock: real, now: real)
    requires Alike(a, b, perMin, clock) && clock <= now && Sound(a, now) && Sound(b, now) && perMin >= 1.0 && ttl >= 1.0
    ensures Alike(Swept(a, ttl, now), Swept(b, ttl, now), perMin, now)
  {
    SweepingIsAlike(a, perMin, ttl, now);
    SweepingIsAlike(b, perMin, ttl, now);
    forall key, later | later >= now
      ensures Level(Swept(a, ttl, now), perMin, key, later) == Level(Swept(b, ttl, now), perMin, key, later)
    {
      assert Level(Swept(a, ttl, now), perMin, key, later) == Level(a, perMin, key, later);
      assert Level(Swept(b, ttl, now), perMin, key, later) == Level(b, perMin, key, later);
      assert Level(a, perMin, key, later) == Level(b, perMin, key, later);
    }
  }

  /** Leaving the rejected requests out of a run changes no later answer. */
  lemma {:induction false} RejectionsAreInvisible(r: Run, perMin: real, clock: real)
    requires Timed(r) && LongTtl(r) && perMin >= 1.0 && (r.Then? ==> r.now <= clock)
    ensures Timed(Accepted(r, perMin)) && (Accepted(r, perMin).Then? ==> Accepted(r, perMin).now <= clock)
    ensures Alike(After(r, perMin), After(Accepted(r, perMin), perMin), perMin, clock)
  {
    if r.Then? {
      var p, b := r.prev, After(r.prev, perMin);
      var c := After(Accepted(p, perMin), perMin);
      RejectionsAreInvisible(p, perMin, r.now);
      RunIsSound(p, perMin, r.now);
      RunIsSound(Accepted(p, perMin), perMin, r.now);
      if r.op.Cleanup? {
        SweepingKeepsAlike(b, c, perMin, r.op.ttl, r.now, r.now);
      } else if Grants(b, perMin, r.op.key, r.now) {
        AskingKeepsAlike(b, c, perMin, r.op.key, r.now, r.now);
      } else {
        RejectionIsAlike(b, perMin, r.op.key, r.now);
        AlikeIsTransitive(After(r, perMin), b, c, perMin, r.now, r.now);
      }
      AlikeLater(After(r, perMin), After(Accepted(r, perMin), perMin), perMin, r.now, clock);
    }
  }

  // ---- the window bound --------------------------------------------------------------

  function Granted(r: Run, perMin: real, key: string): nat {
    if r.Start? then 0
    else Granted(r.prev, perMin, key)
         + if r.op == Allow(key) && Grants(After(r.prev, perMin), perMin, key, r.now) then 1 else 0
  }

  /** r continues p with operations no earlier than since. */
  predicate Within(p: Run, r: Run, since: real) {
    p == r || (r.Then? && Within(p, r.prev, since) && r.now >= since)
  }

  lemma LevelRisesSlowly(b: Buckets, perMin: real, key: string, now: real, later: real)
    requires perMin >= 1.0 && now <= later
    ensures Level(b, perMin, key, later) <= Level(b, perMin, key, now) + Flow(later - now, perMin)
  {
    FlowIsPositive(later - now, perMin);
    if key in b {
      RefillIsSteady(b[key], perMin, now, later);
    }
  }

  /** One operation: what is granted comes out of the bucket. */
  lemma OperationDrawsOnTheBucket(b: Buckets, perMin: real, key: string, now: real, op: Op)
    requires perMin >= 1.0 && Sound(b, now) && (op.Cleanup? ==> op.ttl >= 1.0)
    ensures
      var b' := if op.Allow? then Asked(b, perMin, op.key, now) else Swept(b, op.ttl, now);
      Level(b', perMin, key, now) + (if op == Allow(key) && Grants(b, perMin, key, now) then 1.0 else 0.0)
      <= Level(b, perMin, key, now)
  {
    if op.Cleanup? {
      SweepingIsAlike(b, perMin, op.ttl, now);
    } else {
      LevelIsSound(b, perMin, key, now, now);
      var k := Asked(b, perMin, op.key, now)[op.key];
      assert Flow(now - k.last, perMin) == 0.0;
    }
  }

  lemma {:induction false} GrantsDrawOnTheBucket(p: Run, r: Run, perMin: real, key: string, since: real, clock: real)
    requires Within(p, r, since) && Timed(r) && LongTtl(r) && perMin >= 1.0
    requires (p.Then? ==> p.now <= since) && since <= clock && (r.Then? ==> r.now <= clock)
    ensures (Granted(r, perMin, key) - Granted(p, perMin, key)) as real + Level(After(r, perMin), perMin, key, clock)
            <= perMin + Flow(clock - since, perMin)
  {
    if p == r {
      assert Level(After(r, perMin), perMin, key, since) <= perMin by {
        RunIsSound(r, perMin, since);
        LevelIsSound(After(r, perMin), perMin, key, since, since);
      }
      LevelRisesSlowly(After(r, perMin), perMin, key, since, clock);
    } else {
      var q, now := r.prev, r.now;
      var b, b' := After(q, perMin), After(r, perMin);
      var earlier, later := Flow(now - since, perMin), Flow(clock - now, perMin);
      GrantsDrawOnTheBucket(p, q, perMin, key, since, now);
      assert (Granted(q, perMin, key) - Granted(p, perMin, key)) as real + Level(b, perMin, key, now) <= perMin + earlier;
      assert Level(b', perMin, key, now) + (Granted(r, perMin, key) - Granted(q, perMin, key)) as real <= Level(b, perMin, key, now) by {
        RunIsSound(q, perMin, now);
        OperationDrawsOnTheBucket(b, perMin, key, now, r.op);
      }
      assert Level(b', perMin, key, clock) <= Level(b', perMin, key, now) + later by {
        LevelRisesSlowly(b', perMin, key, now, clock);
      }
      FlowAdds(now - since, clock - now, perMin);
    }
  }

  lemma WindowFlow(p: Run, r: Run, perMin: real, key: string, since: real, d: real)
    requires Within(p, r, since) && Timed(r) && LongTtl(r) && perMin >= 1.0 && d >= 0.0
    requires (p.Then? ==> p.now <= since) && (r.Then? ==> r.now <= since + d)
    ensures (Granted(r, perMin, key) - Granted(p, perMin, key)) as real <= Flow(1.0 + d, perMin)
  {
    GrantsDrawOnTheBucket(p, r, perMin, key, since, since + d);
    assert Level(After(r, perMin), perMin, key, since + d) >= 0.0 by {
      RunIsSound(r, perMin, since + d);
      LevelIsSound(After(r, perMin), perMin, key, since + d, since + d);
    }
    assert since + d - since == d;
    FlowAdds(1.0, d, perMin);
  }

  lemma FlowIsProduct(d: real, perMin: real)
    ensures Flow(d, perMin) == perMin * d
  {
  }

  /** In any window of d minutes a client gets at most perMin * (1 + d) grants. */
  lemma WindowBound(p: Run, r: Run, perMin: real, key: string, since: real, d: real)
    requires Within(p, r, since) && Timed(r) && LongTtl(r) && perMin >= 1.0 && d >= 0.0
    requires (p.Then? ==> p.now <= since) && (r.Then? ==> r.now <= since + d)
    ensures (Granted(r, perMin, key) - Granted(p, perMin, key)) as real <= perMin * (1.0 + d)
  {
    WindowFlow(p, r, perMin, key, since, d);
    FlowIsProduct(1.0 + d, perMin);
  }

  // ---- fairness -----------------------------------------------------------------------

  function LastAsked(r: Run, key: string): real
    requires HasAsked(r, key)
  {
    if r.op == Allow(key) then r.now else LastAsked(r.prev, key)
  }

  predicate HasAsked(r: Run, key: string) {
    r.Then? && (r.op == Allow(key) || HasAsked(r.prev, key))
  }

  /** The client leaves at least 1/perMin minutes between its requests. */
  predicate Polite(r: Run, perMin: real, key: string)
    requires perMin > 0.0
  {
    r.Then? ==>
      && Polite(r.prev, perMin, key)
      && (r.op == Allow(key) && HasAsked(r.prev, key) ==> r.now - LastAsked(r.prev, key) >= 1.0 / perMin)
  }

  predicate AllGranted(r: Run, perMin: real, key: string) {
    r.Then? ==> AllGranted(r.prev, perMin, key) && (r.op == Allow(key) ==> Grants(After(r.prev, perMin), perMin, key, r.now))
  }

  lemma Refills(a: real, perMin: real)
    requires perMin >= 1.0 && a >= 1.0 / perMin
    ensures Flow(a, perMin) >= 1.0
  {
    FlowGrows(1.0 / perMin, a, perMin);
  }

  /** A client that spaces its requests is always granted, whatever the others do. */
  lemma {:induction false} PoliteClientsAreServed(r: Run, perMin: real, key: string)
    requires Timed(r) && perMin >= 1.0 && Polite(r, perMin, key)
    ensures AllGranted(r, perMin, key)
    ensures key in After(r, perMin) ==> HasAsked(r, key) && After(r, perMin)[key].last == LastAsked(r, key)
  {
    if r.Then? {
      PoliteClientsAreServed(r.prev, perMin, key);
      var b := After(r.prev, perMin);
      if r.op == Allow(key) && key in b {
        assert b[key].tokens >= 0.0 by {
          RunIsSound(r.prev, perMin, r.now);
        }
        Refills(r.now - b[key].last, perMin);
        assert Refilled(b[key], perMin, r.now) >= 1.0;
      }
    }
  }

  // ---- what a client may count on -------------------------------------------------------

  lemma {:induction false} LastIsRecorded(r: Run, perMin: real, key: string)
    ensures key in After(r, perMin) ==> HasAsked(r, key) && After(r, perMin)[key].last == LastAsked(r, key)
  {
    if r.Then? {
      LastIsRecorded(r.prev, perMin, key);
    }
  }

  /** The client is fresh, or has not asked for a minute. */
  predicate Rested(r: Run, key: string, now: real) {
    HasAsked(r, key) ==> now - LastAsked(r, key) >= 1.0
  }

  lemma RestedIsFull(r: Run, perMin: real, key: string, now: real)
    requires Timed(r) && perMin >= 1.0 && (r.Then? ==> r.now <= now) && Rested(r, key, now)
    ensures Level(After(r, perMin), perMin, key, now) == perMin
  {
    LastIsRecorded(r, perMin, key);
    RunIsSound(r, perMin, now);
    if key in After(r, perMin) {
      IdleBucketIsFull(After(r, perMin)[key], perMin, now);
    }
  }

  lemma LevelDoesNotFall(b: Buckets, perMin: real, key: string, now: real, later: real)
    requires Sound(b, now) && perMin >= 1.0 && now <= later
    ensures Level(b, perMin, key, now) <= Level(b, perMin, key, later)
  {
    if key in b {
      FlowGrows(now - b[key].last, later - b[key].last, perMin);
    }
  }

  /** One operation costs the client at most what it is granted. */
  lemma OperationCostsItsGrant(b: Buckets, perMin: real, key: string, now: real, op: Op)
    requires perMin >= 1.0 && Sound(b, now) && (op.Cleanup? ==> op.ttl >= 1.0)
    ensures
      var b' := if op.Allow? then Asked(b, perMin, op.key, now) else Swept(b, op.ttl, now);
      Level(b', perMin, key, now) + (if op == Allow(key) && Grants(b, perMin, key, now) then 1.0 else 0.0)
      >= Level(b, perMin, key, now)
  {
    if op.Cleanup? {
      SweepingIsAlike(b, perMin, op.ttl, now);
    } else {
      LevelIsSound(b, perMin, key, now, now);
      var k := Asked(b, perMin, op.key, now)[op.key];
      assert Flow(now - k.last, perMin) == 0.0;
    }
  }

  lemma {:induction false} GrantsAreAllThatCosts(p: Run, r: Run, perMin: real, key: string, since: real, now: real)
    requires Within(p, r, since) && Timed(r) && LongTtl(r) && perMin >= 1.0
    requires (p.Then? ==> p.now <= since) && since <= now && (r.Then? ==> r.now <= now)
    requires Level(After(p, perMin), perMin, key, since) == perMin
    ensures Level(After(r, perMin), perMin, key, now) >= perMin - (Granted(r, perMin, key) - Granted(p, perMin, key)) as real
  {
    if p == r {
      RunIsSound(r, perMin, since);
      LevelDoesNotFall(After(r, perMin), perMin, key, since, now);
    } else {
      var q, at := r.prev, r.now;
      GrantsAreAllThatCosts(p, q, perMin, key, since, at);
      RunIsSound(q, perMin, at);
      OperationCostsItsGrant(After(q, perMin), perMin, key, at, r.op);
      RunIsSound(r, perMin, at);
      LevelDoesNotFall(After(r, perMin), perMin, key, at, now);
    }
  }

  /** A grant costs one token and no more. A client that was fresh or idle for a minute when
      the window began is refused only if it has already had more than perMin - 1 grants in
      it: each of its next perMin requests is granted, whenever they come and whatever the
      others do. */
  lemma BurstIsServed(p: Run, r: Run, perMin: real, key: string, since: real, now: real)
    requires Within(p, r, since) && Timed(r) && LongTtl(r) && perMin >= 1.0
    requires (p.Then? ==> p.now <= since) && since <= now && (r.Then? ==> r.now <= now)
    requires Rested(p, key, since)
    ensures Grants(After(r, perMin), perMin, key, now)
            || (Granted(r, perMin, key) - Granted(p, perMin, key)) as real > perMin - 1.0
  {
    ExtendsTimed(p, r, since);
    RestedIsFull(p, perMin, key, since);
    GrantsAreAllThatCosts(p, r, perMin, key, since, now);
  }

  lemma {:induction false} ExtendsTimed(p: Run, r: Run, since: real)
    requires Within(p, r, since) && Timed(r)
    ensures Timed(p)
  {
    if p != r {
      ExtendsTimed(p, r.prev, since);
    }
  }

  // ---- what eviction is for ---------------------------------------------------------------

  predicate SameTtl(r: Run, ttl: real) {
    r.Then? ==> SameTtl(r.prev, ttl) && (r.op.Cleanup? ==> r.op.ttl == ttl)
  }

  lemma {:induction false} RecentClientsAreKept(r: Run, perMin: real, key: string, ttl: real, now: real)
    requires Timed(r) && SameTtl(r, ttl) && (r.Then? ==> r.now <= now)
    requires HasAsked(r, key) && now - LastAsked(r, key) <= ttl
    ensures key in After(r, perMin)
  {
    LastIsRecorded(r.prev, perMin, key);
    if r.op != Allow(key) {
      RecentClientsAreKept(r.prev, perMin, key, ttl, r.now);
    }
  }

  /** After a cleanup the table holds exactly the clients that asked within the ttl. */
  lemma CleanupKeepsRecentClients(r: Run, perMin: real, key: string, ttl: real, now: real)
    requires Timed(r) && SameTtl(r, ttl) && (r.Then? ==> r.now <= now)
    ensures key in After(Then(r, now, Cleanup(ttl)), perMin) <==> HasAsked(r, key) && now - LastAsked(r, key) <= ttl
  {
    LastIsRecorded(r, perMin, key);
    if HasAsked(r, key) && now - LastAsked(r, key) <= ttl {
      RecentClientsAreKept(r, perMin, key, ttl, now);
    }
  }
}

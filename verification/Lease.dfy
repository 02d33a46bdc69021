/** The lease lock that guards cron spawns (internal/lock/memory.go), each call
    taken as atomic. */
module Lease {
  import opened Tasks

  datatype Entry = Entry(token: string, exp: Time)

  type Leases = map<string, Entry>

  /** Free, expired, or already ours. */
  predicate Grants(m: Leases, key: string, token: string, now: Time) {
    key in m ==> now > m[key].exp || m[key].token == token
  }

  function Acquired(m: Leases, key: string, token: string, ttl: Time, now: Time): Leases {
    if Grants(m, key, token, now) then m[key := Entry(token, now + ttl)] else m
  }

  function Released(m: Leases, key: string, token: string): Leases {
    if key in m && m[key].token == token then m - {key} else m
  }

  class MemoryLock {
    var m: Leases

    constructor ()
      ensures m == map[]
    {
      m := map[];
    }

    method Acquire(key: string, token: string, ttl: Time, now: Time) returns (ok: bool)
      modifies this
      ensures ok == Grants(old(m), key, token, now)
      ensures m == Acquired(old(m), key, token, ttl, now)
    {
      if key !in m {
        m := m[key := Entry(token, now + ttl)];
        return true;
      }
      var e := m[key];
      if now > e.exp {
        if e.exp < now {
          m := m[key := Entry(token, now + ttl)];
          return true;
        }
      }
      if e.token == token {
        m := m[key := e.(exp := now + ttl)];
        return true;
      }
      ok := false;
    }

    method Release(key: string, token: string)
      modifies this
      ensures m == Released(old(m), key, token)
    {
      if key !in m {
        return;
      }
      if m[key].token != token {
        return;
      }
      m := m - {key};
    }
  }

  // ---- runs of calls ------------------------------------------------------------

  datatype Call = Acquire(key: string, token: string, ttl: Time) | Release(key: string, token: string)

  datatype Run = Start | Then(prev: Run, now: Time, call: Call)

  function After(r: Run): Leases {
    match r
    case Start => map[]
    case Then(p, now, Acquire(key, token, ttl)) => Acquired(After(p), key, token, ttl, now)
    case Then(p, _, Release(key, token)) => Released(After(p), key, token)
  }

  /** Calls happen in time order. */
  predicate Timed(r: Run) {
    match r
    case Start => true
    case Then(p, now, _) => Timed(p) && (p.Then? ==> p.now <= now)
  }

  /** The end of the lease a token holds on a key by its own doing: the last
      successful Acquire it made and has not released since. */
  function LeaseEnd(r: Run, key: string, token: string): Option<Time> {
    match r
    case Start => None
    case Then(p, now, Acquire(k, t, ttl)) =>
      if k == key && t == token && Grants(After(p), key, token, now) then Some(now + ttl) else LeaseEnd(p, key, token)
    case Then(p, _, Release(k, t)) => if k == key && t == token then None else LeaseEnd(p, key, token)
  }

  /** The lease has not run out at the given instant. */
  predicate HoldsAt(r: Run, key: string, token: string, now: Time) {
    LeaseEnd(r, key, token).Some? && now <= LeaseEnd(r, key, token).value
  }

  /** An unexpired, unreleased lease is what the table says. */
  lemma {:induction false} LeaseIsRecorded(r: Run, key: string, token: string, now: Time)
    requires Timed(r) && (r.Then? ==> r.now <= now)
    requires HoldsAt(r, key, token, now)
    ensures key in After(r) && After(r)[key] == Entry(token, LeaseEnd(r, key, token).value)
  {
    match r
    case Start =>
    case Then(p, at, Acquire(k, t, ttl)) =>
      if !(k == key && t == token && Grants(After(p), key, token, at)) {
        LeaseIsRecorded(p, key, token, at);
      }
    case Then(p, at, Release(k, t)) =>
      LeaseIsRecorded(p, key, token, at);
  }

  /** While a token holds its lease no other token acquires the key or frees it, and
      no two tokens hold it at once. */
  lemma LeaseExcludesOthers(r: Run, key: string, token: string, other: string, ttl: Time, now: Time)
    requires Timed(r) && (r.Then? ==> r.now <= now)
    requires HoldsAt(r, key, token, now) && other != token
    ensures !Grants(After(r), key, other, now)
    ensures HoldsAt(Then(r, now, Acquire(key, other, ttl)), key, token, now)
    ensures HoldsAt(Then(r, now, Release(key, other)), key, token, now)
    ensures Released(After(r), key, other) == After(r)
    ensures !HoldsAt(r, key, other, now)
  {
    LeaseIsRecorded(r, key, token, now);
    if HoldsAt(r, key, other, now) {
      LeaseIsRecorded(r, key, other, now);
    }
  }

  /** The other way round: an unexpired entry of the table is a lease its token holds. */
  lemma {:induction false} EntriesAreLeases(r: Run, key: string, now: Time)
    requires Timed(r) && (r.Then? ==> r.now <= now) && key in After(r) && now <= After(r)[key].exp
    ensures LeaseEnd(r, key, After(r)[key].token) == Some(After(r)[key].exp)
  {
    match r
    case Start =>
    case Then(p, at, Acquire(k, t, ttl)) =>
      if !(k == key && Grants(After(p), key, t, at)) {
        EntriesAreLeases(p, key, at);
      }
    case Then(p, at, Release(k, t)) =>
      EntriesAreLeases(p, key, at);
  }

  /** A token gets the key exactly when no other token holds an unexpired lease on it. */
  lemma GrantedIffNobodyElseHolds(r: Run, key: string, token: string, now: Time)
    requires Timed(r) && (r.Then? ==> r.now <= now)
    ensures Grants(After(r), key, token, now) <==> forall other :: other != token ==> !HoldsAt(r, key, other, now)
  {
    if Grants(After(r), key, token, now) {
      forall other | other != token ensures !HoldsAt(r, key, other, now) {
        if HoldsAt(r, key, other, now) {
          LeaseIsRecorded(r, key, other, now);
        }
      }
    } else {
      EntriesAreLeases(r, key, now);
      assert HoldsAt(r, key, After(r)[key].token, now);
    }
  }

  // ---- spawns under the lock ------------------------------------------------------

  const SPAWN_TTL: Time := 30 * SECOND

  /** The spawns between a successful Acquire and their Release, newest first. */
  datatype Spawn = Spawn(name: string, stamp: string, since: Time)

  datatype Tick = Enter(name: string, stamp: string) | Exit(spawn: Spawn)

  datatype Ticks = Quiet | Tock(prev: Ticks, now: Time, tick: Tick)

  function KeyOf(name: string): string {
    "cron:" + name
  }

  /** The lock calls the spawns make. */
  function Calls(k: Ticks): Run {
    match k
    case Quiet => Start
    case Tock(p, now, Enter(name, stamp)) => Then(Calls(p), now, Acquire(KeyOf(name), stamp, SPAWN_TTL))
    case Tock(p, now, Exit(sp)) => Then(Calls(p), now, Release(KeyOf(sp.name), sp.stamp))
  }

  predicate Enters(k: Ticks, now: Time, name: string, stamp: string) {
    Grants(After(Calls(k)), KeyOf(name), stamp, now)
  }

  function Inside(k: Ticks): set<Spawn> {
    match k
    case Quiet => {}
    case Tock(p, now, Enter(name, stamp)) => if Enters(p, now, name, stamp) then Inside(p) + {Spawn(name, stamp, now)} else Inside(p)
    case Tock(p, _, Exit(sp)) => Inside(p) - {sp}
  }

  /** Time moves on; only spawns inside leave; an entering spawn's stamp is not that of
      a spawn of the same name still inside; and nobody stays beyond the lease. */
  predicate Orderly(k: Ticks) {
    match k
    case Quiet => true
    case Tock(p, now, tick) =>
      && Orderly(p) && (p.Tock? ==> p.now <= now)
      && (tick.Exit? ==> tick.spawn in Inside(p))
      && (tick.Enter? ==> forall sp :: sp in Inside(p) && sp.name == tick.name ==> sp.stamp != tick.stamp)
      && (forall sp :: sp in Inside(p) ==> now <= sp.since + SPAWN_TTL)
  }

  lemma {:induction false} CallsAreTimed(k: Ticks)
    requires Orderly(k)
    ensures Timed(Calls(k)) && (k.Tock? ==> Calls(k).Then? && Calls(k).now == k.now) && (k.Quiet? ==> Calls(k).Start?)
  {
    if k.Tock? {
      CallsAreTimed(k.prev);
    }
  }

  lemma KeysTellNamesApart(a: string, b: string)
    requires KeyOf(a) == KeyOf(b)
    ensures a == b
  {
    assert a == KeyOf(a)[5..] && b == KeyOf(b)[5..];
  }

  /** Each spawn inside still holds the lease it entered with, and no other spawn of
      its name is inside. */
  lemma {:induction false} SpawnsHoldTheirLease(k: Ticks, sp: Spawn)
    requires Orderly(k) && sp in Inside(k)
    ensures k.Tock? && k.now <= sp.since + SPAWN_TTL
    ensures LeaseEnd(Calls(k), KeyOf(sp.name), sp.stamp) == Some(sp.since + SPAWN_TTL)
    ensures forall other :: other in Inside(k) && other.name == sp.name ==> other == sp
  {
    var p := k.prev;
    CallsAreTimed(p);
    forall prior | prior in Inside(p)
      ensures LeaseEnd(Calls(p), KeyOf(prior.name), prior.stamp) == Some(prior.since + SPAWN_TTL)
      ensures forall other :: other in Inside(p) && other.name == prior.name ==> other == prior
      ensures KeyOf(prior.name) in After(Calls(p)) && After(Calls(p))[KeyOf(prior.name)].token == prior.stamp
      ensures After(Calls(p))[KeyOf(prior.name)].exp >= k.now
    {
      SpawnsHoldTheirLease(p, prior);
      LeaseIsRecorded(Calls(p), KeyOf(prior.name), prior.stamp, k.now);
    }
    if k.tick.Enter? {
      forall prior | prior in Inside(p) && KeyOf(prior.name) == KeyOf(k.tick.name) ensures prior.name == k.tick.name {
        KeysTellNamesApart(prior.name, k.tick.name);
      }
    } else {
      forall prior | prior in Inside(p) && KeyOf(prior.name) == KeyOf(k.tick.spawn.name) ensures prior.name == k.tick.spawn.name {
        KeysTellNamesApart(prior.name, k.tick.spawn.name);
      }
    }
  }

  /** At most one spawn of a cron name is in the create section at any time. */
  lemma SpawnsAreExclusive(k: Ticks, a: Spawn, b: Spawn)
    requires Orderly(k) && a in Inside(k) && b in Inside(k) && a.name == b.name
    ensures a == b
  {
    SpawnsHoldTheirLease(k, a);
  }

  /** While a spawn is inside, another one of its name gets in exactly when it carries
      the same stamp, two ticks in one millisecond being one owner to the lock, or when
      the first has outstayed its lease. */
  lemma OverlapEntersIff(k: Ticks, sp: Spawn, now: Time, stamp: string)
    requires Orderly(k) && sp in Inside(k) && k.now <= now
    ensures Enters(k, now, sp.name, stamp) <==> stamp == sp.stamp || now > sp.since + 30 * SECOND
  {
    CallsAreTimed(k);
    SpawnsHoldTheirLease(k, sp);
    LeaseIsRecorded(Calls(k), KeyOf(sp.name), sp.stamp, k.now);
  }
}

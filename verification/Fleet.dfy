/** The server, its workers and the messages between them. Every step of a worker is a
    step of its pool; the server sees claims, arriving reports and lost executions.
    The fleet refines the protocol: its runs project to protocol runs with one report
    per claim. */
module Fleet {
  import opened Tasks
  import opened Lifecycle
  import opened Protocol
  import opened Ownership
  import opened Finality
  import Pool

  /** On its way, whether or not the client still waits: a report, or the answer to a
      pull the worker has given up. */
  datatype Message = Said(outcome: Outcome) | Unheard(token: Token)

  datatype Fleet = Fleet(srv: State, pools: map<string, Pool.State>, mail: seq<Message>)

  datatype Move =
    // Operator: anything the server does by itself or for its users, spawns and resyncs included
    | Operator(ev: Event)
    | Pull(w: string, got: Option<int>)
    // Abandoned: a claim committed for a pull whose client is gone
    | Abandoned(w: string, id: int)
    | ReadStops(w: string, stops: seq<int>)
    | LoseResponse(w: string)
    | Local(w: string, e: Pool.Event)
    // Finish: runTask sends a report with this outcome, or fails to send any
    | Finish(w: string, k: nat, said: Option<(bool, string)>)
    // Arrive, Vanish: a message reaches the server, or never does
    | Arrive(i: nat)
    | Vanish(i: nat)

  datatype Story = Boot(sizes: map<string, int>) | Next(prev: Story, now: Time, m: Move)

  /** Pool steps the server does not see. */
  predicate IsLocal(e: Pool.Event) {
    e.Deliver? || e.Push? || e.Take? || e.Register? || e.Expire? || e.Leave?
  }

  /** Moves that are a step of one pool. */
  predicate AtWorker(m: Move) {
    m.Pull? || m.ReadStops? || m.LoseResponse? || m.Local? || m.Finish?
  }

  function TokenOf(msg: Message): Token {
    match msg
    case Said(o) => Token(o.taskId, o.workerId)
    case Unheard(tok) => tok
  }

  predicate FromOperator(ev: Event) {
    !ev.Claim? && !ev.Report? && !ev.Lose?
  }

  /** The protocol event a move amounts to, if any. */
  function AtServer(f: Fleet, m: Move): Option<Event> {
    match m
    case Operator(ev) => Some(ev)
    case Pull(w, got) => Some(Claim(w, got))
    case Abandoned(w, id) => Some(Claim(w, Some(id)))
    case LoseResponse(w) =>
      if w in f.pools && (f.pools[w].fetcher.Claimed? || f.pools[w].fetcher.Answered?) && f.pools[w].fetcher.got.Some? then
        Some(Lose(Token(f.pools[w].fetcher.got.value.id, w)))
      else
        None
    case Finish(w, k, said) =>
      if said.None? && w in f.pools && k < |f.pools[w].slots| && f.pools[w].slots[k].Executing? then
        Some(Lose(Token(f.pools[w].slots[k].task.id, w)))
      else
        None
    case Arrive(i) => if i < |f.mail| && f.mail[i].Said? then Some(Report(f.mail[i].outcome)) else None
    case Vanish(i) => if i < |f.mail| then Some(Lose(TokenOf(f.mail[i]))) else None
    case _ => None
  }

  function ServerAfter(f: Fleet, now: Time, m: Move): State {
    var ev := AtServer(f, m);
    if ev.Some? then Apply(f.srv, now, ev.value) else f.srv
  }

  function Without(mail: seq<Message>, i: nat): seq<Message> {
    if i < |mail| then mail[..i] + mail[i + 1..] else mail
  }

  function MailAfter(f: Fleet, m: Move): seq<Message> {
    match m
    case Abandoned(w, id) => f.mail + [Unheard(Token(id, w))]
    case Finish(w, k, Some(said)) =>
      if w in f.pools && k < |f.pools[w].slots| && f.pools[w].slots[k].Executing? then
        f.mail + [Said(Outcome(f.pools[w].slots[k].task.id, w, said.0, said.1))]
      else
        f.mail
    case Arrive(i) => Without(f.mail, i)
    case Vanish(i) => Without(f.mail, i)
    case _ => f.mail
  }

  /** The pool step a move amounts to. */
  function AtPool(f: Fleet, now: Time, m: Move): Pool.Event
    requires AtWorker(m)
  {
    match m
    case Pull(w, None) => Pool.Ask(None)
    case Pull(w, Some(id)) =>
      var rows := ServerAfter(f, now, m).rows;
      Pool.Ask(if id in rows then Some(rows[id]) else None)
    case ReadStops(_, stops) => Pool.ReadStops(stops)
    case LoseResponse(_) => Pool.DropResponse
    case Local(_, e) => e
    case Finish(_, k, _) => Pool.Complete(k)
  }

  /** A cancelled execution reports with its cancelled context, so nothing is sent. */
  ghost predicate CanHappen(f: Fleet, now: Time, m: Move) {
    && f.srv.clock <= now
    && (AtWorker(m) ==> m.w in f.pools && Pool.CanDo(f.pools[m.w], AtPool(f, now, m)))
    && match m
       case Operator(ev) => FromOperator(ev) && Possible(f.srv, now, ev)
       case Pull(w, got) => Possible(f.srv, now, Claim(w, got))
       case Abandoned(w, id) => w in f.pools && Possible(f.srv, now, Claim(w, Some(id)))
       case ReadStops(w, stops) => forall id :: id in stops <==> Listed(f.srv.rows, id, w)
       case Local(_, e) => IsLocal(e)
       case Finish(w, k, said) => said.Some? ==> !f.pools[w].slots[k].cancelled
       case Arrive(i) => i < |f.mail| && f.mail[i].Said?
       case Vanish(i) => i < |f.mail|
       case _ => true
  }

  function Happen(f: Fleet, now: Time, m: Move): Fleet {
    var srv := ServerAfter(f, now, m);
    if AtWorker(m) && m.w in f.pools && Pool.CanDo(f.pools[m.w], AtPool(f, now, m)) then
      Fleet(srv, f.pools[m.w := Pool.Do(f.pools[m.w], AtPool(f, now, m))], MailAfter(f, m))
    else
      Fleet(srv, f.pools, MailAfter(f, m))
  }

  function At(y: Story): Fleet {
    match y
    case Boot(sizes) => Fleet(INITIAL, map w | w in sizes :: Pool.NewPool(sizes[w]), [])
    case Next(p, now, m) => Happen(At(p), now, m)
  }

  ghost predicate Told(y: Story) {
    match y
    case Boot(_) => true
    case Next(p, now, m) => Told(p) && CanHappen(At(p), now, m)
  }

  /** The protocol run a story is a refinement of. */
  function Project(y: Story): Run {
    match y
    case Boot(_) => Start
    case Next(p, now, m) =>
      var ev := AtServer(At(p), m);
      if ev.Some? then Then(Project(p), now, ev.value) else Project(p)
  }

  /** What one worker goes through in a story. */
  function PoolRun(y: Story, w: string): Pool.Run
    requires w in At(y).pools
  {
    match y
    case Boot(sizes) => Pool.Begin(sizes[w])
    case Next(p, now, m) =>
      if AtWorker(m) && m.w == w && Pool.CanDo(At(p).pools[w], AtPool(At(p), now, m)) then
        Pool.Step(PoolRun(p, w), AtPool(At(p), now, m))
      else
        PoolRun(p, w)
  }

  /** Every worker of a fleet is a worker as module Pool has it, so what holds of all its
      runs holds here. */
  lemma {:induction false} WorkersRunTheirPools(y: Story, w: string)
    requires w in At(y).pools
    ensures Pool.Valid(PoolRun(y, w)) && Pool.After(PoolRun(y, w)) == At(y).pools[w]
  {
    if y.Next? {
      WorkersRunTheirPools(y.prev, w);
    }
  }

  // ---- the executions a worker has in flight --------------------------------------

  function One(t: Task, id: int): nat {
    if t.id == id then 1 else 0
  }

  function InFetcher(f: Pool.Fetcher, id: int): nat {
    match f
    case Claimed(Some(t)) => One(t, id)
    case Answered(Some(t), _) => One(t, id)
    case Holding(t) => One(t, id)
    case _ => 0
  }

  function InQueue(jobs: seq<Task>, id: int): nat {
    if jobs == [] then 0 else One(jobs[0], id) + InQueue(jobs[1..], id)
  }

  function InSlot(s: Pool.Slot, id: int): nat {
    if s.Taken? || s.Executing? then One(s.task, id) else 0
  }

  function InSlots(slots: seq<Pool.Slot>, id: int): nat {
    if slots == [] then 0 else InSlot(slots[0], id) + InSlots(slots[1..], id)
  }

  /** How many unreported executions of an id the worker has. */
  function InFlight(p: Pool.State, id: int): nat {
    InFetcher(p.fetcher, id) + InQueue(p.jobs, id) + InSlots(p.slots, id)
  }

  lemma {:induction false} QueueAppend(jobs: seq<Task>, t: Task, id: int)
    ensures InQueue(jobs + [t], id) == InQueue(jobs, id) + One(t, id)
  {
    if jobs == [] {
      assert jobs + [t] == [t];
    } else {
      QueueAppend(jobs[1..], t, id);
      assert (jobs + [t])[1..] == jobs[1..] + [t];
    }
  }

  lemma {:induction false} SlotUpdate(slots: seq<Pool.Slot>, k: nat, s: Pool.Slot, id: int)
    requires k < |slots|
    ensures InSlots(slots[k := s], id) + InSlot(slots[k], id) == InSlots(slots, id) + InSlot(s, id)
  {
    if k == 0 {
      assert slots[k := s][1..] == slots[1..];
    } else {
      SlotUpdate(slots[1..], k - 1, s, id);
      assert slots[k := s][1..] == slots[1..][k - 1 := s];
    }
  }

  lemma {:induction false} SameCounts(a: seq<Pool.Slot>, b: seq<Pool.Slot>, id: int)
    requires |a| == |b| && forall k :: 0 <= k < |a| ==> InSlot(a[k], id) == InSlot(b[k], id)
    ensures InSlots(a, id) == InSlots(b, id)
  {
    if a != [] {
      assert InSlot(a[0], id) == InSlot(b[0], id);
      forall k | 0 <= k < |a| - 1 ensures InSlot(a[1..][k], id) == InSlot(b[1..][k], id) {
        assert InSlot(a[k + 1], id) == InSlot(b[k + 1], id);
      }
      SameCounts(a[1..], b[1..], id);
    }
  }

  lemma {:induction false} FreeSlotsHoldNothing(slots: seq<Pool.Slot>, id: int)
    requires forall k :: 0 <= k < |slots| ==> slots[k].Free?
    ensures InSlots(slots, id) == 0
  {
    if slots != [] {
      FreeSlotsHoldNothing(slots[1..], id);
    }
  }

  lemma {:induction false} SlotCounts(slots: seq<Pool.Slot>, k: nat, id: int)
    requires k < |slots|
    ensures InSlot(slots[k], id) <= InSlots(slots, id)
  {
    if k > 0 {
      SlotCounts(slots[1..], k - 1, id);
    }
  }

  lemma {:induction false} TwoSlotsCountTwice(slots: seq<Pool.Slot>, j: nat, k: nat, id: int)
    requires j < k < |slots|
    ensures InSlot(slots[j], id) + InSlot(slots[k], id) <= InSlots(slots, id)
  {
    if j == 0 {
      SlotCounts(slots[1..], k - 1, id);
    } else {
      TwoSlotsCountTwice(slots[1..], j - 1, k - 1, id);
    }
  }

  /** Executions of an id that enter or leave a pool in one step. */
  function Entering(e: Pool.Event, id: int): nat {
    if e.Ask? && e.claimed.Some? then One(e.claimed.value, id) else 0
  }

  function Leaving(p: Pool.State, e: Pool.Event, id: int): nat
    requires Pool.CanDo(p, e)
  {
    match e
    case DropResponse => InFetcher(p.fetcher, id)
    case Complete(k) => One(p.slots[k].task, id)
    case _ => 0
  }

  lemma DeliverMovesNothing(p: Pool.State, id: int)
    requires Pool.ActiveOk(p) && p.fetcher.Answered?
    ensures InFlight(Pool.Do(p, Pool.Deliver), id) == InFlight(p, id)
  {
    Pool.CancelAllEffect(p, p.fetcher.stops);
    SameCounts(p.slots, Pool.CancelAll(p, p.fetcher.stops).slots, id);
  }

  lemma PoolStepMovesExecutions(p: Pool.State, e: Pool.Event, id: int)
    requires Pool.ActiveOk(p) && Pool.CanDo(p, e)
    ensures InFlight(Pool.Do(p, e), id) + Leaving(p, e, id) == InFlight(p, id) + Entering(e, id)
  {
    match e
    case Deliver => DeliverMovesNothing(p, id);
    case Push => QueueAppend(p.jobs, p.fetcher.task, id);
    case Take(k) => SlotUpdate(p.slots, k, Pool.Taken(p.jobs[0]), id);
    case Register(k) => SlotUpdate(p.slots, k, Pool.Executing(p.slots[k].task, false), id);
    case Expire(k) => SlotUpdate(p.slots, k, Pool.Executing(p.slots[k].task, true), id);
    case Complete(k) => SlotUpdate(p.slots, k, Pool.Done(p.slots[k].task), id);
    case Leave(k) => SlotUpdate(p.slots, k, Pool.Free, id);
    case _ =>
  }

  // ---- refinement -----------------------------------------------------------------

  function InPool(f: Fleet, id: int, w: string): nat {
    if w in f.pools then InFlight(f.pools[w], id) else 0
  }

  function Counts(msg: Message, tok: Token): nat {
    if TokenOf(msg) == tok then 1 else 0
  }

  function InMail(mail: seq<Message>, tok: Token): nat {
    if mail == [] then 0 else Counts(mail[0], tok) + InMail(mail[1..], tok)
  }

  /** The executions of an id that a worker has yet to report, or whose report is on its
      way to the server. */
  function HeldBy(f: Fleet, id: int, w: string): nat {
    InPool(f, id, w) + InMail(f.mail, Token(id, w))
  }

  lemma {:induction false} MailAppend(mail: seq<Message>, msg: Message, tok: Token)
    ensures InMail(mail + [msg], tok) == InMail(mail, tok) + Counts(msg, tok)
  {
    if mail == [] {
      assert mail + [msg] == [msg];
    } else {
      MailAppend(mail[1..], msg, tok);
      assert (mail + [msg])[1..] == mail[1..] + [msg];
    }
  }

  lemma {:induction false} MailRemove(mail: seq<Message>, i: nat, tok: Token)
    requires i < |mail|
    ensures InMail(Without(mail, i), tok) + Counts(mail[i], tok) == InMail(mail, tok)
  {
    if i == 0 {
      assert Without(mail, 0) == mail[1..];
    } else {
      MailRemove(mail[1..], i - 1, tok);
      assert Without(mail, i)[1..] == Without(mail[1..], i - 1);
    }
  }

  /** An operator restarts only rows with no execution anywhere; an empty worker_id is
      enough to tell. */
  ghost predicate CarefulMove(f: Fleet, m: Move) {
    m.Operator? && m.ev.Restart? && m.ev.id in f.srv.rows && f.srv.rows[m.ev.id].status.Stopped? ==>
      forall w :: HeldBy(f, m.ev.id, w) == 0
  }

  ghost predicate Careful(y: Story) {
    match y
    case Boot(_) => true
    case Next(p, _, m) => Careful(p) && CarefulMove(At(p), m)
  }

  /** The server's tokens are exactly the executions the pools and the network hold. */
  ghost predicate TokensMatch(f: Fleet) {
    && (forall id, w :: f.srv.tokens[Token(id, w)] == HeldBy(f, id, w))
    && (forall w :: w in f.pools ==> Pool.Sized(f.pools[w]) && Pool.ActiveOk(f.pools[w]))
    && (forall tok :: tok in f.srv.tokens ==> tok.workerId != "")
  }

  lemma BootMatches(sizes: map<string, int>)
    ensures TokensMatch(At(Boot(sizes)))
  {
    var f := At(Boot(sizes));
    forall id, w ensures HeldBy(f, id, w) == 0 {
      if w in f.pools {
        FreeSlotsHoldNothing(f.pools[w].slots, id);
      }
    }
  }

  lemma MessageIsHeld(f: Fleet, i: nat)
    requires TokensMatch(f) && i < |f.mail|
    ensures TokenOf(f.mail[i]) in f.srv.tokens && TokenOf(f.mail[i]).workerId != ""
  {
    var tok := TokenOf(f.mail[i]);
    MailRemove(f.mail, i, tok);
    assert f.srv.tokens[Token(tok.taskId, tok.workerId)] == HeldBy(f, tok.taskId, tok.workerId) > 0;
  }

  /** A move the server sees is possible there, and its reports and losses spend a
      token the worker holds. */
  lemma MoveIsPossible(f: Fleet, now: Time, m: Move)
    requires TokensMatch(f) && CanHappen(f, now, m) && AtServer(f, m).Some?
    ensures
      var ev := AtServer(f, m).value;
      && Possible(f.srv, now, ev)
      && (ev.Report? ==> Token(ev.outcome.taskId, ev.outcome.workerId) in f.srv.tokens && ev.outcome.workerId != "")
  {
    match m
    case Finish(w, k, _) =>
      var p := f.pools[w];
      var id := p.slots[k].task.id;
      SlotCounts(p.slots, k, id);
      assert f.srv.tokens[Token(id, w)] == HeldBy(f, id, w) > 0;
    case LoseResponse(w) =>
      var id := f.pools[w].fetcher.got.value.id;
      assert f.srv.tokens[Token(id, w)] == HeldBy(f, id, w) > 0;
    case Arrive(i) => MessageIsHeld(f, i);
    case Vanish(i) => MessageIsHeld(f, i);
    case _ =>
  }

  ghost function PoolIn(f: Fleet, now: Time, m: Move, id: int, w: string): nat {
    if AtWorker(m) && m.w == w then Entering(AtPool(f, now, m), id) else 0
  }

  ghost function PoolOut(f: Fleet, now: Time, m: Move, id: int, w: string): nat
    requires CanHappen(f, now, m)
  {
    if AtWorker(m) && m.w == w then Leaving(f.pools[w], AtPool(f, now, m), id) else 0
  }

  ghost function MailIn(f: Fleet, now: Time, m: Move, tok: Token): nat
    requires CanHappen(f, now, m)
  {
    match m
    case Abandoned(w, id) => if tok == Token(id, w) then 1 else 0
    case Finish(w, k, Some(_)) => if tok == Token(f.pools[w].slots[k].task.id, w) then 1 else 0
    case _ => 0
  }

  ghost function MailOut(f: Fleet, now: Time, m: Move, tok: Token): nat
    requires CanHappen(f, now, m)
  {
    match m
    case Arrive(i) => Counts(f.mail[i], tok)
    case Vanish(i) => Counts(f.mail[i], tok)
    case _ => 0
  }

  lemma PoolSide(f: Fleet, now: Time, m: Move, id: int, w: string)
    requires TokensMatch(f) && CanHappen(f, now, m)
    ensures InPool(Happen(f, now, m), id, w) + PoolOut(f, now, m, id, w) == InPool(f, id, w) + PoolIn(f, now, m, id, w)
  {
    if AtWorker(m) && m.w == w {
      PoolStepMovesExecutions(f.pools[w], AtPool(f, now, m), id);
    }
  }

  lemma MailSide(f: Fleet, now: Time, m: Move, tok: Token)
    requires CanHappen(f, now, m)
    ensures InMail(MailAfter(f, m), tok) + MailOut(f, now, m, tok) == InMail(f.mail, tok) + MailIn(f, now, m, tok)
  {
    match m
    case Abandoned(w, id) => MailAppend(f.mail, Unheard(Token(id, w)), tok);
    case Finish(w, k, Some(said)) => MailAppend(f.mail, Said(Outcome(f.pools[w].slots[k].task.id, w, said.0, said.1)), tok);
    case Arrive(i) => MailRemove(f.mail, i, tok);
    case Vanish(i) => MailRemove(f.mail, i, tok);
    case _ =>
  }

  /** What an event does to one kind of token. */
  lemma EventMovesTokens(s: State, now: Time, ev: Event, tok: Token)
    requires ev.Lose? ==> ev.token in s.tokens
    requires ev.Report? ==> Token(ev.outcome.taskId, ev.outcome.workerId) in s.tokens
    ensures
      var n, n' := s.tokens[tok], Apply(s, now, ev).tokens[tok];
      if ev.Claim? && ev.got.Some? && tok == Token(ev.got.value, ev.worker) then n' == n + 1
      else if ev.Report? && tok == Token(ev.outcome.taskId, ev.outcome.workerId) then n' + 1 == n
      else if ev.Lose? && tok == ev.token then n' + 1 == n
      else n' == n
  {
    match ev
    case Claim(w, Some(id)) => assert Apply(s, now, ev).tokens == s.tokens + multiset{Token(id, w)};
    case Report(o) => assert Apply(s, now, ev).tokens == s.tokens - multiset{Token(o.taskId, o.workerId)};
    case Lose(lost) => assert Apply(s, now, ev).tokens == s.tokens - multiset{lost};
    case _ => assert Apply(s, now, ev).tokens == s.tokens;
  }

  /** What the pools and the network gain or lose is what the server's tokens do. */
  lemma ServerSide(f: Fleet, now: Time, m: Move, id: int, w: string)
    requires TokensMatch(f) && CanHappen(f, now, m) && TableOk(f.srv)
    ensures
      var tok := Token(id, w);
      ServerAfter(f, now, m).tokens[tok] + PoolOut(f, now, m, id, w) + MailOut(f, now, m, tok)
      == f.srv.tokens[tok] + PoolIn(f, now, m, id, w) + MailIn(f, now, m, tok)
  {
    match m
    case Pull(v, got) =>
      PullGainsItsClaim(f, now, v, got, id);
      EventMovesTokens(f.srv, now, Claim(v, got), Token(id, w));
    case Abandoned(v, i) => EventMovesTokens(f.srv, now, Claim(v, Some(i)), Token(id, w));
    case LoseResponse(_) => EndingSpendsItsToken(f, now, m, id, w);
    case Finish(_, _, None) => EndingSpendsItsToken(f, now, m, id, w);
    case Finish(_, _, Some(_)) =>
    case Arrive(_) => EndingSpendsItsToken(f, now, m, id, w);
    case Vanish(_) => EndingSpendsItsToken(f, now, m, id, w);
    case _ =>
  }

  lemma EndingSpendsItsToken(f: Fleet, now: Time, m: Move, id: int, w: string)
    requires TokensMatch(f) && CanHappen(f, now, m)
    requires m.LoseResponse? || (m.Finish? && m.said.None?) || m.Arrive? || m.Vanish?
    ensures
      var tok := Token(id, w);
      ServerAfter(f, now, m).tokens[tok] + PoolOut(f, now, m, id, w) + MailOut(f, now, m, tok) == f.srv.tokens[tok]
  {
    if AtServer(f, m).Some? {
      MoveIsPossible(f, now, m);
      EventMovesTokens(f.srv, now, AtServer(f, m).value, Token(id, w));
    }
  }

  lemma PullGainsItsClaim(f: Fleet, now: Time, w: string, got: Option<int>, id: int)
    requires TableOk(f.srv) && Possible(f.srv, now, Claim(w, got))
    ensures Entering(AtPool(f, now, Pull(w, got)), id) == if got == Some(id) then 1 else 0
  {
  }

  lemma MoveKeepsTokens(f: Fleet, now: Time, m: Move, id: int, w: string)
    requires TokensMatch(f) && CanHappen(f, now, m) && TableOk(f.srv)
    ensures Happen(f, now, m).srv.tokens[Token(id, w)] == HeldBy(Happen(f, now, m), id, w)
  {
    PoolSide(f, now, m, id, w);
    MailSide(f, now, m, Token(id, w));
    ServerSide(f, now, m, id, w);
    assert f.srv.tokens[Token(id, w)] == HeldBy(f, id, w);
  }

  lemma MoveKeepsMatch(f: Fleet, now: Time, m: Move)
    requires TokensMatch(f) && CanHappen(f, now, m) && TableOk(f.srv)
    ensures TokensMatch(Happen(f, now, m))
  {
    var f' := Happen(f, now, m);
    forall id, w ensures f'.srv.tokens[Token(id, w)] == HeldBy(f', id, w) {
      MoveKeepsTokens(f, now, m, id, w);
    }
    forall w | w in f'.pools ensures Pool.Sized(f'.pools[w]) && Pool.ActiveOk(f'.pools[w]) {
      if AtWorker(m) && w == m.w {
        Pool.StepKeepsShape(f.pools[w], AtPool(f, now, m));
      }
    }
    forall tok | tok in f'.srv.tokens ensures tok.workerId != "" {
      if AtServer(f, m).Some? {
        MoveIsPossible(f, now, m);
        EventMovesTokens(f.srv, now, AtServer(f, m).value, tok);
      }
    }
  }

  lemma MoveKeepsTable(f: Fleet, now: Time, m: Move)
    requires TokensMatch(f) && CanHappen(f, now, m) && TableOk(f.srv)
    ensures TableOk(Happen(f, now, m).srv)
  {
    if AtServer(f, m).Some? {
      MoveIsPossible(f, now, m);
      StepKeepsTable(f.srv, now, AtServer(f, m).value);
    }
  }

  /** The worker side keeps the protocol's discipline by itself: the server's view of
      any story is a valid protocol run with one report per claim, whose tokens are
      exactly the executions the pools hold and the messages on their way. */
  lemma {:induction false} FleetRefinesProtocol(y: Story)
    requires Told(y)
    ensures Valid(Project(y)) && After(Project(y)) == At(y).srv
    ensures OneReportPerClaim(Project(y)) && Honest(Project(y))
    ensures TokensMatch(At(y)) && TableOk(At(y).srv)
  {
    match y
    case Boot(sizes) =>
      BootMatches(sizes);
    case Next(p, now, m) =>
      FleetRefinesProtocol(p);
      MoveKeepsMatch(At(p), now, m);
      MoveKeepsTable(At(p), now, m);
      if AtServer(At(p), m).Some? {
        MoveIsPossible(At(p), now, m);
      }
  }

  lemma CarefulMoveIsAllowed(f: Fleet, now: Time, m: Move)
    requires TokensMatch(f) && CanHappen(f, now, m) && CarefulMove(f, m) && AtServer(f, m).Some?
    ensures Allowed(f.srv, AtServer(f, m).value)
  {
    MoveIsPossible(f, now, m);
    var ev := AtServer(f, m).value;
    if ev.Restart? && ev.id in f.srv.rows && f.srv.rows[ev.id].status.Stopped? {
      forall w ensures Token(ev.id, w) !in f.srv.tokens {
        assert f.srv.tokens[Token(ev.id, w)] == HeldBy(f, ev.id, w) == 0;
      }
    }
  }

  lemma {:induction false} CarefulFleetIsDisciplined(y: Story)
    requires Told(y) && Careful(y)
    ensures Disciplined(Project(y))
  {
    if y.Next? {
      CarefulFleetIsDisciplined(y.prev);
      FleetRefinesProtocol(y.prev);
      if AtServer(At(y.prev), y.m).Some? {
        CarefulMoveIsAllowed(At(y.prev), y.now, y.m);
      }
    }
  }

  /** With careful restarts the run is disciplined, so each task has at most one
      unreported execution across all workers and messages, and its holder owns the row. */
  lemma CarefulExecutionsAreUnique(y: Story, id: int, v: string, w: string)
    requires Told(y) && Careful(y)
    ensures Disciplined(Project(y)) && TokensOk(At(y).srv)
    ensures HeldBy(At(y), id, w) <= 1
    ensures v != w ==> HeldBy(At(y), id, v) == 0 || HeldBy(At(y), id, w) == 0
  {
    FleetRefinesProtocol(y);
    CarefulFleetIsDisciplined(y);
    TokenInvariant(Project(y));
    var s := At(y).srv;
    assert s.tokens[Token(id, w)] == HeldBy(At(y), id, w) && s.tokens[Token(id, v)] == HeldBy(At(y), id, v);
    assert Token(id, v).workerId == v && Token(id, w).workerId == w;
  }

  /** What the operator can see: a row with an empty worker_id may be restarted. */
  lemma DetachedRowsMayBeRestarted(y: Story, id: int)
    requires Told(y) && Careful(y) && id in At(y).srv.rows && At(y).srv.rows[id].workerId == ""
    ensures CarefulMove(At(y), Operator(Restart(id)))
  {
    FleetRefinesProtocol(y);
    CarefulFleetIsDisciplined(y);
    forall w ensures HeldBy(At(y), id, w) == 0 {
      DetachedRowsAreIdle(Project(y), id, w);
      assert At(y).srv.tokens[Token(id, w)] == HeldBy(At(y), id, w);
    }
  }

  predicate Continues(p: Story, y: Story) {
    p == y || (y.Next? && Continues(p, y.prev))
  }

  lemma {:induction false} ToldSoFar(p: Story, y: Story)
    requires Continues(p, y) && Told(y)
    ensures Told(p)
  {
    if p != y {
      ToldSoFar(p, y.prev);
    }
  }

  lemma {:induction false} ProjectExtends(p: Story, y: Story)
    requires Continues(p, y)
    ensures Extends(Project(p), Project(y))
  {
    if p != y {
      ProjectExtends(p, y.prev);
    }
  }

  /** Whatever the workers and the network do, an outcome the server has recorded
      never changes, as long as operators restart only rows with no execution about. */
  lemma FleetOutcomesAreFinal(p: Story, y: Story, id: int)
    requires Continues(p, y) && Told(y) && Careful(y)
    requires id in At(p).srv.rows && Terminal(At(p).srv.rows[id]) && id in At(y).srv.rows
    ensures SameOutcome(At(p).srv.rows[id], At(y).srv.rows[id])
  {
    ToldSoFar(p, y);
    FleetRefinesProtocol(p);
    FleetRefinesProtocol(y);
    CarefulFleetIsDisciplined(y);
    ProjectExtends(p, y);
    OutcomeIsFinal(Project(p), Project(y), id);
  }
}

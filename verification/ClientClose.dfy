/** The close gate, and the pool together with its gates: who closes which client, and how often. */
module ClientClose {
  import opened ClientPool

  /** The thread of the latest attempt: alive from `Calling` until `Finished`. */
  datatype Attempt = NoAttempt | Calling | Returned(ok: bool) | Published | Finished

  datatype Gate = Gate(attempt: Attempt, failed: bool, succeeded: bool)

  const FRESH_GATE := Gate(NoAttempt, false, false)

  predicate Alive(a: Attempt) {
    a.Calling? || a.Returned? || a.Published?
  }

  datatype Decision = MustWait | Done | RaiseError | Started

  /** One locked look of a finishing caller. */
  function Look(g: Gate): (Gate, Decision) {
    if Alive(g.attempt) then (g, MustWait)
    else if g.succeeded then (g, Done)
    else if g.failed then (g.(attempt := NoAttempt, failed := false), RaiseError)
    else (g.(attempt := Calling), Started)
  }

  /** The worker's call of `close` returns or raises. */
  function CloseReturns(g: Gate, ok: bool): Gate
    requires g.attempt.Calling?
  {
    g.(attempt := Returned(ok), succeeded := g.succeeded || ok)
  }

  /** The worker stores its error, if any, under the gate's lock. */
  function PublishOutcome(g: Gate): Gate
    requires g.attempt.Returned?
  {
    g.(attempt := Published, failed := !g.attempt.ok)
  }

  function Exit(g: Gate): Gate
    requires g.attempt.Published?
  {
    g.(attempt := Finished)
  }

  ghost predicate GateInv(g: Gate) {
    && (g.attempt.NoAttempt? || g.attempt.Calling? ==> !g.succeeded && !g.failed)
    && (g.attempt.Returned? ==> g.succeeded == g.attempt.ok && !g.failed)
    && (g.attempt.Published? || g.attempt.Finished? ==> g.failed == !g.succeeded)
  }

  /** The gate after a started attempt whose call of `close` returned or raised. */
  function AfterAttempt(g: Gate, ok: bool): Gate
    requires Look(g).1.Started?
  {
    Exit(PublishOutcome(CloseReturns(Look(g).0, ok)))
  }

  /** A successful attempt is final; a failed one is reported once, and the next look starts another attempt. */
  lemma AttemptCycle(g: Gate, ok: bool)
    requires GateInv(g) && Look(g).1.Started?
    ensures
      var h := AfterAttempt(g, ok);
      && GateInv(h)
      && (ok ==> Look(h) == (h, Done))
      && (!ok ==> Look(h).1.RaiseError? && Look(Look(h).0).1.Started?)
  {
  }

  class CloseGate {
    var attempt: Attempt
    var failed: bool
    var succeeded: bool

    ghost function State(): Gate
      reads this
    {
      Gate(attempt, failed, succeeded)
    }

    constructor ()
      ensures State() == FRESH_GATE && GateInv(State())
    {
      attempt, failed, succeeded := NoAttempt, false, false;
    }

    method LookOnce() returns (decision: Decision)
      requires GateInv(State())
      modifies this
      ensures (State(), decision) == Look(old(State())) && GateInv(State())
      ensures decision.MustWait? <==> old(Alive(attempt))
      ensures decision.Started? <==> !old(Alive(attempt)) && !old(succeeded) && !old(failed)
      ensures decision.RaiseError? <==> !old(Alive(attempt)) && !old(succeeded) && old(failed)
      ensures decision.Done? <==> succeeded && !Alive(attempt)
    {
      if Alive(attempt) {
        return MustWait;
      }
      if succeeded {
        return Done;
      }
      if failed {
        attempt := NoAttempt;
        failed := false;
        return RaiseError;
      }
      attempt := Calling;
      return Started;
    }

    method CloseAttempt(ok: bool)
      requires GateInv(State()) && attempt.Calling?
      modifies this
      ensures State() == CloseReturns(old(State()), ok) && GateInv(State())
    {
      attempt := Returned(ok);
      if ok {
        succeeded := true;
      }
    }

    method StoreError()
      requires GateInv(State()) && attempt.Returned?
      modifies this
      ensures State() == PublishOutcome(old(State())) && GateInv(State())
    {
      failed := !attempt.ok;
      attempt := Published;
    }

    method ThreadExits()
      requires GateInv(State()) && attempt.Published?
      modifies this
      ensures State() == Exit(old(State())) && GateInv(State())
    {
      attempt := Finished;
    }
  }

  // ---------- pool and gates together ----------

  /** `owner` remembers, for every client that was ever to be closed, the token that owes the close, and `owes` is its
      inverse; `closes` counts the successful closes of each client. Gates belong to tokens. */
  datatype System = System(pool: Pool, gates: map<nat, Gate>, owner: map<nat, nat>, owes: map<nat, nat>,
                           closes: map<nat, nat>)

  const START := System(EMPTY_POOL, map[], map[], map[], map[])

  datatype Event =
    | PoolEvent(step: Step)
    | LookEvent(client: nat)
    | ReturnEvent(client: nat, ok: bool)
    | PublishEvent(client: nat)
    | ExitEvent(client: nat)

  function GateOf(s: System, t: nat): Gate {
    if t in s.gates then s.gates[t] else FRESH_GATE
  }

  function ClosesOf(s: System, client: nat): nat {
    if client in s.closes then s.closes[client] else 0
  }

  /** The gate that serializes the closing of `client`. */
  function GateFor(s: System, client: nat): Gate
    requires client in s.owner
  {
    GateOf(s, s.owner[client])
  }

  /** Any thread may act on any close that was ever owed; discharging one needs its gate's word. */
  ghost predicate CanHappen(s: System, e: Event) {
    match e
    case PoolEvent(step) =>
      Enabled(s.pool, step)
      && (step.FinishEndStep? ==>
           step.client in s.owner && s.owner[step.client] == step.token && Look(GateFor(s, step.client)).1.Done?)
    case LookEvent(c) => c in s.owner
    case ReturnEvent(c, _) => c in s.owner && GateFor(s, c).attempt.Calling?
    case PublishEvent(c) => c in s.owner && GateFor(s, c).attempt.Returned?
    case ExitEvent(c) => c in s.owner && GateFor(s, c).attempt.Published?
  }

  ghost predicate Owing(q: Pool, t: nat, client: nat) {
    t in q.refs && q.refs[t] == Record(client, Closing)
  }

  /** The pool moves to `q`. When the pooled client leaves it for a closing token, that token owes its close. */
  ghost function WithPool(s: System, q: Pool): System {
    if s.pool.pooled.Pooled? && exists t :: Owing(q, t, s.pool.pooled.client) then
      var t :| Owing(q, t, s.pool.pooled.client);
      Incurred(s, q, t)
    else s.(pool := q)
  }

  function Incurred(s: System, q: Pool, t: nat): System
    requires s.pool.pooled.Pooled?
  {
    s.(pool := q, owner := s.owner[s.pool.pooled.client := t], owes := s.owes[t := s.pool.pooled.client])
  }

  function WithGate(s: System, client: nat, g: Gate): System
    requires client in s.owner
  {
    s.(gates := s.gates[s.owner[client] := g])
  }

  ghost function Happen(s: System, e: Event): System
    requires CanHappen(s, e)
  {
    match e
    case PoolEvent(step) => WithPool(s, After(s.pool, step))
    case LookEvent(c) => WithGate(s, c, Look(GateFor(s, c)).0)
    case ReturnEvent(c, ok) =>
      var r := WithGate(s, c, CloseReturns(GateFor(s, c), ok));
      if ok then r.(closes := s.closes[c := ClosesOf(s, c) + 1]) else r
    case PublishEvent(c) => WithGate(s, c, PublishOutcome(GateFor(s, c)))
    case ExitEvent(c) => WithGate(s, c, Exit(GateFor(s, c)))
  }

  /** A client is pooled or owed by one token; its close is done exactly when that token's gate says so, and only then
      is it discharged. */
  ghost predicate ClientOk(s: System, c: nat) {
    && (c in s.owner ==>
         var t := s.owner[c];
         && c < s.pool.created && t in s.owes && s.owes[t] == c
         && (if t in s.pool.refs then s.pool.refs[t] == Record(c, Closing) else GateOf(s, t).succeeded)
         && ClosesOf(s, c) == if GateOf(s, t).succeeded then 1 else 0)
    && (c in s.closes ==> c in s.owner)
    && (c < s.pool.created ==> (c in s.owner <==> !(s.pool.pooled.Pooled? && s.pool.pooled.client == c)))
  }

  /** The closing tokens are owing tokens, active ones are not, and only owing tokens have used their gates. */
  ghost predicate TokenOk(s: System, t: nat) {
    && (t in s.pool.refs ==>
         t < s.pool.nextToken
         && (if Active(s.pool.refs[t]) then t !in s.owes else t in s.owes && s.owes[t] == s.pool.refs[t].client))
    && (t in s.owes ==> t < s.pool.nextToken && s.owes[t] in s.owner && s.owner[s.owes[t]] == t)
    && GateInv(GateOf(s, t))
    && (t in s.gates ==> t in s.owes)
  }

  ghost predicate BooksOk(s: System) {
    && (forall c: nat :: ClientOk(s, c))
    && (forall t: nat :: TokenOk(s, t))
    && (s.pool.pooled.Pooled? ==> s.pool.pooled.client < s.pool.created)
  }

  ghost predicate SystemInv(s: System) {
    PoolInv(s.pool) && BooksOk(s)
  }

  /** A region that creates no closing token incurs nothing. */
  lemma NothingIncurred(s: System, q: Pool)
    requires BooksOk(s)
    requires forall t :: t in q.refs && !Active(q.refs[t]) ==> t in s.pool.refs && s.pool.refs[t] == q.refs[t]
    ensures WithPool(s, q) == s.(pool := q)
  {
    if s.pool.pooled.Pooled? {
      assert ClientOk(s, s.pool.pooled.client);
      forall t
        ensures !Owing(q, t, s.pool.pooled.client)
      {
        assert TokenOk(s, t);
      }
    }
  }

  /** Regions that leave the closing tokens and the pooled client alone keep the books. */
  lemma QuietKeeps(s: System, q: Pool)
    requires BooksOk(s) && q.pooled == s.pool.pooled && q.created == s.pool.created && s.pool.nextToken <= q.nextToken
    requires forall t :: t in q.refs && !Active(q.refs[t]) ==> t in s.pool.refs && s.pool.refs[t] == q.refs[t]
    requires forall t :: t in s.pool.refs && !Active(s.pool.refs[t]) ==>
               t in q.refs && q.refs[t] == s.pool.refs[t]
    requires forall t :: t in q.refs && Active(q.refs[t]) ==>
               (t in s.pool.refs && Active(s.pool.refs[t])) || t == s.pool.nextToken < q.nextToken
    ensures BooksOk(WithPool(s, q))
  {
    NothingIncurred(s, q);
    var r := s.(pool := q);
    forall c: nat
      ensures ClientOk(r, c)
    {
      assert ClientOk(s, c);
      if c in s.owner {
        assert TokenOk(s, s.owner[c]);
      }
    }
    forall t: nat
      ensures TokenOk(r, t)
    {
      assert TokenOk(s, t);
    }
  }

  lemma PublishKeeps(s: System, q: Pool)
    requires BooksOk(s) && s.pool.borrower.Creating? && s.pool.pooled.Vacant? && q == Publish(s.pool)
    ensures BooksOk(WithPool(s, q))
  {
    var r := s.(pool := q);
    forall c: nat
      ensures ClientOk(r, c)
    {
      assert ClientOk(s, c);
      if c in s.owner {
        assert TokenOk(s, s.owner[c]);
      }
    }
    forall t: nat
      ensures TokenOk(r, t)
    {
      assert TokenOk(s, t);
    }
  }

  lemma DischargeKeeps(s: System, q: Pool, t: nat, client: nat)
    requires BooksOk(s) && CanHappen(s, PoolEvent(FinishEndStep(t, client))) && q == FinishEnd(s.pool, t, client)
    ensures BooksOk(WithPool(s, q))
  {
    NothingIncurred(s, q);
    var r := s.(pool := q);
    forall c: nat
      ensures ClientOk(r, c)
    {
      assert ClientOk(s, c) && ClientOk(s, client);
    }
    forall u: nat
      ensures TokenOk(r, u)
    {
      assert TokenOk(s, u);
    }
  }

  /** The last active token becomes the one that owes the pooled client's close. */
  lemma IncurKeeps(s: System, q: Pool, gone: set<nat>, last: nat)
    requires BooksOk(s) && s.pool.pooled.Pooled? && last in gone && last in s.pool.refs
    requires forall t :: t in s.pool.refs ==> (Active(s.pool.refs[t]) <==> t in gone)
    requires q == s.pool.(refs := (s.pool.refs - gone)[last := Record(s.pool.pooled.client, Closing)], pooled := Vacant)
    ensures BooksOk(WithPool(s, q))
  {
    var client := s.pool.pooled.client;
    assert Owing(q, last, client);
    forall t | Owing(q, t, client)
      ensures t == last
    {
      assert TokenOk(s, t) && ClientOk(s, client);
    }
    var r := Incurred(s, q, last);
    assert TokenOk(s, last) && ClientOk(s, client);
    forall c: nat
      ensures ClientOk(r, c)
    {
      assert ClientOk(s, c);
      if c in s.owner {
        assert TokenOk(s, s.owner[c]);
      }
    }
    forall t: nat
      ensures TokenOk(r, t)
    {
      assert TokenOk(s, t);
    }
  }

  lemma RetireKeeps(s: System, q: Pool, selected: seq<nat>)
    requires BooksOk(s) && q == ReleaseSelected(s.pool, selected)
    requires forall t :: t in selected ==> t in s.pool.refs && Active(s.pool.refs[t])
    ensures BooksOk(WithPool(s, q))
  {
    if q.pooled == s.pool.pooled {
      QuietKeeps(s, q);
    } else {
      var rest := s.pool.refs - TokenSet(selected);
      forall t | t in s.pool.refs
        ensures Active(s.pool.refs[t]) <==> t in TokenSet(selected)
      {
        assert t in rest ==> !Active(rest[t]);
      }
      assert selected[|selected| - 1] in selected;
      IncurKeeps(s, q, TokenSet(selected), selected[|selected| - 1]);
    }
  }

  /** The tokens selected for release are installed ones. */
  lemma SelectedActive(p: Pool, count: int)
    requires 0 <= count <= |InstalledBelow(p.refs, p.nextToken)|
    ensures forall t :: t in InstalledBelow(p.refs, p.nextToken)[..count] ==> t in p.refs && Active(p.refs[t])
  {
    InstalledBelowFacts(p.refs, p.nextToken);
  }

  lemma ReleaseKeeps(s: System, q: Pool, t: nat)
    requires BooksOk(s) && q == Release(s.pool, t).0
    ensures BooksOk(WithPool(s, q))
  {
    if t in s.pool.refs && Active(s.pool.refs[t]) {
      ReleaseIsSelected(s.pool, t);
      RetireKeeps(s, q, [t]);
    } else {
      QuietKeeps(s, q);
    }
  }

  lemma ReleaseInstalledKeeps(s: System, q: Pool, count: int)
    requires BooksOk(s) && q == ReleaseInstalled(s.pool, count).0
    ensures BooksOk(WithPool(s, q))
  {
    var installed := InstalledBelow(s.pool.refs, s.pool.nextToken);
    if 0 <= count <= |installed| {
      SelectedActive(s.pool, count);
      RetireKeeps(s, q, installed[..count]);
    } else {
      QuietKeeps(s, q);
    }
  }

  lemma PoolEventKeeps(s: System, step: Step)
    requires BooksOk(s) && CanHappen(s, PoolEvent(step))
    requires s.pool.borrower.Creating? ==> s.pool.pooled.Vacant?
    requires forall t :: t in s.pool.refs && s.pool.pooled.Pooled? && !Active(s.pool.refs[t]) ==>
               s.pool.refs[t].client != s.pool.pooled.client
    ensures BooksOk(WithPool(s, After(s.pool, step)))
  {
    var q := After(s.pool, step);
    match step
    case PublishStep => PublishKeeps(s, q);
    case FinishEndStep(t, client) => DischargeKeeps(s, q, t, client);
    case ReleaseStep(t) => ReleaseKeeps(s, q, t);
    case ReleaseInstalledStep(count) => ReleaseInstalledKeeps(s, q, count);
    case _ =>
      assert TokenOk(s, s.pool.nextToken);
      QuietKeeps(s, q);
  }

  /** One gate moves, and with a success the count of its client's closes. */
  lemma GateMoveKeeps(s: System, client: nat, g: Gate, r: System)
    requires BooksOk(s) && client in s.owner && GateInv(g)
    requires GateFor(s, client).succeeded ==> g.succeeded
    requires r == WithGate(s, client, g).(closes := r.closes)
    requires r.closes ==
             if g.succeeded && !GateFor(s, client).succeeded then s.closes[client := ClosesOf(s, client) + 1]
             else s.closes
    ensures BooksOk(r)
  {
    assert ClientOk(s, client);
    forall c: nat
      ensures ClientOk(r, c)
    {
      assert ClientOk(s, c);
    }
    forall t: nat
      ensures TokenOk(r, t)
    {
      assert TokenOk(s, t);
    }
  }

  lemma GateInvOf(s: System, client: nat)
    requires BooksOk(s) && client in s.owner
    ensures GateInv(GateFor(s, client))
  {
    assert TokenOk(s, s.owner[client]);
  }

  lemma EventKeepsInv(s: System, e: Event)
    requires SystemInv(s) && CanHappen(s, e)
    ensures SystemInv(Happen(s, e))
  {
    match e
    case PoolEvent(step) =>
      StepKeepsInv(s.pool, step);
      PoolEventKeeps(s, step);
    case LookEvent(c) =>
      GateInvOf(s, c);
      GateMoveKeeps(s, c, Look(GateFor(s, c)).0, Happen(s, e));
    case ReturnEvent(c, ok) =>
      GateInvOf(s, c);
      GateMoveKeeps(s, c, CloseReturns(GateFor(s, c), ok), Happen(s, e));
    case PublishEvent(c) =>
      GateInvOf(s, c);
      GateMoveKeeps(s, c, PublishOutcome(GateFor(s, c)), Happen(s, e));
    case ExitEvent(c) =>
      GateInvOf(s, c);
      GateMoveKeeps(s, c, Exit(GateFor(s, c)), Happen(s, e));
  }

  /** Any interleaving of safe regions, gate looks and worker steps. */
  ghost predicate IsRun(states: seq<System>, events: seq<Event>) {
    && |states| == |events| + 1 && states[0] == START
    && forall i :: 0 <= i < |events| ==>
         CanHappen(states[i], events[i]) && states[i + 1] == Happen(states[i], events[i])
  }

  lemma {:induction false} RunInv(states: seq<System>, events: seq<Event>, n: nat)
    requires IsRun(states, events) && n < |states|
    ensures SystemInv(states[n])
  {
    if n > 0 {
      RunInv(states, events, n - 1);
      EventKeepsInv(states[n - 1], events[n - 1]);
    }
  }

  /** A client named by a borrowed or installed token has not been closed and no close of it was ever begun; no client
      is closed twice; and no client has two attempts at a time, because one gate serves all its closers. */
  lemma ClosesAreSafe(states: seq<System>, events: seq<Event>, n: nat)
    requires IsRun(states, events) && n < |states|
    ensures
      var s := states[n];
      && (forall c :: ClosesOf(s, c) <= 1)
      && (forall t :: t in s.pool.refs && Active(s.pool.refs[t]) ==>
           s.pool.refs[t].client !in s.owner && ClosesOf(s, s.pool.refs[t].client) == 0)
      && (forall c, d :: c in s.owner && d in s.owner && s.owner[c] == s.owner[d] ==> c == d)
  {
    RunInv(states, events, n);
    var s := states[n];
    forall c: nat
      ensures ClosesOf(s, c) <= 1
    {
      assert ClientOk(s, c);
    }
    forall t | t in s.pool.refs && Active(s.pool.refs[t])
      ensures s.pool.refs[t].client !in s.owner && ClosesOf(s, s.pool.refs[t].client) == 0
    {
      assert ClientOk(s, s.pool.refs[t].client);
    }
    forall c, d | c in s.owner && d in s.owner && s.owner[c] == s.owner[d]
      ensures c == d
    {
      assert ClientOk(s, c) && ClientOk(s, d);
    }
  }

  /** Once no tokens remain, every client that was ever made has been closed exactly once. */
  lemma AllClosedWhenNoTokens(states: seq<System>, events: seq<Event>, n: nat, client: nat)
    requires IsRun(states, events) && n < |states|
    requires states[n].pool.refs == map[] && client < states[n].pool.created
    ensures ClosesOf(states[n], client) == 1
  {
    RunInv(states, events, n);
    assert ClientOk(states[n], client);
  }

  lemma {:induction false} ClosesMonotone(states: seq<System>, events: seq<Event>, i: nat, j: nat, client: nat)
    requires IsRun(states, events) && i <= j < |states|
    ensures ClosesOf(states[i], client) <= ClosesOf(states[j], client)
    decreases j
  {
    if i < j {
      ClosesMonotone(states, events, i, j - 1, client);
      assert states[j] == Happen(states[j - 1], events[j - 1]);
    }
  }

  /** What the handler of a failed factory call does to pool and clients: it closes whatever it drops. */
  function LateHandler(s: System): System
    requires s.pool.failed > 0
  {
    var dropped := s.(pool := Handler(s.pool));
    if s.pool.pooled.Pooled? then
      dropped.(closes := s.closes[s.pool.pooled.client := ClosesOf(s, s.pool.pooled.client) + 1])
    else dropped
  }

  /** Such a handler keeps the books exactly when nothing is pooled; otherwise it closes a client that a borrowed or
      installed token names. */
  lemma LateHandlerExactly(s: System)
    requires SystemInv(s) && s.pool.failed > 0
    ensures SystemInv(LateHandler(s)) <==> s.pool.pooled.Vacant?
    ensures s.pool.pooled.Pooled? ==>
      exists t :: t in s.pool.refs && Active(s.pool.refs[t])
                  && LateHandler(s).pool.refs == s.pool.refs && ClosesOf(LateHandler(s), s.pool.refs[t].client) == 1
  {
    HandlerKeepsInvExactly(s.pool);
    if s.pool.pooled.Vacant? {
      QuietKeeps(s, Handler(s.pool));
    } else {
      var t :| t in s.pool.refs && Active(s.pool.refs[t]);
      assert ClientOk(s, s.pool.refs[t].client);
    }
  }

  /** The steps of a borrower whose factory call fails, and of a second one that pools a client before the handler of
      the first has run. */
  function LateSteps(): seq<Step> {
    [EnterStep(""), InspectStep, AbandonStep, LeaveStep, EnterStep(""), InspectStep, PublishStep]
  }

  /** That state is reached, so the handler closes a borrowed client in an ordinary run. */
  lemma LateHandlerReachable() returns (states: seq<System>, events: seq<Event>)
    ensures IsRun(states, events)
    ensures
      var s := states[|events|];
      && s.pool.failed > 0 && 0 in s.pool.refs && s.pool.refs[0].state.Borrowed?
      && ClosesOf(LateHandler(s), s.pool.refs[0].client) == 1
  {
    var steps := LateSteps();
    events := seq(7, i requires 0 <= i < 7 => PoolEvent(steps[i]));
    var p1 := EMPTY_POOL.(borrower := Entered(""));
    var p2 := Inspect(p1).0;
    var p3 := Abandon(p2);
    var p4 := Leave(p3);
    var p5 := p4.(borrower := Entered(""));
    var p6 := Inspect(p5).0;
    var p7 := Publish(p6);
    states := [START, START.(pool := p1), START.(pool := p2), START.(pool := p3), START.(pool := p4),
               START.(pool := p5), START.(pool := p6), START.(pool := p7)];
  }

  /** Two successful closes in one run, however often closes fail and are retried, are of different clients. */
  lemma SuccessfulClosesDiffer(states: seq<System>, events: seq<Event>, i: nat, j: nat)
    requires IsRun(states, events) && i < j < |events|
    requires events[i].ReturnEvent? && events[i].ok && events[j].ReturnEvent? && events[j].ok
    ensures events[i].client != events[j].client
  {
    RunInv(states, events, j);
    GateInvOf(states[j], events[j].client);
    assert ClientOk(states[j], events[j].client);
    assert states[i + 1] == Happen(states[i], events[i]);
    assert ClosesOf(states[i + 1], events[i].client) >= 1;
    ClosesMonotone(states, events, i + 1, j, events[i].client);
  }
}

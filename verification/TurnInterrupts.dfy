/** Interrupt single-flight in the daemon registry, and the index of turn owners that guards it. */
module TurnInterrupts {
  import opened Options

  const MAX_TURN_CORRELATIONS: nat := 2048
  const CORRELATION_EXPIRY_SECONDS: real := 600.0

  /** What the registry reads of one task: whether it is managed, and its runtime's pending and managed turns. */
  datatype Task = Task(name: string, managed: bool, runtimeKnown: bool,
                       pendingTurn: Option<string>, managedTurn: Option<string>)

  // ---------- the owner index ----------

  /** A managed task with a known runtime has the turns that are pending or managed there. */
  predicate Has(task: Task, turn: string) {
    task.managed && task.runtimeKnown && (task.pendingTurn == Some(turn) || task.managedTurn == Some(turn))
  }

  /** The turns that one task mentions, in the order in which they are read. */
  function Mentions(task: Task): seq<string> {
    if !task.managed || !task.runtimeKnown then []
    else
      (if task.pendingTurn.Some? then [task.pendingTurn.value] else [])
      + (if task.managedTurn.Some? then [task.managedTurn.value] else [])
  }

  /** How often one task mentions `turn`. */
  function Times(task: Task, turn: string): nat {
    multiset(Mentions(task))[turn]
  }

  function TimesOf(tasks: seq<Task>, turn: string): (times: seq<nat>)
    ensures |times| == |tasks|
  {
    seq(|tasks|, k requires 0 <= k < |tasks| => Times(tasks[k], turn))
  }

  function Sum(numbers: seq<nat>): nat {
    if numbers == [] then 0 else Sum(numbers[..|numbers| - 1]) + numbers[|numbers| - 1]
  }

  /** How often `turn` is mentioned by the tasks. */
  function MentionCount(tasks: seq<Task>, turn: string): nat {
    Sum(TimesOf(tasks, turn))
  }

  lemma TimesPositive(task: Task, turn: string)
    ensures Times(task, turn) > 0 <==> turn in Mentions(task)
    ensures turn in Mentions(task) <==> Has(task, turn)
    ensures !(task.pendingTurn.Some? && task.managedTurn.Some?) ==> Times(task, turn) <= 1
  {
  }

  /** The index says who owns a turn: nobody, one task, or no single task. */
  ghost predicate IndexOf(owners: map<string, Option<Task>>, tasks: seq<Task>) {
    forall turn :: IndexedRight(owners, tasks, turn)
  }

  ghost predicate IndexedRight(owners: map<string, Option<Task>>, tasks: seq<Task>, turn: string) {
    && (turn in owners <==> MentionCount(tasks, turn) > 0)
    && (turn in owners ==> (owners[turn].Some? <==> MentionCount(tasks, turn) == 1))
    && (turn in owners && owners[turn].Some? ==> owners[turn].value in tasks && turn in Mentions(owners[turn].value))
  }

  /** `owners` after the mentions `turns` of `task` have been added. */
  function AddMentions(owners: map<string, Option<Task>>, task: Task, turns: seq<string>): map<string, Option<Task>> {
    if turns == [] then owners
    else
      var rest := AddMentions(owners, task, turns[..|turns| - 1]);
      var turn := turns[|turns| - 1];
      rest[turn := if turn !in rest then Some(task) else None]
  }

  lemma {:induction false} AddMentionsEntry(owners: map<string, Option<Task>>, task: Task, turns: seq<string>,
                                            turn: string)
    ensures
      var r := AddMentions(owners, task, turns);
      var added := multiset(turns)[turn];
      if added == 0 then (turn in r <==> turn in owners) && (turn in r ==> r[turn] == owners[turn])
      else turn in r && r[turn] == if turn !in owners && added == 1 then Some(task) else None
  {
    if turns != [] {
      var init := turns[..|turns| - 1];
      assert turns == init + [turns[|turns| - 1]];
      AddMentionsEntry(owners, task, init, turn);
    }
  }

  lemma MentionCountSnoc(tasks: seq<Task>, task: Task, turn: string)
    ensures MentionCount(tasks + [task], turn) == MentionCount(tasks, turn) + Times(task, turn)
  {
    var times := TimesOf(tasks + [task], turn);
    assert times[..|tasks|] == TimesOf(tasks, turn);
  }

  lemma IndexGrowsAt(owners: map<string, Option<Task>>, tasks: seq<Task>, task: Task, turn: string)
    requires IndexedRight(owners, tasks, turn)
    ensures IndexedRight(AddMentions(owners, task, Mentions(task)), tasks + [task], turn)
  {
    AddMentionsEntry(owners, task, Mentions(task), turn);
    MentionCountSnoc(tasks, task, turn);
    TimesPositive(task, turn);
    assert forall t :: t in tasks + [task] <==> t in tasks || t == task;
  }

  lemma IndexGrows(owners: map<string, Option<Task>>, tasks: seq<Task>, task: Task)
    requires IndexOf(owners, tasks)
    ensures IndexOf(AddMentions(owners, task, Mentions(task)), tasks + [task])
  {
    forall turn
      ensures IndexedRight(AddMentions(owners, task, Mentions(task)), tasks + [task], turn)
    {
      assert IndexedRight(owners, tasks, turn);
      IndexGrowsAt(owners, tasks, task, turn);
    }
  }

  /** Enter the mentions of one task: the first mention of a turn owns it, a second one makes it nobody's. */
  method EnterMentions(before: map<string, Option<Task>>, task: Task) returns (owners: map<string, Option<Task>>)
    ensures owners == AddMentions(before, task, Mentions(task))
  {
    owners := before;
    var turns := Mentions(task);
    var j := 0;
    while j < |turns|
      invariant 0 <= j <= |turns|
      invariant owners == AddMentions(before, task, turns[..j])
    {
      var turn := turns[j];
      assert turns[..j + 1][..j] == turns[..j];
      if turn !in owners {
        owners := owners[turn := Some(task)];
      } else {
        owners := owners[turn := None];
      }
      j := j + 1;
    }
    assert turns[..j] == turns;
  }

  /** Rebuild the index from the tasks' runtimes. */
  method BuildOwners(tasks: seq<Task>) returns (owners: map<string, Option<Task>>)
    ensures IndexOf(owners, tasks)
  {
    owners := map[];
    var i := 0;
    while i < |tasks|
      invariant 0 <= i <= |tasks|
      invariant IndexOf(owners, tasks[..i])
    {
      IndexGrows(owners, tasks[..i], tasks[i]);
      assert tasks[..i + 1] == tasks[..i] + [tasks[i]];
      owners := EnterMentions(owners, tasks[i]);
      i := i + 1;
    }
    assert tasks[..i] == tasks;
  }

  lemma {:induction false} SumZero(numbers: seq<nat>)
    ensures Sum(numbers) == 0 <==> forall k :: 0 <= k < |numbers| ==> numbers[k] == 0
  {
    if numbers != [] {
      var init := numbers[..|numbers| - 1];
      SumZero(init);
      assert forall k :: 0 <= k < |init| ==> init[k] == numbers[k];
    }
  }

  /** The turns that some task mentions. */
  function MentionedTurns(tasks: seq<Task>): set<string> {
    set i, turn | 0 <= i < |tasks| && turn in Mentions(tasks[i]) :: turn
  }

  lemma MentionedExactly(tasks: seq<Task>, turn: string)
    ensures turn in MentionedTurns(tasks) <==> MentionCount(tasks, turn) > 0
  {
    var times := TimesOf(tasks, turn);
    SumZero(times);
    forall i | 0 <= i < |tasks|
      ensures times[i] > 0 <==> turn in Mentions(tasks[i])
    {
      TimesPositive(tasks[i], turn);
    }
  }

  /** The index holds exactly the mentioned turns: those that some task has. */
  lemma IndexKeys(owners: map<string, Option<Task>>, tasks: seq<Task>)
    requires IndexOf(owners, tasks)
    ensures owners.Keys == MentionedTurns(tasks)
    ensures forall turn :: turn in owners <==> exists i :: 0 <= i < |tasks| && Has(tasks[i], turn)
  {
    forall i, turn | 0 <= i < |tasks|
      ensures turn in Mentions(tasks[i]) <==> Has(tasks[i], turn)
    {
      TimesPositive(tasks[i], turn);
    }
    forall turn
      ensures turn in owners <==> turn in MentionedTurns(tasks)
    {
      assert IndexedRight(owners, tasks, turn);
      MentionedExactly(tasks, turn);
    }
  }

  /** One number is at most the sum, and makes it up exactly when all others are zero. */
  lemma {:induction false} SumAlone(numbers: seq<nat>, i: nat)
    requires i < |numbers|
    ensures Sum(numbers) >= numbers[i]
    ensures Sum(numbers) == numbers[i] <==> forall k :: 0 <= k < |numbers| && k != i ==> numbers[k] == 0
  {
    var init := numbers[..|numbers| - 1];
    assert forall k :: 0 <= k < |init| ==> init[k] == numbers[k];
    if i == |numbers| - 1 {
      SumZero(init);
    } else {
      SumAlone(init, i);
    }
  }

  /** No task has a turn both pending and managed, which the ownership handshake guarantees. */
  ghost predicate NeverBoth(tasks: seq<Task>) {
    forall k :: 0 <= k < |tasks| ==> !(tasks[k].pendingTurn.Some? && tasks[k].managedTurn.Some?)
  }

  ghost predicate Alone(tasks: seq<Task>, turn: string, i: nat)
    requires i < |tasks|
  {
    Has(tasks[i], turn) && forall k :: 0 <= k < |tasks| && k != i ==> !Has(tasks[k], turn)
  }

  lemma AloneCountsOne(tasks: seq<Task>, turn: string, i: nat)
    requires i < |tasks| && NeverBoth(tasks)
    ensures Alone(tasks, turn, i) <==> MentionCount(tasks, turn) == 1 && Has(tasks[i], turn)
  {
    var times := TimesOf(tasks, turn);
    forall k | 0 <= k < |tasks|
      ensures times[k] <= 1 && (times[k] > 0 <==> Has(tasks[k], turn))
    {
      TimesPositive(tasks[k], turn);
    }
    SumAlone(times, i);
  }

  /** A turn maps to a task exactly when that task alone has it pending or managed. */
  lemma OwnerExactlyAlone(owners: map<string, Option<Task>>, tasks: seq<Task>, turn: string, i: nat)
    requires IndexOf(owners, tasks) && i < |tasks| && NeverBoth(tasks)
    requires forall j, k :: 0 <= j < k < |tasks| ==> tasks[j] != tasks[k]
    ensures turn in owners && owners[turn] == Some(tasks[i]) <==> Alone(tasks, turn, i)
  {
    assert IndexedRight(owners, tasks, turn);
    AloneCountsOne(tasks, turn, i);
    TimesPositive(tasks[i], turn);
    if Alone(tasks, turn, i) {
      var n :| 0 <= n < |tasks| && tasks[n] == owners[turn].value;
      assert n == i;
    }
  }

  // ---------- single flight ----------

  /** Completed interrupts with their times, and the attempts in flight. Attempts are numbered as they are made. */
  datatype Flight = Flight(interrupted: map<string, real>, attempts: map<string, nat>, nextAttempt: nat)

  const NO_FLIGHT := Flight(map[], map[], 0)

  datatype ClaimResult = AlreadyInterrupted | InFlight(attempt: nat) | Claimed(attempt: nat) | AtCapacity

  function Expire(interrupted: map<string, real>, now: real): map<string, real> {
    map turn | turn in interrupted && !(now - interrupted[turn] > CORRELATION_EXPIRY_SECONDS) :: interrupted[turn]
  }

  /** The locked claim of an interrupt attempt. */
  function ClaimAttempt(f: Flight, turn: string, now: real): (Flight, ClaimResult) {
    var g := f.(interrupted := Expire(f.interrupted, now));
    if turn in g.interrupted then (g, AlreadyInterrupted)
    else if turn in g.attempts then (g, InFlight(g.attempts[turn]))
    else if |g.interrupted| + |g.attempts| >= MAX_TURN_CORRELATIONS then (g, AtCapacity)
    else (g.(attempts := g.attempts[turn := g.nextAttempt], nextAttempt := g.nextAttempt + 1), Claimed(g.nextAttempt))
  }

  /** The locked end of an attempt. */
  function FinishAttempt(f: Flight, turn: string, attempt: nat, succeeded: bool, now: real): Flight {
    if turn in f.attempts && f.attempts[turn] == attempt then
      f.(interrupted := if succeeded then f.interrupted[turn := now] else f.interrupted,
         attempts := f.attempts - {turn})
    else f
  }

  ghost predicate FlightInv(f: Flight) {
    && f.interrupted.Keys !! f.attempts.Keys
    && |f.interrupted| + |f.attempts| <= MAX_TURN_CORRELATIONS
    && (forall turn :: turn in f.attempts ==> f.attempts[turn] < f.nextAttempt)
  }

  lemma ExpireShrinks(interrupted: map<string, real>, now: real)
    ensures |Expire(interrupted, now)| <= |interrupted|
    ensures Expire(interrupted, now).Keys <= interrupted.Keys
  {
    SubsetSize(Expire(interrupted, now).Keys, interrupted.Keys);
    assert |Expire(interrupted, now)| == |Expire(interrupted, now).Keys|;
    assert |interrupted| == |interrupted.Keys|;
  }

  lemma SubsetSize(a: set<string>, b: set<string>)
    requires a <= b
    ensures |a| <= |b|
  {
    assert b == a + (b - a);
  }

  /** Completed and in-flight interrupts stay disjoint and within the capacity. */
  lemma ClaimKeepsInv(f: Flight, turn: string, now: real)
    requires FlightInv(f)
    ensures FlightInv(ClaimAttempt(f, turn, now).0)
  {
    ExpireShrinks(f.interrupted, now);
  }

  lemma FinishKeepsInv(f: Flight, turn: string, attempt: nat, succeeded: bool, now: real)
    requires FlightInv(f)
    ensures FlightInv(FinishAttempt(f, turn, attempt, succeeded, now))
  {
    if turn in f.attempts && f.attempts[turn] == attempt {
      assert f.attempts == (f.attempts - {turn})[turn := attempt];
      assert |f.attempts| == |f.attempts - {turn}| + 1;
    }
  }

  datatype Event =
    | ClaimEvent(turn: string, now: real)
    | FinishEvent(turn: string, attempt: nat, succeeded: bool, now: real)
    | DetachAll

  function Happen(f: Flight, e: Event): Flight {
    match e
    case ClaimEvent(turn, now) => ClaimAttempt(f, turn, now).0
    case FinishEvent(turn, attempt, succeeded, now) => FinishAttempt(f, turn, attempt, succeeded, now)
    case DetachAll => f.(interrupted := map[])
  }

  ghost predicate IsRun(states: seq<Flight>, events: seq<Event>) {
    && |states| == |events| + 1 && states[0] == NO_FLIGHT
    && forall i :: 0 <= i < |events| ==> states[i + 1] == Happen(states[i], events[i])
  }

  lemma {:induction false} RunInv(states: seq<Flight>, events: seq<Event>, n: nat)
    requires IsRun(states, events) && n < |states|
    ensures FlightInv(states[n])
  {
    if n > 0 {
      RunInv(states, events, n - 1);
      var f, e := states[n - 1], events[n - 1];
      match e
      case ClaimEvent(turn, now) => ClaimKeepsInv(f, turn, now);
      case FinishEvent(turn, attempt, succeeded, now) => FinishKeepsInv(f, turn, attempt, succeeded, now);
      case DetachAll =>
    }
  }

  predicate ClaimsAt(states: seq<Flight>, events: seq<Event>, i: nat, turn: string)
    requires i < |states| && i < |events|
  {
    events[i].ClaimEvent? && events[i].turn == turn && ClaimAttempt(states[i], turn, events[i].now).1.Claimed?
  }

  predicate Finishes(e: Event, turn: string, attempt: nat) {
    e.FinishEvent? && e.turn == turn && e.attempt == attempt
  }

  lemma {:induction false} AttemptStands(states: seq<Flight>, events: seq<Event>, i: nat, n: nat, turn: string)
    requires IsRun(states, events) && i < n < |states| && ClaimsAt(states, events, i, turn)
    requires forall m :: i < m < n ==> !Finishes(events[m], turn, states[i].nextAttempt)
    ensures turn in states[n].attempts && states[n].attempts[turn] == states[i].nextAttempt
  {
    assert states[n] == Happen(states[n - 1], events[n - 1]);
    if i < n - 1 {
      AttemptStands(states, events, i, n - 1, turn);
    }
  }

  /** Between two claims of one turn the first attempt has finished: at most one request is in flight per turn. */
  lemma ClaimsSeparated(states: seq<Flight>, events: seq<Event>, i: nat, j: nat, turn: string) returns (m: nat)
    requires IsRun(states, events) && i < j < |events|
    requires ClaimsAt(states, events, i, turn) && ClaimsAt(states, events, j, turn)
    ensures i < m < j && Finishes(events[m], turn, states[i].nextAttempt)
  {
    if forall k :: i < k < j ==> !Finishes(events[k], turn, states[i].nextAttempt) {
      AttemptStands(states, events, i, j, turn);
      assert false;
    }
    m :| i < m < j && Finishes(events[m], turn, states[i].nextAttempt);
  }

  ghost predicate ClockMonotone(events: seq<Event>) {
    forall i, j :: 0 <= i < j < |events| && !events[i].DetachAll? && !events[j].DetachAll? ==>
      events[i].now <= events[j].now
  }

  predicate SucceedsAt(states: seq<Flight>, events: seq<Event>, i: nat, turn: string)
    requires i < |states| && i < |events|
  {
    var e := events[i];
    e.FinishEvent? && e.turn == turn && e.succeeded
    && turn in states[i].attempts && states[i].attempts[turn] == e.attempt
  }

  lemma {:induction false} SuccessRemembered(states: seq<Flight>, events: seq<Event>, i: nat, n: nat, turn: string)
    requires IsRun(states, events) && i < n < |states| && SucceedsAt(states, events, i, turn)
    requires forall m :: i < m < n ==> !events[m].DetachAll?
    requires forall m :: i < m < n && events[m].ClaimEvent? ==>
      events[m].now - events[i].now <= CORRELATION_EXPIRY_SECONDS
    requires forall m :: i <= m < n && events[m].FinishEvent? ==> events[m].now >= events[i].now
    ensures turn in states[n].interrupted && states[n].interrupted[turn] >= events[i].now
    ensures turn !in states[n].attempts
  {
    assert states[n] == Happen(states[n - 1], events[n - 1]);
    if i < n - 1 {
      SuccessRemembered(states, events, i, n - 1, turn);
    }
  }

  /** With a monotone clock and until all tasks are detached, no attempt is claimed for a turn within 600 seconds
      after a successful interrupt of it. */
  lemma NoInterruptWithinExpiry(states: seq<Flight>, events: seq<Event>, i: nat, j: nat, turn: string)
    requires IsRun(states, events) && ClockMonotone(events) && i < j < |events|
    requires SucceedsAt(states, events, i, turn) && ClaimsAt(states, events, j, turn)
    requires forall m :: i < m < j ==> !events[m].DetachAll?
    ensures events[j].now - events[i].now > CORRELATION_EXPIRY_SECONDS
  {
    if events[j].now - events[i].now <= CORRELATION_EXPIRY_SECONDS {
      forall m | i <= m < j && events[m].FinishEvent?
        ensures events[m].now >= events[i].now
      {
      }
      forall m | i < m < j && events[m].ClaimEvent?
        ensures events[m].now - events[i].now <= CORRELATION_EXPIRY_SECONDS
      {
        assert events[m].now <= events[j].now;
      }
      SuccessRemembered(states, events, i, j, turn);
      assert false;
    }
  }

  /** An interrupt of the turn succeeded at most 600 seconds before `now`. */
  predicate Recent(f: Flight, turn: string, now: real) {
    turn in f.interrupted && now - f.interrupted[turn] <= CORRELATION_EXPIRY_SECONDS
  }

  /** When each outcome of a claim is returned. Only successes that are still recent count against the capacity. */
  lemma ClaimOutcomes(f: Flight, turn: string, now: real)
    requires FlightInv(f)
    ensures
      var r := ClaimAttempt(f, turn, now).1;
      var recent := set t | t in f.interrupted && Recent(f, t, now);
      && (r == AlreadyInterrupted <==> Recent(f, turn, now))
      && (r.InFlight? <==> turn in f.attempts)
      && (r.InFlight? ==> r.attempt == f.attempts[turn])
      && (r.Claimed? <==>
           !Recent(f, turn, now) && turn !in f.attempts && |recent| + |f.attempts| < MAX_TURN_CORRELATIONS)
  {
    var recent := set t | t in f.interrupted && Recent(f, t, now);
    assert Expire(f.interrupted, now).Keys == recent;
    assert |Expire(f.interrupted, now)| == |Expire(f.interrupted, now).Keys|;
  }

  /** A failed attempt frees its turn: nothing is remembered of it, and the next claim succeeds at any time. */
  lemma FailedAttemptRetries(f: Flight, turn: string, attempt: nat, now: real, later: real)
    requires FlightInv(f) && turn in f.attempts && f.attempts[turn] == attempt
    ensures
      var g := FinishAttempt(f, turn, attempt, false, now);
      && g == f.(attempts := f.attempts - {turn}) && ClaimAttempt(g, turn, later).1.Claimed?
  {
    var g := FinishAttempt(f, turn, attempt, false, now);
    assert f.attempts == g.attempts[turn := attempt];
    assert |f.attempts| == |g.attempts| + 1;
    ExpireShrinks(g.interrupted, later);
  }

  /** A successful attempt is remembered with its time; an end that is not of the turn's own attempt changes nothing. */
  lemma SuccessRecorded(f: Flight, turn: string, attempt: nat, now: real)
    ensures
      FinishAttempt(f, turn, attempt, true, now) ==
      if turn in f.attempts && f.attempts[turn] == attempt then
        f.(interrupted := f.interrupted[turn := now], attempts := f.attempts - {turn})
      else f
  {
  }

  /** Detaching all tasks forgets the successes, and with them the expiry window: a claim right after it succeeds
      exactly when the turn is not in flight and the capacity is not reached. */
  lemma ClaimAfterDetach(f: Flight, turn: string, now: real)
    ensures
      var claim := ClaimAttempt(Happen(f, DetachAll), turn, now).1;
      claim.Claimed? <==> turn !in f.attempts && |f.attempts| < MAX_TURN_CORRELATIONS
  {
    var g := Happen(f, DetachAll);
    assert Expire(g.interrupted, now) == map[];
  }

  // ---------- the registry ----------

  datatype InterruptStart = Owned(owner: Option<Task>) | Settled | Wait(attempt: nat) | Send(attempt: nat) | Overflow

  lemma OwnerCounts(owners: map<string, Option<Task>>, tasks: seq<Task>, turn: string)
    requires IndexOf(owners, tasks) && turn in owners
    ensures MentionCount(tasks, turn) > 0 && (owners[turn].Some? <==> MentionCount(tasks, turn) == 1)
  {
    assert IndexedRight(owners, tasks, turn);
  }

  function StartFor(claim: ClaimResult): InterruptStart {
    match claim
    case AlreadyInterrupted => Settled
    case InFlight(attempt) => Wait(attempt)
    case AtCapacity => Overflow
    case Claimed(attempt) => Send(attempt)
  }

  class InterruptRegistry {
    var tasks: seq<Task>
    var turnOwners: map<string, Option<Task>>
    var interruptedTurns: map<string, real>
    var interruptAttempts: map<string, nat>
    var nextAttempt: nat

    ghost function State(): Flight
      reads this
    {
      Flight(interruptedTurns, interruptAttempts, nextAttempt)
    }

    constructor (tasks: seq<Task>)
      ensures State() == NO_FLIGHT && turnOwners == map[] && this.tasks == tasks
    {
      this.tasks := tasks;
      turnOwners, interruptedTurns, interruptAttempts, nextAttempt := map[], map[], map[], 0;
    }

    /** Rebuild the index; a too large one is rejected and the old one stays. */
    method RefreshTurnOwners() returns (ok: bool)
      modifies this`turnOwners
      ensures ok <==> |MentionedTurns(tasks)| <= MAX_TURN_CORRELATIONS
      ensures ok ==> IndexOf(turnOwners, tasks) && turnOwners.Keys == MentionedTurns(tasks)
      ensures !ok ==> turnOwners == old(turnOwners)
    {
      var owners := BuildOwners(tasks);
      IndexKeys(owners, tasks);
      assert |owners| == |owners.Keys|;
      if |owners| > MAX_TURN_CORRELATIONS {
        return false;
      }
      turnOwners := owners;
      return true;
    }

    method ClaimInterruptAttempt(turn: string, now: real) returns (result: ClaimResult)
      requires FlightInv(State())
      modifies this`interruptedTurns, this`interruptAttempts, this`nextAttempt
      ensures (State(), result) == ClaimAttempt(old(State()), turn, now) && FlightInv(State())
    {
      ClaimKeepsInv(State(), turn, now);
      interruptedTurns := Expire(interruptedTurns, now);
      if turn in interruptedTurns {
        return AlreadyInterrupted;
      }
      if turn in interruptAttempts {
        return InFlight(interruptAttempts[turn]);
      }
      if |interruptedTurns| + |interruptAttempts| >= MAX_TURN_CORRELATIONS {
        return AtCapacity;
      }
      var attempt := nextAttempt;
      nextAttempt := nextAttempt + 1;
      interruptAttempts := interruptAttempts[turn := attempt];
      return Claimed(attempt);
    }

    /** The locked region before an interrupt is sent: no attempt is claimed for a turn that any task still owns. */
    method BeginInterrupt(turn: string, now: real) returns (start: InterruptStart)
      requires FlightInv(State())
      modifies this
      ensures tasks == old(tasks) && FlightInv(State())
      ensures
        if |MentionedTurns(tasks)| > MAX_TURN_CORRELATIONS then start.Overflow? && State() == old(State())
        else if turn in MentionedTurns(tasks) then start.Owned? && State() == old(State())
        else
          (State(), start) == var (claimed, claim) := ClaimAttempt(old(State()), turn, now); (claimed, StartFor(claim))
      ensures start.Send? ==> turn in interruptAttempts && interruptAttempts[turn] == start.attempt
      ensures start.Owned? ==> MentionCount(tasks, turn) > 0 && (start.owner.Some? <==> MentionCount(tasks, turn) == 1)
    {
      var ok := RefreshTurnOwners();
      if !ok {
        return Overflow;
      }
      if turn in turnOwners {
        OwnerCounts(turnOwners, tasks, turn);
        return Owned(turnOwners[turn]);
      }
      start := StartUnowned(turn, now);
    }

    /** What follows when no task mentions the turn. */
    method StartUnowned(turn: string, now: real) returns (start: InterruptStart)
      requires FlightInv(State())
      modifies this`interruptedTurns, this`interruptAttempts, this`nextAttempt
      ensures FlightInv(State())
      ensures
        var (claimed, claim) := ClaimAttempt(old(State()), turn, now);
        State() == claimed && start == StartFor(claim)
      ensures !start.Owned?
      ensures start.Send? ==> turn in interruptAttempts && interruptAttempts[turn] == start.attempt
    {
      var result := ClaimInterruptAttempt(turn, now);
      return StartFor(result);
    }

    method EndInterrupt(turn: string, attempt: nat, succeeded: bool, now: real)
      requires FlightInv(State())
      modifies this`interruptedTurns, this`interruptAttempts
      ensures State() == FinishAttempt(old(State()), turn, attempt, succeeded, now) && FlightInv(State())
    {
      FinishKeepsInv(State(), turn, attempt, succeeded, now);
      if turn in interruptAttempts && interruptAttempts[turn] == attempt {
        if succeeded {
          interruptedTurns := interruptedTurns[turn := now];
        }
        interruptAttempts := interruptAttempts - {turn};
      }
    }

    /** Forget the tasks, their turns and the successful interrupts; attempts in flight stay. */
    method Detach() returns (detached: seq<Task>)
      requires FlightInv(State())
      modifies this`tasks, this`turnOwners, this`interruptedTurns
      ensures detached == old(tasks) && tasks == [] && turnOwners == map[]
      ensures State() == Happen(old(State()), DetachAll) && FlightInv(State())
    {
      detached := tasks;
      tasks := [];
      turnOwners := map[];
      interruptedTurns := map[];
    }
  }
}

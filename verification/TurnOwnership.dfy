/** The turn-ownership handshake: every mutator of one runtime record, and what all of them keep. */
module TurnOwnership {
  import opened Options

  /** Times are whole microseconds. */
  const RESTART_CLAIM_TTL: int := 60_000_000

  datatype RestartRequest = RestartRequest(requestId: string, turnId: string, targetId: Option<string>,
                                           targetGeneration: nat, progressEpoch: nat, turnActivityEpoch: nat)

  datatype Monitor = Monitor(targetId: Option<string>, generation: nat, progressEpoch: nat, terminal: bool)

  /** The handshake's own entries. */
  datatype Turn = Turn(pending: Option<string>, timedOutAt: Option<real>, managed: Option<string>,
                       request: Option<RestartRequest>, claimed: bool, claimedAt: Option<int>, restartCount: nat)

  datatype Manager = Manager(ready: bool, pid: Option<int>, error: Option<string>)

  datatype Shutdown = Shutdown(requested: bool, interrupt: bool)

  datatype Watch = Watch(parentTurn: Option<string>, parentComplete: bool, parent: Option<Monitor>,
                         children: seq<Monitor>, activityEpoch: nat)

  /** The entries of the persisted document that the mutators read or write, grouped by purpose. */
  datatype Values = Values(enabled: bool, managedMode: bool, goalCompanion: bool, handoffRequested: bool,
                           turn: Turn, manager: Manager, shutdown: Shutdown, watch: Watch, revision: nat)

  /** A mutation saves new values, leaves the document alone, or raises and leaves it alone. */
  datatype Outcome = Saved(values: Values) | Kept | Failed(reason: string)

  /** What the document holds after a mutation of `v`. */
  function Document(v: Values, o: Outcome): Values {
    if o.Saved? then o.values else v
  }

  function Bump(v: Values): Values {
    v.(revision := v.revision + 1)
  }

  predicate Managed(v: Values) {
    v.enabled && v.managedMode
  }

  const NOT_MANAGED := Failed("managed_mode_not_enabled")
  const HANDOFF_CHANGED := Failed("handoff_state_changed")

  function MarkManagerReady(v: Values, pid: int): Outcome {
    if pid < 1 then Failed("manager_pid_invalid")
    else if !Managed(v) then NOT_MANAGED
    else Saved(Bump(v.(manager := Manager(true, Some(pid), None))))
  }

  function MarkManagerStopped(v: Values): Outcome {
    Saved(Bump(v.(manager := Manager(false, None, v.manager.error))))
  }

  function RecordManagerFailure(v: Values, reason: string): Outcome {
    Saved(Bump(v.(manager := Manager(false, None, Some(reason)))))
  }

  function RequestStartupCancel(v: Values): Outcome {
    if !Managed(v) then NOT_MANAGED
    else if v.manager.ready then Kept
    else Saved(Bump(v.(shutdown := Shutdown(true, false), handoffRequested := false)))
  }

  /** The watcher's parent monitor follows the turn: a new turn gets a fresh monitor of the next generation. */
  function StartManagedParent(w: Watch, turnId: string): Watch {
    var monitor :=
      if w.parent.None? then Some(Monitor(None, 1, 0, false))
      else if w.parentTurn != Some(turnId) then
        Some(Monitor(None, if w.parent.value.generation > 0 then w.parent.value.generation + 1 else 2, 0, false))
      else w.parent;
    w.(parent := monitor, parentTurn := Some(turnId), parentComplete := false)
  }

  function DropRequest(t: Turn): Turn {
    t.(request := None, claimed := false, claimedAt := None)
  }

  function RecordTurnStarted(v: Values, turnId: string): Outcome {
    if turnId == "" then Failed("managed_turn_id_missing")
    else if !Managed(v) then NOT_MANAGED
    else if !v.handoffRequested || v.turn.managed.Some? then HANDOFF_CHANGED
    else if v.turn.pending.Some? && v.turn.pending.value != turnId then HANDOFF_CHANGED
    else
      Saved(Bump(v.(turn := DropRequest(v.turn.(pending := None, timedOutAt := None, managed := Some(turnId))),
                    watch := StartManagedParent(v.watch, turnId), handoffRequested := false)))
  }

  function RecordPendingTurn(v: Values, turnId: string): Outcome {
    if turnId == "" then Failed("managed_turn_id_missing")
    else if !Managed(v) then NOT_MANAGED
    else if !v.handoffRequested || v.turn.managed.Some? || v.turn.pending.Some? then HANDOFF_CHANGED
    else Saved(Bump(v.(turn := v.turn.(pending := Some(turnId), timedOutAt := None))))
  }

  function MarkPendingTimedOut(v: Values, turnId: string, at: real): Outcome {
    if at < 0.0 then HANDOFF_CHANGED
    else if !Managed(v) then NOT_MANAGED
    else if v.turn.pending != Some(turnId) then HANDOFF_CHANGED
    else Saved(Bump(v.(turn := v.turn.(timedOutAt := Some(at)))))
  }

  function ClearPendingTurn(v: Values, turnId: string): Outcome {
    if v.turn.pending != Some(turnId) then Kept
    else Saved(Bump(v.(turn := v.turn.(pending := None, timedOutAt := None))))
  }

  function FinishTurn(v: Values): Values {
    Bump(v.(turn := DropRequest(v.turn.(pending := None, timedOutAt := None, managed := None)),
            handoffRequested := true))
  }

  function RecordTurnFinished(v: Values, turnId: string): Outcome {
    if v.turn.managed != Some(turnId) then Failed("completed_turn_not_owned") else Saved(FinishTurn(v))
  }

  predicate ClaimIsCurrent(claimedAt: int, now: int) {
    0 <= now - claimedAt <= RESTART_CLAIM_TTL
  }

  function RecordRestartPerformed(v: Values, turnId: string, now: int): Outcome {
    if v.turn.request.None? || v.turn.request.value.turnId != turnId then Failed("restart_request_changed")
    else if v.turn.managed != Some(turnId) then Failed("restart_turn_not_owned")
    else if !v.turn.claimed then Failed("restart_request_not_claimed")
    else if v.turn.claimedAt.None? || !ClaimIsCurrent(v.turn.claimedAt.value, now) then
      Failed("interrupt_claim_expired")
    else Saved(FinishTurn(v.(turn := v.turn.(restartCount := v.turn.restartCount + 1))))
  }

  // ---------- the restart guard ----------

  function Targets(w: Watch): seq<Monitor> {
    (if w.parent.Some? then [w.parent.value] else []) + w.children
  }

  predicate OwnershipMatches(v: Values, r: RestartRequest) {
    && v.managedMode && v.manager.ready
    && v.turn.managed == Some(r.turnId) && v.watch.parentTurn == Some(r.turnId)
    && v.watch.activityEpoch == r.turnActivityEpoch
    && exists m :: m in Targets(v.watch) && m.targetId == r.targetId
         && m.generation == r.targetGeneration && m.progressEpoch == r.progressEpoch && !m.terminal
  }

  predicate RequestedMonitorExists(v: Values, r: RestartRequest) {
    exists m :: m in Targets(v.watch) && m.targetId == r.targetId && m.generation == r.targetGeneration
  }

  /** What the rollout shows: whether a cursor had been saved, and whether the turn has been active since. */
  datatype Rollout = Rollout(cursorKnown: bool, turnActive: bool)

  /** Whether the request that the manager loaded still stands with matching ownership and no sign of activity. */
  predicate EvidenceFresh(v: Values, loaded: RestartRequest, rollout: Rollout) {
    v.turn.request == Some(loaded) && OwnershipMatches(v, loaded) && rollout.cursorKnown
    && RequestedMonitorExists(v, loaded) && !rollout.turnActive
  }

  /** The freshness test clears the request when it is still the loaded one but stale. */
  function AfterFreshnessTest(v: Values, loaded: RestartRequest, rollout: Rollout): Values {
    if v.turn.request != Some(loaded) || EvidenceFresh(v, loaded, rollout) then v
    else Bump(v.(turn := DropRequest(v.turn)))
  }

  function ClaimRestart(v: Values, loaded: RestartRequest, rollout: Rollout, now: int): Outcome {
    if v.turn.claimed then Kept
    else if !EvidenceFresh(v, loaded, rollout) then Saved(AfterFreshnessTest(v, loaded, rollout))
    else Saved(Bump(v.(turn := v.turn.(claimed := true, claimedAt := Some(now)))))
  }

  function RevalidateRestart(v: Values, loaded: RestartRequest, rollout: Rollout): Outcome {
    Saved(AfterFreshnessTest(v, loaded, rollout))
  }

  function ClearRestart(v: Values, loaded: RestartRequest): Outcome {
    if v.turn.request == Some(loaded) then Saved(Bump(v.(turn := DropRequest(v.turn)))) else Kept
  }

  datatype ClaimState = Matched | Unclaimed | Expired | Mismatch

  function ClassifyClaim(v: Values, turnId: string, now: int): ClaimState {
    if !v.turn.claimed then Unclaimed
    else if v.turn.request.None? || v.turn.request.value.turnId != turnId || v.turn.claimedAt.None? then Mismatch
    else if !ClaimIsCurrent(v.turn.claimedAt.value, now) then Expired
    else Matched
  }

  // ---------- the activation fence, shutdown and the hooks ----------

  function BindActivation(v: Values, turnId: string): Outcome {
    Saved(Bump(v.(watch := StartManagedParent(v.watch, turnId))))
  }

  function EndParent(w: Watch): Watch {
    w.(parent := if w.parent.Some? then Some(w.parent.value.(terminal := true)) else None, parentComplete := false)
  }

  function CompleteActivation(v: Values, turnId: string): Outcome {
    if v.watch.parentTurn != Some(turnId) || v.turn.managed.Some? then Failed("activation_turn_ownership_changed")
    else if v.watch.parent.None? then Failed("invalid_value")
    else Saved(Bump(v.(watch := EndParent(v.watch), handoffRequested := true)))
  }

  function AdoptStarted(v: Values, turnId: string): Outcome {
    if !v.enabled || !v.managedMode || v.goalCompanion || v.shutdown.requested || !v.handoffRequested
       || v.turn.managed.Some? || v.turn.pending.Some? then Kept
    else
      var started := StartManagedParent(v.watch, turnId);
      Saved(Bump(v.(watch := started.(activityEpoch := started.activityEpoch + 1), handoffRequested := false)))
  }

  function DeferShutdown(v: Values, interruptActive: bool): Outcome {
    if !v.managedMode || !v.manager.ready || v.turn.managed.None? then Kept
    else
      Saved(Bump(v.(shutdown := Shutdown(true, interruptActive), turn := DropRequest(v.turn),
                    handoffRequested := false)))
  }

  /** A Stop hook on a managed session: it asks for a handoff without looking at ownership. */
  function StopHook(v: Values): Outcome {
    if !v.managedMode then Kept
    else
      var ended := seq(|v.watch.children|,
                       i requires 0 <= i < |v.watch.children| => v.watch.children[i].(terminal := true));
      Saved(v.(handoffRequested := !v.shutdown.requested, watch := EndParent(v.watch).(children := ended)))
  }

  /** The watcher, as an environment: it may replace the request only while it is unclaimed. */
  function WatcherRequests(v: Values, request: Option<RestartRequest>): Outcome {
    if v.turn.claimed then Kept else Saved(v.(turn := v.turn.(request := request)))
  }

  /** Other hooks and the watcher also move monitors and the activity epoch. */
  function WatcherObserves(v: Values, watch: Watch): Outcome {
    Saved(v.(watch := watch))
  }

  /** The mutators that write the handshake's own entries. */
  datatype TurnMutator =
    | TurnStarted(turnId: string)
    | PendingTurn(turnId: string)
    | PendingTimedOut(turnId: string, at: real)
    | PendingCleared(turnId: string)
    | TurnFinished(turnId: string)
    | RestartPerformed(turnId: string, now: int)

  /** The mutators that write the restart request. */
  datatype GuardMutator =
    | Claim(loaded: RestartRequest, rollout: Rollout, now: int)
    | Revalidate(loaded: RestartRequest, rollout: Rollout)
    | Clear(loaded: RestartRequest)
    | Defer(interruptActive: bool)
    | WatcherRequest(request: Option<RestartRequest>)

  /** The mutators that write neither. */
  datatype SideMutator =
    | Ready(pid: int)
    | Stopped
    | ManagerFailed(reason: string)
    | StartupCancel
    | Bind(turnId: string)
    | Complete(turnId: string)
    | Adopt(turnId: string)
    | Stop
    | WatcherObserve(watch: Watch)

  datatype Mutator = Turns(turns: TurnMutator) | Guard(guard: GuardMutator) | Side(side: SideMutator)

  function MutateTurn(v: Values, m: TurnMutator): Outcome {
    match m
    case TurnStarted(turnId) => RecordTurnStarted(v, turnId)
    case PendingTurn(turnId) => RecordPendingTurn(v, turnId)
    case PendingTimedOut(turnId, at) => MarkPendingTimedOut(v, turnId, at)
    case PendingCleared(turnId) => ClearPendingTurn(v, turnId)
    case TurnFinished(turnId) => RecordTurnFinished(v, turnId)
    case RestartPerformed(turnId, now) => RecordRestartPerformed(v, turnId, now)
  }

  function MutateGuard(v: Values, m: GuardMutator): Outcome {
    match m
    case Claim(loaded, rollout, now) => ClaimRestart(v, loaded, rollout, now)
    case Revalidate(loaded, rollout) => RevalidateRestart(v, loaded, rollout)
    case Clear(loaded) => ClearRestart(v, loaded)
    case Defer(interruptActive) => DeferShutdown(v, interruptActive)
    case WatcherRequest(request) => WatcherRequests(v, request)
  }

  function MutateSide(v: Values, m: SideMutator): Outcome {
    match m
    case Ready(pid) => MarkManagerReady(v, pid)
    case Stopped => MarkManagerStopped(v)
    case ManagerFailed(reason) => RecordManagerFailure(v, reason)
    case StartupCancel => RequestStartupCancel(v)
    case Bind(turnId) => BindActivation(v, turnId)
    case Complete(turnId) => CompleteActivation(v, turnId)
    case Adopt(turnId) => AdoptStarted(v, turnId)
    case Stop => StopHook(v)
    case WatcherObserve(watch) => WatcherObserves(v, watch)
  }

  function Mutate(v: Values, m: Mutator): Outcome {
    match m
    case Turns(t) => MutateTurn(v, t)
    case Guard(g) => MutateGuard(v, g)
    case Side(s) => MutateSide(v, s)
  }

  // ---------- what every mutator keeps ----------

  /** A pending and a managed turn are never both set; a timeout stamp needs a pending turn; a claim is stamped and
      names the currently managed turn. */
  ghost predicate Owned(t: Turn) {
    && !(t.pending.Some? && t.managed.Some?)
    && (t.timedOutAt.Some? ==> t.pending.Some?)
    && (t.claimed ==> t.request.Some? && t.managed == Some(t.request.value.turnId))
    && (t.claimed <==> t.claimedAt.Some?)
  }

  predicate Performs(v: Values, m: Mutator) {
    m.Turns? && m.turns.RestartPerformed? && RecordRestartPerformed(v, m.turns.turnId, m.turns.now).Saved?
  }

  predicate Claims(v: Values, m: Mutator) {
    m.Guard? && m.guard.Claim? && !v.turn.claimed && EvidenceFresh(v, m.guard.loaded, m.guard.rollout)
  }

  /** What one mutation `m` of `v` to `w` does to ownership, to the restart count and to a standing claim. */
  ghost predicate Sound(v: Values, m: Mutator, w: Values) {
    && (Owned(v.turn) ==> Owned(w.turn))
    && w.turn.restartCount == v.turn.restartCount + (if Performs(v, m) then 1 else 0)
    && (Owned(v.turn) && Performs(v, m) ==> v.turn.claimed && !w.turn.claimed)
    && (Owned(v.turn) && w.turn.claimed && v.turn.claimed ==>
         w.turn.request == v.turn.request && w.turn.claimedAt == v.turn.claimedAt && !Claims(v, m))
    && (w.turn.claimed && !v.turn.claimed ==>
         Claims(v, m) && w.turn.request == Some(m.guard.loaded) && w.turn.claimedAt == Some(m.guard.now))
  }

  lemma TurnMutatorsSound(v: Values, m: TurnMutator)
    ensures Sound(v, Turns(m), Document(v, MutateTurn(v, m)))
  {
  }

  lemma GuardMutatorsSound(v: Values, m: GuardMutator)
    ensures Sound(v, Guard(m), Document(v, MutateGuard(v, m)))
  {
  }

  lemma SideMutatorsLeaveTurn(v: Values, m: SideMutator)
    ensures Document(v, MutateSide(v, m)).turn == v.turn
  {
  }

  /** Every mutator keeps ownership; the count rises by one with each performed restart and with nothing else. */
  lemma MutatorsSound(v: Values, m: Mutator)
    ensures Sound(v, m, Document(v, Mutate(v, m)))
  {
    match m
    case Turns(t) => TurnMutatorsSound(v, t);
    case Guard(g) => GuardMutatorsSound(v, g);
    case Side(s) => SideMutatorsLeaveTurn(v, s);
  }

  ghost predicate Initial(v: Values) {
    v.turn == Turn(None, None, None, None, false, None, 0)
  }

  /** Any mutators, in any order, from a freshly enabled session. */
  ghost predicate IsRun(states: seq<Values>, muts: seq<Mutator>) {
    && |states| == |muts| + 1 && Initial(states[0])
    && forall i :: 0 <= i < |muts| ==> states[i + 1] == Document(states[i], Mutate(states[i], muts[i]))
  }

  ghost predicate IsSoundRun(states: seq<Values>, muts: seq<Mutator>) {
    && |states| == |muts| + 1 && Initial(states[0])
    && forall i :: 0 <= i < |muts| ==> Sound(states[i], muts[i], states[i + 1])
  }

  lemma RunsSound(states: seq<Values>, muts: seq<Mutator>)
    requires IsRun(states, muts)
    ensures IsSoundRun(states, muts)
  {
    forall i | 0 <= i < |muts|
      ensures Sound(states[i], muts[i], states[i + 1])
    {
      MutatorsSound(states[i], muts[i]);
    }
  }

  lemma {:induction false} SoundRunOwned(states: seq<Values>, muts: seq<Mutator>, n: nat)
    requires IsSoundRun(states, muts) && n < |states|
    ensures Owned(states[n].turn)
  {
    if n > 0 {
      SoundRunOwned(states, muts, n - 1);
      assert Sound(states[n - 1], muts[n - 1], states[n]);
    }
  }

  /** Ownership holds in every record that any run reaches. */
  lemma OwnedAlways(states: seq<Values>, muts: seq<Mutator>, n: nat)
    requires IsRun(states, muts) && n < |states|
    ensures Owned(states[n].turn)
  {
    RunsSound(states, muts);
    SoundRunOwned(states, muts, n);
  }

  /** The freshness test never falls through to the second monitor search: matching ownership has found it already. */
  lemma OwnershipFindsMonitor(v: Values, r: RestartRequest)
    requires OwnershipMatches(v, r)
    ensures RequestedMonitorExists(v, r)
  {
    var m :| m in Targets(v.watch) && m.targetId == r.targetId
      && m.generation == r.targetGeneration && m.progressEpoch == r.progressEpoch && !m.terminal;
    assert m in Targets(v.watch);
  }

  /** On reachable records a restart is recorded exactly when the claim classifies as matched. */
  lemma PerformsExactlyWhenMatched(states: seq<Values>, muts: seq<Mutator>, n: nat, turnId: string, now: int)
    requires IsRun(states, muts) && n < |states|
    ensures RecordRestartPerformed(states[n], turnId, now).Saved? <==> ClassifyClaim(states[n], turnId, now) == Matched
  {
    OwnedAlways(states, muts, n);
  }

  /** How every claim classifies. */
  lemma ClassifyExactly(v: Values, turnId: string, now: int)
    requires Owned(v.turn)
    ensures ClassifyClaim(v, turnId, now) == Unclaimed <==> !v.turn.claimed
    ensures ClassifyClaim(v, turnId, now) == Mismatch <==> v.turn.claimed && v.turn.managed != Some(turnId)
    ensures ClassifyClaim(v, turnId, now) == Expired <==>
      v.turn.claimed && v.turn.managed == Some(turnId)
      && !(0 <= now - v.turn.claimedAt.value <= RESTART_CLAIM_TTL)
  {
  }

  function Performed(states: seq<Values>, muts: seq<Mutator>, n: nat): nat
    requires n <= |muts| && n <= |states|
  {
    if n == 0 then 0 else Performed(states, muts, n - 1) + if Performs(states[n - 1], muts[n - 1]) then 1 else 0
  }

  function Claimed(states: seq<Values>, muts: seq<Mutator>, n: nat): nat
    requires n <= |muts| && n <= |states|
  {
    if n == 0 then 0 else Claimed(states, muts, n - 1) + if Claims(states[n - 1], muts[n - 1]) then 1 else 0
  }

  lemma {:induction false} SoundRunCounts(states: seq<Values>, muts: seq<Mutator>, n: nat)
    requires IsSoundRun(states, muts) && n < |states|
    ensures states[n].turn.restartCount == Performed(states, muts, n)
    ensures states[n].turn.restartCount + (if states[n].turn.claimed then 1 else 0) <= Claimed(states, muts, n)
  {
    if n > 0 {
      SoundRunCounts(states, muts, n - 1);
      SoundRunOwned(states, muts, n - 1);
      assert Sound(states[n - 1], muts[n - 1], states[n]);
    }
  }

  /** The count is the number of performed restarts, and no claim is performed twice: restarts, together with a claim
      that still stands, never outnumber the claims. */
  lemma CountIsPerformed(states: seq<Values>, muts: seq<Mutator>, n: nat)
    requires IsRun(states, muts) && n < |states|
    ensures states[n].turn.restartCount == Performed(states, muts, n)
    ensures states[n].turn.restartCount + (if states[n].turn.claimed then 1 else 0) <= Claimed(states, muts, n)
  {
    RunsSound(states, muts);
    SoundRunCounts(states, muts, n);
  }

  /** A standing claim goes back to one successful claim of the same request, and no restart was recorded since. */
  lemma {:induction false} ClaimOrigin(states: seq<Values>, muts: seq<Mutator>, n: nat) returns (i: nat)
    requires IsSoundRun(states, muts) && n < |states| && states[n].turn.claimed
    ensures i < n && Claims(states[i], muts[i])
    ensures states[n].turn.request == Some(muts[i].guard.loaded) && states[n].turn.claimedAt == Some(muts[i].guard.now)
    ensures forall k :: i < k < n ==> !Performs(states[k], muts[k]) && !Claims(states[k], muts[k])
  {
    assert n > 0;
    SoundRunOwned(states, muts, n - 1);
    assert Sound(states[n - 1], muts[n - 1], states[n]);
    if states[n - 1].turn.claimed {
      i := ClaimOrigin(states, muts, n - 1);
    } else {
      i := n - 1;
    }
  }

  /** Every performed restart answers its own claim of the managed turn, made at most 60 seconds before. */
  lemma RestartAnswersClaim(states: seq<Values>, muts: seq<Mutator>, j: nat) returns (i: nat)
    requires IsRun(states, muts) && j < |muts| && Performs(states[j], muts[j])
    ensures i < j && Claims(states[i], muts[i])
    ensures muts[i].guard.loaded.turnId == muts[j].turns.turnId
    ensures states[j].turn.managed == Some(muts[j].turns.turnId)
    ensures 0 <= muts[j].turns.now - muts[i].guard.now <= RESTART_CLAIM_TTL
    ensures muts[i].guard.rollout.cursorKnown && !muts[i].guard.rollout.turnActive
    ensures states[i].manager.ready && states[i].turn.managed == states[j].turn.managed
    ensures states[i].managedMode && states[i].watch.parentTurn == Some(muts[j].turns.turnId)
    ensures states[i].watch.activityEpoch == muts[i].guard.loaded.turnActivityEpoch
    ensures exists m :: m in Targets(states[i].watch) && !m.terminal && m.targetId == muts[i].guard.loaded.targetId
                        && m.generation == muts[i].guard.loaded.targetGeneration
                        && m.progressEpoch == muts[i].guard.loaded.progressEpoch
    ensures forall k :: i < k < j ==> !Performs(states[k], muts[k]) && !Claims(states[k], muts[k])
  {
    RunsSound(states, muts);
    i := ClaimOrigin(states, muts, j);
  }

  // ---------- the life of a turn ----------

  predicate Saves(v: Values, m: Mutator) {
    Mutate(v, m).Saved?
  }

  predicate Starts(v: Values, m: Mutator) {
    m.Turns? && m.turns.TurnStarted? && Saves(v, m)
  }

  predicate Pends(v: Values, m: Mutator) {
    m.Turns? && m.turns.PendingTurn? && Saves(v, m)
  }

  predicate TimesOut(v: Values, m: Mutator) {
    m.Turns? && m.turns.PendingTimedOut? && Saves(v, m)
  }

  predicate Clears(v: Values, m: Mutator) {
    m.Turns? && m.turns.PendingCleared? && Saves(v, m)
  }

  /** A recorded finish or a performed restart. */
  predicate Releases(v: Values, m: Mutator) {
    m.Turns? && (m.turns.TurnFinished? || m.turns.RestartPerformed?) && Saves(v, m)
  }

  /** The predicates under which the handshake's own mutators take effect. */
  lemma TurnGuards(v: Values, m: TurnMutator)
    ensures m.TurnStarted? ==>
      (MutateTurn(v, m).Saved? <==>
       m.turnId != "" && Managed(v) && v.handoffRequested && v.turn.managed.None?
       && (v.turn.pending.None? || v.turn.pending == Some(m.turnId)))
    ensures m.PendingTurn? ==>
      (MutateTurn(v, m).Saved? <==>
       m.turnId != "" && Managed(v) && v.handoffRequested && v.turn.managed.None? && v.turn.pending.None?)
    ensures m.PendingTimedOut? ==>
      (MutateTurn(v, m).Saved? <==> m.at >= 0.0 && Managed(v) && v.turn.pending == Some(m.turnId))
    ensures m.PendingCleared? ==> (MutateTurn(v, m).Saved? <==> v.turn.pending == Some(m.turnId))
    ensures m.TurnFinished? ==> (MutateTurn(v, m).Saved? <==> v.turn.managed == Some(m.turnId))
  {
  }

  /** Which mutations set and clear the turn entries; all others leave them. */
  ghost predicate EntriesMove(v: Values, m: Mutator, w: Values) {
    && w.turn.managed ==
       (if Starts(v, m) then Some(m.turns.turnId) else if Releases(v, m) then None else v.turn.managed)
    && w.turn.pending ==
       (if Pends(v, m) then Some(m.turns.turnId)
        else if Starts(v, m) || Clears(v, m) || Releases(v, m) then None else v.turn.pending)
    && w.turn.timedOutAt ==
       (if TimesOut(v, m) then Some(m.turns.at)
        else if Pends(v, m) || Starts(v, m) || Clears(v, m) || Releases(v, m) then None else v.turn.timedOutAt)
  }

  lemma TurnEntriesMove(v: Values, m: TurnMutator)
    ensures EntriesMove(v, Turns(m), Document(v, MutateTurn(v, m)))
  {
  }

  lemma MutatorEntriesMove(v: Values, m: Mutator)
    ensures EntriesMove(v, m, Document(v, Mutate(v, m)))
  {
    match m
    case Turns(t) => TurnEntriesMove(v, t);
    case Guard(g) =>
    case Side(s) => SideMutatorsLeaveTurn(v, s);
  }

  /** A finished or restarted turn is released: nothing is owned or requested, the next handoff is asked for, and in a
      managed record any turn can be started next. */
  lemma ReleasedForNext(v: Values, m: Mutator, next: string)
    requires Releases(v, m) && next != ""
    ensures
      var w := Document(v, Mutate(v, m));
      && w.turn == Turn(None, None, None, None, false, None, w.turn.restartCount) && w.handoffRequested
      && (Managed(v) ==>
           RecordTurnStarted(w, next).Saved? && RecordTurnStarted(w, next).values.turn.managed == Some(next))
      && (Managed(v) ==>
           RecordPendingTurn(w, next).Saved? && RecordPendingTurn(w, next).values.turn.pending == Some(next))
  {
  }

  /** The history of one entry that is only ever set while it is empty. */
  ghost predicate IsHistory(entry: seq<Option<string>>, written: seq<Option<string>>, cleared: seq<bool>) {
    && |entry| == |written| + 1 && |cleared| == |written| && entry[0] == None
    && forall k :: 0 <= k < |written| ==>
         && entry[k + 1] == (if written[k].Some? then written[k] else if cleared[k] then None else entry[k])
         && (written[k].Some? ==> entry[k].None?)
  }

  /** Step `i` sets the value, and no step from there to `n` clears it. */
  ghost predicate SetSince(written: seq<Option<string>>, cleared: seq<bool>, i: nat, n: nat, value: string)
    requires i < n <= |written| && |cleared| == |written|
  {
    written[i] == Some(value) && forall k :: i < k < n ==> !cleared[k]
  }

  /** Such an entry holds a value exactly from when it was set to it until it is cleared. */
  lemma {:induction false} Lifespan(entry: seq<Option<string>>, written: seq<Option<string>>, cleared: seq<bool>,
                                    n: nat, value: string)
    requires IsHistory(entry, written, cleared) && n < |entry|
    ensures entry[n] == Some(value) <==>
      exists i :: 0 <= i < n && SetSince(written, cleared, i, n, value)
  {
    if n > 0 {
      Lifespan(entry, written, cleared, n - 1, value);
      if entry[n] == Some(value) {
        if written[n - 1].Some? {
          assert SetSince(written, cleared, n - 1, n, value);
        } else {
          var i :| 0 <= i < n - 1 && SetSince(written, cleared, i, n - 1, value);
          assert SetSince(written, cleared, i, n, value);
        }
      }
      if i :| 0 <= i < n && SetSince(written, cleared, i, n, value) {
        assert i < n - 1 ==> SetSince(written, cleared, i, n - 1, value);
      }
    }
  }

  function StartedBy(v: Values, m: Mutator): Option<string> {
    if Starts(v, m) then Some(m.turns.turnId) else None
  }

  function PendedBy(v: Values, m: Mutator): Option<string> {
    if Pends(v, m) then Some(m.turns.turnId) else None
  }

  predicate EndsPending(v: Values, m: Mutator) {
    Starts(v, m) || Clears(v, m) || Releases(v, m)
  }

  /** Step `i` starts the turn, and no step from there to `n` releases it. */
  ghost predicate ManagedSince(states: seq<Values>, muts: seq<Mutator>, i: nat, n: nat, turnId: string)
    requires i < n <= |muts| < |states|
  {
    StartedBy(states[i], muts[i]) == Some(turnId) && forall k :: i < k < n ==> !Releases(states[k], muts[k])
  }

  /** Step `i` records the accepted turn, and no step from there to `n` starts, clears or releases it. */
  ghost predicate PendingSince(states: seq<Values>, muts: seq<Mutator>, i: nat, n: nat, turnId: string)
    requires i < n <= |muts| < |states|
  {
    PendedBy(states[i], muts[i]) == Some(turnId) && forall k :: i < k < n ==> !EndsPending(states[k], muts[k])
  }

  /** One mutation sets an entry only while it is empty. */
  lemma EntriesStep(v: Values, m: Mutator)
    ensures
      var w := Document(v, Mutate(v, m));
      && w.turn.managed == (if StartedBy(v, m).Some? then StartedBy(v, m)
                            else if Releases(v, m) then None else v.turn.managed)
      && (StartedBy(v, m).Some? ==> v.turn.managed.None?)
      && w.turn.pending == (if PendedBy(v, m).Some? then PendedBy(v, m)
                            else if EndsPending(v, m) then None else v.turn.pending)
      && (PendedBy(v, m).Some? ==> v.turn.pending.None?)
  {
    MutatorEntriesMove(v, m);
    if m.Turns? {
      TurnGuards(v, m.turns);
    }
  }

  /** Over every run a turn is managed exactly from its recorded start to its finish or performed restart. */
  lemma ManagedExactly(states: seq<Values>, muts: seq<Mutator>, n: nat, turnId: string)
    requires IsRun(states, muts) && n < |states|
    ensures states[n].turn.managed == Some(turnId) <==>
      exists i :: 0 <= i < n && ManagedSince(states, muts, i, n, turnId)
  {
    var entry := seq(|states|, k requires 0 <= k < |states| => states[k].turn.managed);
    var written := seq(|muts|, k requires 0 <= k < |muts| => StartedBy(states[k], muts[k]));
    var cleared := seq(|muts|, k requires 0 <= k < |muts| => Releases(states[k], muts[k]));
    forall k | 0 <= k < |muts|
      ensures entry[k + 1] == (if written[k].Some? then written[k] else if cleared[k] then None else entry[k])
      ensures written[k].Some? ==> entry[k].None?
    {
      EntriesStep(states[k], muts[k]);
    }
    Lifespan(entry, written, cleared, n, turnId);
    forall i | 0 <= i < n
      ensures ManagedSince(states, muts, i, n, turnId) <==> SetSince(written, cleared, i, n, turnId)
    {
      assert forall k :: i < k < n ==> cleared[k] == Releases(states[k], muts[k]);
    }
  }

  /** Over every run a turn is pending exactly from its accepted start response until it starts or is cleared. */
  lemma PendingExactly(states: seq<Values>, muts: seq<Mutator>, n: nat, turnId: string)
    requires IsRun(states, muts) && n < |states|
    ensures states[n].turn.pending == Some(turnId) <==>
      exists i :: 0 <= i < n && PendingSince(states, muts, i, n, turnId)
  {
    var entry := seq(|states|, k requires 0 <= k < |states| => states[k].turn.pending);
    var written := seq(|muts|, k requires 0 <= k < |muts| => PendedBy(states[k], muts[k]));
    var cleared := seq(|muts|, k requires 0 <= k < |muts| => EndsPending(states[k], muts[k]));
    forall k | 0 <= k < |muts|
      ensures entry[k + 1] == (if written[k].Some? then written[k] else if cleared[k] then None else entry[k])
      ensures written[k].Some? ==> entry[k].None?
    {
      EntriesStep(states[k], muts[k]);
    }
    Lifespan(entry, written, cleared, n, turnId);
    forall i | 0 <= i < n
      ensures PendingSince(states, muts, i, n, turnId) <==> SetSince(written, cleared, i, n, turnId)
    {
      assert forall k :: i < k < n ==> cleared[k] == EndsPending(states[k], muts[k]);
    }
  }

  // ---------- the other entries ----------

  /** Asking for a handoff: a released turn, a completed activation, or a Stop hook outside shutdown. */
  predicate AsksHandoff(v: Values, m: Mutator) {
    Saves(v, m)
    && (Releases(v, m) || (m.Side? && (m.side.Complete? || (m.side.Stop? && !v.shutdown.requested))))
  }

  /** Withdrawing one: a started or adopted turn, a shutdown, or a Stop hook during shutdown. */
  predicate WithdrawsHandoff(v: Values, m: Mutator) {
    Saves(v, m)
    && (Starts(v, m) || (m.Guard? && m.guard.Defer?)
        || (m.Side? && (m.side.Adopt? || m.side.StartupCancel? || (m.side.Stop? && v.shutdown.requested))))
  }

  predicate DropsRequest(v: Values, m: Mutator) {
    Starts(v, m) || Releases(v, m)
    || (m.Guard? && Saves(v, m)
        && match m.guard
           case Claim(loaded, rollout, _) => v.turn.request == Some(loaded) && !EvidenceFresh(v, loaded, rollout)
           case Revalidate(loaded, rollout) => v.turn.request == Some(loaded) && !EvidenceFresh(v, loaded, rollout)
           case Clear(_) => true
           case Defer(_) => true
           case WatcherRequest(_) => false)
  }

  /** Saved mutations count a revision, except those of the hooks and the watcher and freshness tests without effect. */
  predicate Bumps(v: Values, m: Mutator) {
    Saves(v, m)
    && match m
       case Turns(_) => true
       case Guard(g) =>
         if g.Claim? || g.Revalidate? then DropsRequest(v, m) || Claims(v, m) else !g.WatcherRequest?
       case Side(s) => !s.Stop? && !s.WatcherObserve?
  }

  /** Who writes the entries beside the turn's own. */
  ghost predicate OthersMove(v: Values, m: Mutator, w: Values) {
    && w.handoffRequested == (AsksHandoff(v, m) || (v.handoffRequested && !WithdrawsHandoff(v, m)))
    && w.turn.request ==
       (if DropsRequest(v, m) then None
        else if m.Guard? && m.guard.WatcherRequest? && Saves(v, m) then m.guard.request else v.turn.request)
    && w.shutdown ==
       (if m.Guard? && m.guard.Defer? && Saves(v, m) then Shutdown(true, m.guard.interruptActive)
        else if m.Side? && m.side.StartupCancel? && Saves(v, m) then Shutdown(true, false) else v.shutdown)
    && w.manager ==
       (if m.Side? && m.side.Ready? && Saves(v, m) then Manager(true, Some(m.side.pid), None)
        else if m.Side? && m.side.Stopped? then Manager(false, None, v.manager.error)
        else if m.Side? && m.side.ManagerFailed? then Manager(false, None, Some(m.side.reason)) else v.manager)
    && w.enabled == v.enabled && w.managedMode == v.managedMode && w.goalCompanion == v.goalCompanion
    && w.revision == v.revision + (if Bumps(v, m) then 1 else 0)
  }

  lemma TurnOthersMove(v: Values, m: TurnMutator)
    ensures OthersMove(v, Turns(m), Document(v, MutateTurn(v, m)))
  {
  }

  lemma GuardOthersMove(v: Values, m: GuardMutator)
    ensures OthersMove(v, Guard(m), Document(v, MutateGuard(v, m)))
  {
  }

  lemma SideOthersMove(v: Values, m: SideMutator)
    ensures OthersMove(v, Side(m), Document(v, MutateSide(v, m)))
  {
  }

  /** The handoff, the request, the shutdown and the manager's state are written by exactly these mutations. */
  lemma MutatorOthersMove(v: Values, m: Mutator)
    ensures OthersMove(v, m, Document(v, Mutate(v, m)))
  {
    match m
    case Turns(t) => TurnOthersMove(v, t);
    case Guard(g) => GuardOthersMove(v, g);
    case Side(s) => SideOthersMove(v, s);
  }

  /** When the mutators beside the turn's own take effect. */
  lemma OtherGuards(v: Values, m: Mutator)
    ensures m == Side(Stop) ==> (Saves(v, m) <==> v.managedMode)
    ensures m.Side? && m.side.Ready? ==> (Saves(v, m) <==> m.side.pid >= 1 && Managed(v))
    ensures m == Side(StartupCancel) ==> (Saves(v, m) <==> Managed(v) && !v.manager.ready)
    ensures m.Side? && m.side.Complete? ==>
      (Saves(v, m) <==> v.watch.parentTurn == Some(m.side.turnId) && v.turn.managed.None? && v.watch.parent.Some?)
    ensures m.Side? && m.side.Adopt? ==>
      (Saves(v, m) <==>
       Managed(v) && !v.goalCompanion && !v.shutdown.requested && v.handoffRequested
       && v.turn.managed.None? && v.turn.pending.None?)
    ensures m.Guard? && m.guard.Defer? ==>
      (Saves(v, m) <==> v.managedMode && v.manager.ready && v.turn.managed.Some?)
    ensures m.Guard? && m.guard.Clear? ==> (Saves(v, m) <==> v.turn.request == Some(m.guard.loaded))
    ensures m.Guard? && m.guard.WatcherRequest? ==> (Saves(v, m) <==> !v.turn.claimed)
  {
  }

  /** A turn that the watch does not follow yet gets a monitor of a later generation; one that it follows keeps its
      own. */
  lemma ParentFollowsTurn(w: Watch, turnId: string)
    ensures
      var s := StartManagedParent(w, turnId);
      && s.parent.Some? && s.parentTurn == Some(turnId) && !s.parentComplete
      && s.children == w.children && s.activityEpoch == w.activityEpoch
      && (w.parent.Some? && w.parentTurn == Some(turnId) ==> s.parent == w.parent)
      && (w.parent.Some? && w.parentTurn != Some(turnId) ==>
           s.parent.value.generation > w.parent.value.generation && !s.parent.value.terminal)
      && (w.parent.None? ==> s.parent == Some(Monitor(None, 1, 0, false)))
  {
  }

  /** The watch follows a started turn, and no other mutation of the handshake's own touches it. */
  lemma TurnWatchMoves(v: Values, m: TurnMutator)
    ensures
      Document(v, MutateTurn(v, m)).watch ==
      if Starts(v, Turns(m)) then StartManagedParent(v.watch, m.turnId) else v.watch
  {
  }

  lemma GuardWatchStays(v: Values, m: GuardMutator)
    ensures Document(v, MutateGuard(v, m)).watch == v.watch
  {
  }

  /** The watch follows a bound or adopted turn; a completed activation ends the parent monitor, and a Stop hook ends
      all monitors. */
  lemma SideWatchMoves(v: Values, m: SideMutator)
    ensures
      var w := Document(v, MutateSide(v, m)).watch;
      && (m.Bind? ==> w == StartManagedParent(v.watch, m.turnId))
      && (m.Adopt? && Saves(v, Side(m)) ==>
           w == StartManagedParent(v.watch, m.turnId).(activityEpoch := v.watch.activityEpoch + 1))
      && (m.Complete? && Saves(v, Side(m)) ==>
           w.parent.Some? && w.parent.value.terminal && w.parentTurn == v.watch.parentTurn
           && w.children == v.watch.children && w.activityEpoch == v.watch.activityEpoch)
      && (m.Stop? && Saves(v, Side(m)) ==> forall monitor :: monitor in Targets(w) ==> monitor.terminal)
      && (m.Ready? || m.Stopped? || m.ManagerFailed? || m.StartupCancel? ==> w == v.watch)
  {
  }

  // ---------- the document ----------

  /** What the caller sees: a raised reason, or success. */
  function ResultOf(o: Outcome): Result<(), string> {
    if o.Failed? then Err(o.reason) else Ok(())
  }

  /** The locked document. Each method is one mutator closure: it assigns entries of `values`, or raises before it
      does. */
  class RuntimeDocument {
    var values: Values

    constructor (initial: Values)
      ensures values == initial
    {
      values := initial;
    }

    method AssignTurn(turn: Turn)
      modifies this
      ensures values == old(values).(turn := turn)
    {
      values := values.(turn := turn);
    }

    method ClearRequest()
      modifies this
      ensures values == old(values).(turn := DropRequest(old(values).turn))
    {
      AssignTurn(values.turn.(request := None));
      AssignTurn(values.turn.(claimed := false));
      AssignTurn(values.turn.(claimedAt := None));
    }

    method BumpRevision()
      modifies this
      ensures values == Bump(old(values))
    {
      values := values.(revision := values.revision + 1);
    }

    method StartTurn(turnId: string) returns (result: Result<(), string>)
      modifies this
      ensures values == Document(old(values), RecordTurnStarted(old(values), turnId))
      ensures result == ResultOf(RecordTurnStarted(old(values), turnId))
    {
      if turnId == "" {
        return Err("managed_turn_id_missing");
      }
      if !Managed(values) {
        return Err("managed_mode_not_enabled");
      }
      if !values.handoffRequested || values.turn.managed.Some? {
        return Err("handoff_state_changed");
      }
      var pending := values.turn.pending;
      if pending.Some? && pending.value != turnId {
        return Err("handoff_state_changed");
      }
      AssignTurn(values.turn.(pending := None));
      AssignTurn(values.turn.(timedOutAt := None));
      AssignTurn(values.turn.(managed := Some(turnId)));
      values := values.(handoffRequested := false);
      ClearRequest();
      values := values.(watch := StartManagedParent(values.watch, turnId));
      BumpRevision();
      return Ok(());
    }

    method AcceptPendingTurn(turnId: string) returns (result: Result<(), string>)
      modifies this
      ensures values == Document(old(values), RecordPendingTurn(old(values), turnId))
      ensures result == ResultOf(RecordPendingTurn(old(values), turnId))
    {
      if turnId == "" {
        return Err("managed_turn_id_missing");
      }
      if !Managed(values) {
        return Err("managed_mode_not_enabled");
      }
      if !values.handoffRequested || values.turn.managed.Some? || values.turn.pending.Some? {
        return Err("handoff_state_changed");
      }
      AssignTurn(values.turn.(pending := Some(turnId)));
      AssignTurn(values.turn.(timedOutAt := None));
      BumpRevision();
      return Ok(());
    }

    method ReleaseTurn()
      modifies this
      ensures values == FinishTurn(old(values))
    {
      AssignTurn(values.turn.(pending := None));
      AssignTurn(values.turn.(timedOutAt := None));
      AssignTurn(values.turn.(managed := None));
      ClearRequest();
      values := values.(handoffRequested := true);
      BumpRevision();
    }

    method FinishOwnedTurn(turnId: string) returns (result: Result<(), string>)
      modifies this
      ensures values == Document(old(values), RecordTurnFinished(old(values), turnId))
      ensures result == ResultOf(RecordTurnFinished(old(values), turnId))
    {
      if values.turn.managed != Some(turnId) {
        return Err("completed_turn_not_owned");
      }
      ReleaseTurn();
      return Ok(());
    }

    method AcknowledgeRestart(turnId: string, now: int) returns (result: Result<(), string>)
      modifies this
      ensures values == Document(old(values), RecordRestartPerformed(old(values), turnId, now))
      ensures result == ResultOf(RecordRestartPerformed(old(values), turnId, now))
    {
      var request := values.turn.request;
      if request.None? || request.value.turnId != turnId {
        return Err("restart_request_changed");
      }
      if values.turn.managed != Some(turnId) {
        return Err("restart_turn_not_owned");
      }
      if !values.turn.claimed {
        return Err("restart_request_not_claimed");
      }
      var claimedAt := values.turn.claimedAt;
      if claimedAt.None? || !ClaimIsCurrent(claimedAt.value, now) {
        return Err("interrupt_claim_expired");
      }
      AssignTurn(values.turn.(restartCount := values.turn.restartCount + 1));
      ReleaseTurn();
      return Ok(());
    }

    /** Each stale branch clears the request. */
    method RequestIsFresh(loaded: RestartRequest, rollout: Rollout) returns (isFresh: bool)
      modifies this
      ensures isFresh <==> EvidenceFresh(old(values), loaded, rollout)
      ensures values == AfterFreshnessTest(old(values), loaded, rollout)
    {
      if values.turn.request != Some(loaded) {
        return false;
      }
      isFresh := OwnershipMatches(values, loaded);
      if isFresh {
        OwnershipFindsMonitor(values, loaded);
        isFresh := rollout.cursorKnown;
      }
      if isFresh {
        isFresh := !rollout.turnActive;
      }
      if !isFresh {
        ClearRequest();
        BumpRevision();
      }
    }

    /** Claim the loaded request; stale evidence is cleared and not claimed. */
    method ClaimRequest(loaded: RestartRequest, rollout: Rollout, now: int) returns (claimed: bool)
      modifies this
      ensures values == Document(old(values), ClaimRestart(old(values), loaded, rollout, now))
      ensures claimed <==> Claims(old(values), Guard(Claim(loaded, rollout, now)))
    {
      if values.turn.claimed {
        return false;
      }
      var isFresh := RequestIsFresh(loaded, rollout);
      if !isFresh {
        return false;
      }
      AssignTurn(values.turn.(claimed := true));
      AssignTurn(values.turn.(claimedAt := Some(now)));
      BumpRevision();
      return true;
    }

    method AdoptStartedTurn(turnId: string) returns (adopted: bool)
      modifies this
      ensures values == Document(old(values), AdoptStarted(old(values), turnId))
      ensures adopted <==> AdoptStarted(old(values), turnId).Saved?
    {
      if !values.enabled || !values.managedMode || values.goalCompanion || values.shutdown.requested
         || !values.handoffRequested || values.turn.managed.Some? || values.turn.pending.Some? {
        return false;
      }
      values := values.(watch := StartManagedParent(values.watch, turnId));
      values := values.(watch := values.watch.(activityEpoch := values.watch.activityEpoch + 1));
      values := values.(handoffRequested := false);
      BumpRevision();
      return true;
    }

    method DeferSessionShutdown(interruptActive: bool) returns (deferred: bool)
      modifies this
      ensures values == Document(old(values), DeferShutdown(old(values), interruptActive))
      ensures deferred <==> DeferShutdown(old(values), interruptActive).Saved?
    {
      if !values.managedMode || !values.manager.ready || values.turn.managed.None? {
        return false;
      }
      values := values.(shutdown := Shutdown(true, interruptActive));
      values := values.(handoffRequested := false);
      ClearRequest();
      BumpRevision();
      return true;
    }
  }
}

/** The passive stall detector: one warning and one critical diagnostic per silence interval. */
module StallDetector {
  import opened Options

  datatype ProgressKind = Item | Delta | ToolResult

  datatype Phase = Healthy | Paused | SilentWarned | CriticalPhase | Terminal

  datatype Action = NoAction | Warning | Critical | Stop

  datatype Thresholds = Thresholds(warning: real, critical: real)

  datatype WaitState = WaitState(openToolCount: nat, waitingForApproval: bool, waitingForUser: bool,
                                 childTerminal: bool, parentComplete: bool) {
    predicate IsTerminal() {
      childTerminal || parentComplete
    }

    predicate IsPaused() {
      !IsTerminal() && (openToolCount > 0 || waitingForApproval || waitingForUser)
    }
  }

  /** The detector's state. The silence identifier is its sequence number and the time at which it opened. */
  datatype SilenceState = SilenceState(phase: Phase, silenceId: (nat, real), silenceSequence: nat,
                                       silenceStartedAt: real, waits: WaitState,
                                       itemAt: Option<real>, deltaAt: Option<real>, toolResultAt: Option<real>,
                                       warningEmitted: bool, criticalEmitted: bool)

  function InitialState(at: real): SilenceState {
    SilenceState(Healthy, (0, at), 0, at, WaitState(0, false, false, false, false), None, None, None, false, false)
  }

  function Later(a: real, b: Option<real>): real {
    if b.Some? && b.value > a then b.value else a
  }

  function LatestProgressAt(s: SilenceState): real {
    Later(Later(Later(s.silenceStartedAt, s.itemAt), s.deltaAt), s.toolResultAt)
  }

  function NextInterval(s: SilenceState, at: real): SilenceState {
    s.(phase := if s.waits.IsPaused() then Paused else Healthy,
       silenceId := (s.silenceSequence + 1, at), silenceSequence := s.silenceSequence + 1,
       warningEmitted := false, criticalEmitted := false)
  }

  function RecordProgress(s: SilenceState, kind: ProgressKind, at: real): SilenceState {
    if s.waits.IsTerminal() || at < LatestProgressAt(s) then s
    else
      var updated :=
        match kind
        case Item => s.(silenceStartedAt := at, itemAt := Some(at))
        case Delta => s.(silenceStartedAt := at, deltaAt := Some(at))
        case ToolResult => s.(silenceStartedAt := at, toolResultAt := Some(at));
      NextInterval(updated, at)
  }

  function SetWaitState(s: SilenceState, waits: WaitState, resumeConfirmed: bool): SilenceState {
    if waits.IsTerminal() then s.(phase := Terminal, waits := waits)
    else if waits.IsPaused() then s.(phase := Paused, waits := waits)
    else if s.waits.IsPaused() && !resumeConfirmed then s.(phase := Paused)
    else s.(phase := if s.waits.IsPaused() then Healthy else s.phase, waits := waits)
  }

  function Evaluate(s: SilenceState, now: real, t: Thresholds): (SilenceState, Action) {
    var elapsed := now - LatestProgressAt(s);
    if s.waits.IsTerminal() then (s.(phase := Terminal), Stop)
    else if s.waits.IsPaused() then (s.(phase := Paused), NoAction)
    else if elapsed < t.warning then (s.(phase := Healthy), NoAction)
    else if !s.warningEmitted then (s.(phase := SilentWarned, warningEmitted := true), Warning)
    else if elapsed < t.critical then (s.(phase := SilentWarned), NoAction)
    else if !s.criticalEmitted then (s.(phase := CriticalPhase, criticalEmitted := true), Critical)
    else (s, NoAction)
  }

  /** Waiting and resuming never move the silence anchor, open an interval or forget an emitted diagnostic. */
  lemma WaitsKeepAnchor(s: SilenceState, waits: WaitState, resumeConfirmed: bool)
    ensures
      var t := SetWaitState(s, waits, resumeConfirmed);
      t == s.(phase := t.phase, waits := t.waits) && LatestProgressAt(t) == LatestProgressAt(s)
  {
    assert LatestProgressAt(s.(phase := Paused)) == LatestProgressAt(s);
  }

  datatype Event =
    | Progress(kind: ProgressKind, at: real)
    | Waits(waits: WaitState, resumeConfirmed: bool)
    | Tick(now: real, thresholds: Thresholds)

  function Step(s: SilenceState, e: Event): (SilenceState, Action) {
    match e
    case Progress(kind, at) => (RecordProgress(s, kind, at), NoAction)
    case Waits(waits, resumeConfirmed) => (SetWaitState(s, waits, resumeConfirmed), NoAction)
    case Tick(now, thresholds) => Evaluate(s, now, thresholds)
  }

  predicate Steps(states: seq<SilenceState>, events: seq<Event>, i: nat)
    requires i < |events| && i + 1 < |states|
  {
    states[i + 1] == Step(states[i], events[i]).0
  }

  /** A run from any start time; clock readings and thresholds are arbitrary at every tick. */
  ghost predicate IsRun(states: seq<SilenceState>, events: seq<Event>) {
    && |states| == |events| + 1
    && (exists at :: states[0] == InitialState(at))
    && forall i :: 0 <= i < |events| ==> Steps(states, events, i)
  }

  function ActionAt(states: seq<SilenceState>, events: seq<Event>, i: nat): Action
    requires i < |states| && i < |events|
  {
    Step(states[i], events[i]).1
  }

  /** Once set, an emitted flag stays set until the interval ends. */
  lemma {:induction false} FlagsPersist(states: seq<SilenceState>, events: seq<Event>, i: nat, j: nat)
    requires IsRun(states, events) && i <= j < |states|
    ensures states[i].silenceSequence <= states[j].silenceSequence
    ensures states[i].silenceSequence == states[j].silenceSequence ==>
      (states[i].warningEmitted ==> states[j].warningEmitted)
      && (states[i].criticalEmitted ==> states[j].criticalEmitted)
    decreases j
  {
    if i < j {
      FlagsPersist(states, events, i, j - 1);
      assert Steps(states, events, j - 1);
    }
  }

  /** Within one silence interval a diagnostic is emitted at most once. */
  lemma DiagnosticsOnce(states: seq<SilenceState>, events: seq<Event>, i: nat, j: nat)
    requires IsRun(states, events) && i < j < |events|
    requires ActionAt(states, events, i) == ActionAt(states, events, j)
    requires ActionAt(states, events, i).Warning? || ActionAt(states, events, i).Critical?
    ensures states[i].silenceSequence < states[j].silenceSequence
  {
    assert Steps(states, events, i);
    FlagsPersist(states, events, i + 1, j);
  }

  /** A raised warning flag comes from a warning in the same interval. */
  lemma {:induction false} WarningOrigin(states: seq<SilenceState>, events: seq<Event>, n: nat) returns (i: nat)
    requires IsRun(states, events) && n < |states| && states[n].warningEmitted
    ensures i < n && ActionAt(states, events, i).Warning?
    ensures states[i].silenceSequence == states[n].silenceSequence
  {
    assert n > 0;
    assert Steps(states, events, n - 1);
    if states[n - 1].warningEmitted {
      i := WarningOrigin(states, events, n - 1);
    } else {
      i := n - 1;
    }
  }

  /** A critical diagnostic follows a warning in the same interval. */
  lemma CriticalAfterWarning(states: seq<SilenceState>, events: seq<Event>, j: nat) returns (i: nat)
    requires IsRun(states, events) && j < |events| && ActionAt(states, events, j).Critical?
    ensures i < j && ActionAt(states, events, i).Warning?
    ensures states[i].silenceSequence == states[j].silenceSequence
  {
    i := WarningOrigin(states, events, j);
  }

  // ---------- when a diagnostic is due, in terms of the events ----------

  /** The waits in force after the first `n` events: a pause ends by a confirmed resumption or a terminal wait. */
  function WaitsAfter(events: seq<Event>, n: nat): WaitState
    requires n <= |events|
  {
    if n == 0 then WaitState(0, false, false, false, false)
    else
      var before := WaitsAfter(events, n - 1);
      match events[n - 1]
      case Waits(waits, resumeConfirmed) =>
        if before.IsPaused() && !resumeConfirmed && !waits.IsTerminal() && !waits.IsPaused() then before else waits
      case _ => before
  }

  /** The time of the latest accepted progress among the first `n` events, or the start. */
  function AnchorAfter(start: real, events: seq<Event>, n: nat): real
    requires n <= |events|
    decreases n, 0
  {
    if n == 0 then start
    else if Accepted(start, events, n - 1) then events[n - 1].at
    else AnchorAfter(start, events, n - 1)
  }

  /** Progress counts unless the target has ended or newer progress is known. */
  predicate Accepted(start: real, events: seq<Event>, k: nat)
    requires k < |events|
    decreases k, 1
  {
    events[k].Progress? && !WaitsAfter(events, k).IsTerminal() && events[k].at >= AnchorAfter(start, events, k)
  }

  /** No progress is accepted from event `i` up to event `n`. */
  ghost predicate SameInterval(start: real, events: seq<Event>, i: nat, n: nat)
    requires n <= |events|
  {
    forall k :: i <= k < n ==> !Accepted(start, events, k)
  }

  /** A tick at which no wait holds and progress has been missing for at least `threshold`. */
  predicate Silent(start: real, events: seq<Event>, n: nat, threshold: real)
    requires n < |events|
  {
    events[n].Tick? && !WaitsAfter(events, n).IsTerminal() && !WaitsAfter(events, n).IsPaused()
    && events[n].now - AnchorAfter(start, events, n) >= threshold
  }

  /** Some earlier tick of the running interval took the action. */
  ghost predicate TakenBefore(states: seq<SilenceState>, events: seq<Event>, start: real, n: nat, action: Action)
    requires n <= |events| && n <= |states|
  {
    exists i :: 0 <= i < n && ActionAt(states, events, i) == action && SameInterval(start, events, i, n)
  }

  ghost predicate IsRunFrom(states: seq<SilenceState>, events: seq<Event>, start: real) {
    IsRun(states, events) && states[0] == InitialState(start)
  }

  /** What one event does: accepted progress moves the anchor and opens an interval; others set waits or flags. */
  ghost predicate Moves(s: SilenceState, e: Event, t: SilenceState, action: Action) {
    var accepted := e.Progress? && !s.waits.IsTerminal() && e.at >= s.silenceStartedAt;
    && LatestProgressAt(t) == t.silenceStartedAt == (if accepted then e.at else s.silenceStartedAt)
    && (t.warningEmitted <==> !accepted && (s.warningEmitted || action.Warning?))
    && (t.criticalEmitted <==> !accepted && (s.criticalEmitted || action.Critical?))
    && (!e.Waits? ==> t.waits == s.waits)
    && t.silenceSequence == s.silenceSequence + (if accepted then 1 else 0)
    && t.silenceId == (if accepted then (t.silenceSequence, e.at) else s.silenceId)
    && t.itemAt == (if accepted && e.kind.Item? then Some(e.at) else s.itemAt)
    && t.deltaAt == (if accepted && e.kind.Delta? then Some(e.at) else s.deltaAt)
    && t.toolResultAt == (if accepted && e.kind.ToolResult? then Some(e.at) else s.toolResultAt)
  }

  /** The progress times are at most the anchor. */
  lemma AnchorLatest(s: SilenceState)
    ensures LatestProgressAt(s) == s.silenceStartedAt <==>
      && (s.itemAt.Some? ==> s.itemAt.value <= s.silenceStartedAt)
      && (s.deltaAt.Some? ==> s.deltaAt.value <= s.silenceStartedAt)
      && (s.toolResultAt.Some? ==> s.toolResultAt.value <= s.silenceStartedAt)
  {
  }

  lemma ProgressMoves(s: SilenceState, kind: ProgressKind, at: real)
    requires LatestProgressAt(s) == s.silenceStartedAt
    ensures Moves(s, Progress(kind, at), RecordProgress(s, kind, at), NoAction)
  {
    AnchorLatest(s);
    AnchorLatest(RecordProgress(s, kind, at));
  }

  lemma TickMoves(s: SilenceState, now: real, t: Thresholds)
    requires LatestProgressAt(s) == s.silenceStartedAt
    ensures Moves(s, Tick(now, t), Evaluate(s, now, t).0, Evaluate(s, now, t).1)
  {
    AnchorLatest(s);
    AnchorLatest(Evaluate(s, now, t).0);
  }

  lemma StepMoves(s: SilenceState, e: Event)
    requires LatestProgressAt(s) == s.silenceStartedAt
    ensures Moves(s, e, Step(s, e).0, Step(s, e).1)
  {
    match e
    case Progress(kind, at) => ProgressMoves(s, kind, at);
    case Waits(waits, resumeConfirmed) => WaitsKeepAnchor(s, waits, resumeConfirmed);
    case Tick(now, t) => TickMoves(s, now, t);
  }

  lemma {:induction false} HistoryMeans(states: seq<SilenceState>, events: seq<Event>, start: real, n: nat)
    requires IsRunFrom(states, events, start) && n < |states|
    ensures states[n].waits == WaitsAfter(events, n)
    ensures LatestProgressAt(states[n]) == states[n].silenceStartedAt == AnchorAfter(start, events, n)
  {
    if n > 0 {
      HistoryMeans(states, events, start, n - 1);
      StepMoves(states[n - 1], events[n - 1]);
      assert Steps(states, events, n - 1);
    }
  }

  lemma TakenStep(states: seq<SilenceState>, events: seq<Event>, start: real, n: nat, action: Action)
    requires IsRunFrom(states, events, start) && n < |events|
    ensures TakenBefore(states, events, start, n + 1, action) <==>
      !Accepted(start, events, n)
      && (TakenBefore(states, events, start, n, action) || ActionAt(states, events, n) == action)
  {
    if !Accepted(start, events, n) {
      if TakenBefore(states, events, start, n, action) {
        var i :| 0 <= i < n && ActionAt(states, events, i) == action && SameInterval(start, events, i, n);
        assert SameInterval(start, events, i, n + 1);
      }
      if ActionAt(states, events, n) == action {
        assert SameInterval(start, events, n, n + 1);
      }
      if TakenBefore(states, events, start, n + 1, action) && ActionAt(states, events, n) != action {
        var i :| 0 <= i < n + 1 && ActionAt(states, events, i) == action && SameInterval(start, events, i, n + 1);
        assert SameInterval(start, events, i, n);
      }
    }
  }

  /** The flags of the state record what the running interval has emitted. */
  lemma {:induction false} FlagsMean(states: seq<SilenceState>, events: seq<Event>, start: real, n: nat)
    requires IsRunFrom(states, events, start) && n < |states|
    ensures states[n].warningEmitted <==> TakenBefore(states, events, start, n, Warning)
    ensures states[n].criticalEmitted <==> TakenBefore(states, events, start, n, Critical)
  {
    if n > 0 {
      FlagsMean(states, events, start, n - 1);
      HistoryMeans(states, events, start, n - 1);
      TakenStep(states, events, start, n - 1, Warning);
      TakenStep(states, events, start, n - 1, Critical);
      StepMoves(states[n - 1], events[n - 1]);
      assert Steps(states, events, n - 1);
    }
  }

  /** Over every run a tick warns exactly when no wait holds, progress has been missing for the warning threshold, and
      no earlier tick of the interval has warned. */
  lemma WarnsExactly(states: seq<SilenceState>, events: seq<Event>, start: real, n: nat)
    requires IsRunFrom(states, events, start) && n < |events|
    ensures ActionAt(states, events, n).Warning? <==>
      events[n].Tick? && Silent(start, events, n, events[n].thresholds.warning)
      && !TakenBefore(states, events, start, n, Warning)
  {
    HistoryMeans(states, events, start, n);
    FlagsMean(states, events, start, n);
  }

  /** A tick is critical exactly when no wait holds, progress has been missing for both thresholds, and an earlier
      tick of the interval has warned but none has been critical. */
  lemma CriticalExactly(states: seq<SilenceState>, events: seq<Event>, start: real, n: nat)
    requires IsRunFrom(states, events, start) && n < |events|
    ensures ActionAt(states, events, n).Critical? <==>
      events[n].Tick? && Silent(start, events, n, events[n].thresholds.warning)
      && Silent(start, events, n, events[n].thresholds.critical)
      && TakenBefore(states, events, start, n, Warning) && !TakenBefore(states, events, start, n, Critical)
  {
    HistoryMeans(states, events, start, n);
    FlagsMean(states, events, start, n);
  }

  /** A tick stops exactly when a terminal wait holds. */
  lemma StopsExactly(states: seq<SilenceState>, events: seq<Event>, start: real, n: nat)
    requires IsRunFrom(states, events, start) && n < |events|
    ensures ActionAt(states, events, n).Stop? <==> events[n].Tick? && WaitsAfter(events, n).IsTerminal()
  {
    HistoryMeans(states, events, start, n);
  }

  /** The phase that a tick leaves tells what it saw. */
  lemma PhaseAfterTick(states: seq<SilenceState>, events: seq<Event>, start: real, n: nat)
    requires IsRunFrom(states, events, start) && n < |events| && events[n].Tick?
    ensures
      var (waits, phase) := (WaitsAfter(events, n), states[n + 1].phase);
      var t := events[n].thresholds;
      && (waits.IsTerminal() ==> phase.Terminal?)
      && (waits.IsPaused() ==> phase.Paused?)
      && (!waits.IsTerminal() && !waits.IsPaused() && !Silent(start, events, n, t.warning) ==> phase.Healthy?)
      && (ActionAt(states, events, n).Warning? ==> phase.SilentWarned?)
      && (ActionAt(states, events, n).Critical? ==> phase.CriticalPhase?)
      && (Silent(start, events, n, t.warning) && !Silent(start, events, n, t.critical) ==> phase.SilentWarned?)
  {
    HistoryMeans(states, events, start, n);
    assert Steps(states, events, n);
  }
}

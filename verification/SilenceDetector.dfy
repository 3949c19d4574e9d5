/** The older heartbeat detector, which may ask for an automatic restart. */
module SilenceDetector {
  import opened Options
  import opened StallDetector

  datatype RestartPhase = Calm | OnHold | Warned | RestartEligible | Restarted | Ended

  datatype Request = NoRequest | WarningRequest | RestartLimited | AutoRestart | StopRequest

  datatype RestartGate = RestartGate(requestedByUser: bool, capabilityReady: bool, latestEventCheckPassed: bool,
                                     targetGenerationVerified: bool, clockReliable: bool, eligibleSiblings: int) {
    predicate Effective() {
      requestedByUser && capabilityReady && latestEventCheckPassed && targetGenerationVerified && clockReliable
      && eligibleSiblings == 1
    }
  }

  datatype Detector = Detector(phase: RestartPhase, sequence: nat, startedAt: real, waits: WaitState,
                               itemAt: Option<real>, deltaAt: Option<real>, toolResultAt: Option<real>,
                               warningEmitted: bool, restartEligibilityEmitted: bool)

  function Initial(at: real): Detector {
    Detector(Calm, 0, at, WaitState(0, false, false, false, false), None, None, None, false, false)
  }

  function Latest(s: Detector): real {
    Later(Later(Later(s.startedAt, s.itemAt), s.deltaAt), s.toolResultAt)
  }

  function OpenInterval(s: Detector): Detector {
    s.(phase := if s.waits.IsPaused() then OnHold else Calm, sequence := s.sequence + 1,
       warningEmitted := false, restartEligibilityEmitted := false)
  }

  function RecordHeartbeat(s: Detector, kind: ProgressKind, at: real): Detector {
    if s.waits.IsTerminal() || at < Latest(s) then s
    else
      OpenInterval(
        match kind
        case Item => s.(startedAt := at, itemAt := Some(at))
        case Delta => s.(startedAt := at, deltaAt := Some(at))
        case ToolResult => s.(startedAt := at, toolResultAt := Some(at)))
  }

  function RearmCancelledRestart(s: Detector, at: real): Detector {
    if !s.phase.Restarted? || s.waits.IsTerminal() then s else OpenInterval(s.(startedAt := at))
  }

  function RecordToolStarted(s: Detector, at: real): Detector {
    var waits := s.waits.(openToolCount := s.waits.openToolCount + 1);
    RecordHeartbeat(s.(waits := waits), Item, at)
  }

  function RecordToolResult(s: Detector, at: real): Detector {
    var open := s.waits.openToolCount;
    RecordHeartbeat(s.(waits := s.waits.(openToolCount := if open == 0 then 0 else open - 1)), ToolResult, at)
  }

  function SetWaits(s: Detector, waits: WaitState, at: real, resumeConfirmed: bool): Detector {
    if waits.IsTerminal() then s.(phase := Ended, waits := waits)
    else if waits.IsPaused() then s.(phase := OnHold, waits := waits)
    else if s.waits.IsPaused() && !resumeConfirmed then s.(phase := OnHold)
    else if !s.waits.IsPaused() then s.(waits := waits)
    else OpenInterval(s.(waits := waits, startedAt := at))
  }

  function EvaluateGate(s: Detector, now: real, warning: real, restart: real, gate: RestartGate): (Detector, Request) {
    var elapsed := now - Latest(s);
    if s.waits.IsTerminal() then (s.(phase := Ended), StopRequest)
    else if s.waits.IsPaused() then (s.(phase := OnHold), NoRequest)
    else if elapsed < warning then (s.(phase := Calm), NoRequest)
    else if !s.warningEmitted then (s.(phase := Warned, warningEmitted := true), WarningRequest)
    else if elapsed < restart then (s.(phase := Warned), NoRequest)
    else if gate.Effective() && !s.phase.Restarted? then
      (s.(phase := Restarted, restartEligibilityEmitted := true), AutoRestart)
    else if !s.restartEligibilityEmitted then
      (s.(phase := RestartEligible, restartEligibilityEmitted := true), RestartLimited)
    else (s, NoRequest)
  }

  datatype Input =
    | Heartbeat(kind: ProgressKind)
    | Rearm
    | ToolStarted
    | ToolFinished
    | WaitsSet(waits: WaitState, resumeConfirmed: bool)
    | Poll(warning: real, restart: real, gate: RestartGate)

  /** One input at one clock reading. */
  function React(s: Detector, input: Input, at: real): (Detector, Request) {
    match input
    case Heartbeat(kind) => (RecordHeartbeat(s, kind, at), NoRequest)
    case Rearm => (RearmCancelledRestart(s, at), NoRequest)
    case ToolStarted => (RecordToolStarted(s, at), NoRequest)
    case ToolFinished => (RecordToolResult(s, at), NoRequest)
    case WaitsSet(waits, resumeConfirmed) => (SetWaits(s, waits, at, resumeConfirmed), NoRequest)
    case Poll(warning, restart, gate) => EvaluateGate(s, at, warning, restart, gate)
  }

  predicate Steps(states: seq<Detector>, inputs: seq<Input>, times: seq<real>, i: nat)
    requires i < |inputs| && i < |times| && i + 1 < |states|
  {
    states[i + 1] == React(states[i], inputs[i], times[i]).0
  }

  ghost predicate IsTrace(states: seq<Detector>, inputs: seq<Input>, times: seq<real>) {
    && |states| == |inputs| + 1 && |times| == |inputs|
    && (exists at :: states[0] == Initial(at) && (|times| > 0 ==> at <= times[0]))
    && forall i :: 0 <= i < |inputs| ==> Steps(states, inputs, times, i)
  }

  ghost predicate Nondecreasing(times: seq<real>) {
    forall i, j :: 0 <= i <= j < |times| ==> times[i] <= times[j]
  }

  ghost predicate FixedThresholds(inputs: seq<Input>, warning: real, restart: real) {
    0.0 < warning < restart
    && forall i :: 0 <= i < |inputs| && inputs[i].Poll? ==> inputs[i].warning == warning && inputs[i].restart == restart
  }

  /** A terminal wait is never replaced by a wait that is not terminal. */
  ghost predicate TerminalKept(states: seq<Detector>, inputs: seq<Input>)
    requires |states| == |inputs| + 1
  {
    forall i :: 0 <= i < |inputs| && inputs[i].WaitsSet? && states[i].waits.IsTerminal() ==>
      inputs[i].waits.IsTerminal()
  }

  // ---------- when an interval restarts again ----------

  /** From Restarted the detector goes to another phase of the same interval: a poll under a wait or before a
      threshold, or a wait that is set or stays. */
  predicate Drops(s: Detector, input: Input, at: real) {
    match input
    case Poll(warning, restart, _) =>
      s.waits.IsTerminal() || s.waits.IsPaused() || at - Latest(s) < warning || at - Latest(s) < restart
    case WaitsSet(waits, resumeConfirmed) =>
      waits.IsTerminal() || waits.IsPaused() || (s.waits.IsPaused() && !resumeConfirmed)
    case _ => false
  }

  /** A poll that may restart: no wait, past both thresholds, and an effective gate. */
  predicate Ripe(s: Detector, input: Input, at: real) {
    input.Poll? && !s.waits.IsTerminal() && !s.waits.IsPaused() && input.gate.Effective()
    && at - Latest(s) >= input.warning && at - Latest(s) >= input.restart
  }

  predicate Restarts(states: seq<Detector>, inputs: seq<Input>, times: seq<real>, i: nat)
    requires i < |inputs| && i < |states| && i < |times|
  {
    React(states[i], inputs[i], times[i]).1.AutoRestart?
  }

  lemma {:induction false} SequenceMonotone(states: seq<Detector>, inputs: seq<Input>, times: seq<real>, i: nat, j: nat)
    requires IsTrace(states, inputs, times) && i <= j < |states|
    ensures states[i].sequence <= states[j].sequence
    decreases j
  {
    if i < j {
      SequenceMonotone(states, inputs, times, i, j - 1);
      assert Steps(states, inputs, times, j - 1);
    }
  }

  /** Within one interval the flags stay, and the phase is Restarted until a step drops it. */
  ghost predicate Since(states: seq<Detector>, inputs: seq<Input>, times: seq<real>, i: nat, j: nat)
    requires |states| == |inputs| + 1 && |times| == |inputs| && i < j < |states|
  {
    && states[j].warningEmitted && states[j].restartEligibilityEmitted
    && (states[j].phase.Restarted? <==> forall k :: i < k < j ==> !Drops(states[k], inputs[k], times[k]))
  }

  lemma SinceStep(states: seq<Detector>, inputs: seq<Input>, times: seq<real>, i: nat, j: nat)
    requires IsTrace(states, inputs, times) && i < j < |inputs| && Since(states, inputs, times, i, j)
    requires states[j + 1].sequence == states[j].sequence && !Restarts(states, inputs, times, j)
    ensures Since(states, inputs, times, i, j + 1)
  {
    assert Steps(states, inputs, times, j);
    assert (forall k :: i < k < j + 1 ==> !Drops(states[k], inputs[k], times[k])) <==>
      !Drops(states[j], inputs[j], times[j]) && forall k :: i < k < j ==> !Drops(states[k], inputs[k], times[k]);
  }

  lemma SinceFirst(states: seq<Detector>, inputs: seq<Input>, times: seq<real>, i: nat)
    requires IsTrace(states, inputs, times) && i < |inputs| && Restarts(states, inputs, times, i)
    ensures Since(states, inputs, times, i, i + 1)
  {
    assert Steps(states, inputs, times, i);
  }

  lemma {:induction false} SinceRestart(states: seq<Detector>, inputs: seq<Input>, times: seq<real>, i: nat, j: nat)
    requires IsTrace(states, inputs, times) && i < j < |states| && Restarts(states, inputs, times, i)
    requires states[j].sequence == states[i].sequence
    requires forall k :: i < k < j ==> !Restarts(states, inputs, times, k)
    ensures Since(states, inputs, times, i, j)
    decreases j
  {
    if i + 1 == j {
      SinceFirst(states, inputs, times, i);
    } else {
      SequenceMonotone(states, inputs, times, i, j - 1);
      SequenceMonotone(states, inputs, times, j - 1, j);
      SinceRestart(states, inputs, times, i, j - 1);
      SinceStep(states, inputs, times, i, j - 1);
    }
  }

  /** After a restart, a later step of the same interval is the next restart exactly when it is a ripe poll and some
      step in between dropped the phase. */
  lemma RestartsAgainExactly(states: seq<Detector>, inputs: seq<Input>, times: seq<real>, i: nat, j: nat)
    requires IsTrace(states, inputs, times) && i < j < |inputs| && Restarts(states, inputs, times, i)
    requires states[j].sequence == states[i].sequence
    requires forall k :: i < k < j ==> !Restarts(states, inputs, times, k)
    ensures Restarts(states, inputs, times, j) <==>
      Ripe(states[j], inputs[j], times[j]) && exists k :: i < k < j && Drops(states[k], inputs[k], times[k])
  {
    SinceRestart(states, inputs, times, i, j);
  }

  /** What can lie between two restarts of one interval: a poll without waits before one of its thresholds, a terminal
      wait set or standing, or a clock reading before the latest progress. */
  predicate Loosens(s: Detector, input: Input, at: real) {
    || (input.Poll? && !s.waits.IsTerminal() && !s.waits.IsPaused()
        && (at - Latest(s) < input.warning || at - Latest(s) < input.restart))
    || (input.WaitsSet? && input.waits.IsTerminal())
    || s.waits.IsTerminal()
    || at < Latest(s)
  }

  /** Until something loosens it, a restarted interval is paused or in the phase Restarted. */
  ghost predicate Held(s: Detector, sequence: nat) {
    s.sequence > sequence
    || (s.sequence == sequence && s.warningEmitted && s.restartEligibilityEmitted
        && !s.waits.IsTerminal() && (s.waits.IsPaused() || s.phase.Restarted?))
  }

  lemma {:induction false} HeldUntilLoosened(states: seq<Detector>, inputs: seq<Input>, times: seq<real>,
                                             i: nat, j: nat)
    requires IsTrace(states, inputs, times) && i < j < |states| && Restarts(states, inputs, times, i)
    requires forall k :: i < k < j ==> !Loosens(states[k], inputs[k], times[k])
    ensures Held(states[j], states[i].sequence)
    decreases j
  {
    var k := j - 1;
    assert Steps(states, inputs, times, k);
    if i < k {
      HeldUntilLoosened(states, inputs, times, i, k);
      assert !Loosens(states[k], inputs[k], times[k]);
    }
  }

  /** Whatever the clock, the thresholds and the waits do: between two restarts of one interval something loosened it.
      */
  lemma SecondRestartLoosened(states: seq<Detector>, inputs: seq<Input>, times: seq<real>, i: nat, j: nat)
    returns (k: nat)
    requires IsTrace(states, inputs, times) && i < j < |inputs|
    requires Restarts(states, inputs, times, i) && Restarts(states, inputs, times, j)
    requires states[i].sequence == states[j].sequence
    ensures i < k < j && Loosens(states[k], inputs[k], times[k])
  {
    if forall k :: i < k < j ==> !Loosens(states[k], inputs[k], times[k]) {
      HeldUntilLoosened(states, inputs, times, i, j);
      assert false;
    }
    k :| i < k < j && Loosens(states[k], inputs[k], times[k]);
  }

  // ---------- when a request is due ----------

  /** A poll without waits at least `threshold` after the latest progress. */
  predicate Silent(s: Detector, input: Input, at: real, threshold: real) {
    input.Poll? && !s.waits.IsTerminal() && !s.waits.IsPaused() && at - Latest(s) >= threshold
  }

  function RequestAt(states: seq<Detector>, inputs: seq<Input>, times: seq<real>, i: nat): Request
    requires i < |inputs| && i < |states| && i < |times|
  {
    React(states[i], inputs[i], times[i]).1
  }

  /** An earlier step of the running interval made the request. */
  ghost predicate AskedBefore(states: seq<Detector>, inputs: seq<Input>, times: seq<real>, n: nat, request: Request)
    requires |states| == |inputs| + 1 && |times| == |inputs| && n < |states|
  {
    exists i :: 0 <= i < n && RequestAt(states, inputs, times, i) == request && states[i].sequence == states[n].sequence
  }

  lemma AskedStep(states: seq<Detector>, inputs: seq<Input>, times: seq<real>, n: nat, request: Request)
    requires IsTrace(states, inputs, times) && n < |inputs|
    ensures AskedBefore(states, inputs, times, n + 1, request) <==>
      states[n + 1].sequence == states[n].sequence
      && (AskedBefore(states, inputs, times, n, request) || RequestAt(states, inputs, times, n) == request)
  {
    SequenceMonotone(states, inputs, times, n, n + 1);
    if AskedBefore(states, inputs, times, n + 1, request) {
      var i :| 0 <= i < n + 1 && RequestAt(states, inputs, times, i) == request
        && states[i].sequence == states[n + 1].sequence;
      SequenceMonotone(states, inputs, times, i, n);
    }
  }

  /** What one step does to the flags: they are set by their requests and cleared by a new interval. */
  lemma FlagsStep(s: Detector, input: Input, at: real)
    ensures
      var (t, request) := React(s, input, at);
      && (t.sequence == s.sequence || t.sequence == s.sequence + 1)
      && (t.warningEmitted <==> t.sequence == s.sequence && (s.warningEmitted || request.WarningRequest?))
      && (t.restartEligibilityEmitted <==>
           t.sequence == s.sequence
           && (s.restartEligibilityEmitted || request.AutoRestart? || request.RestartLimited?))
      && (t.phase.Restarted? ==> t.sequence == s.sequence && (s.phase.Restarted? || request.AutoRestart?))
  {
  }

  lemma {:induction false} FlagsMean(states: seq<Detector>, inputs: seq<Input>, times: seq<real>, n: nat)
    requires IsTrace(states, inputs, times) && n < |states|
    ensures states[n].warningEmitted <==> AskedBefore(states, inputs, times, n, WarningRequest)
    ensures states[n].restartEligibilityEmitted <==>
      AskedBefore(states, inputs, times, n, AutoRestart) || AskedBefore(states, inputs, times, n, RestartLimited)
    ensures states[n].phase.Restarted? ==> AskedBefore(states, inputs, times, n, AutoRestart)
  {
    if n > 0 {
      FlagsMean(states, inputs, times, n - 1);
      FlagsStep(states[n - 1], inputs[n - 1], times[n - 1]);
      assert Steps(states, inputs, times, n - 1);
      AskedStep(states, inputs, times, n - 1, WarningRequest);
      AskedStep(states, inputs, times, n - 1, AutoRestart);
      AskedStep(states, inputs, times, n - 1, RestartLimited);
    }
  }

  /** In every trace a poll warns exactly when no wait holds, progress has been missing for the warning threshold, and
      the interval has not been warned of yet. */
  lemma WarnsExactly(states: seq<Detector>, inputs: seq<Input>, times: seq<real>, n: nat)
    requires IsTrace(states, inputs, times) && n < |inputs|
    ensures RequestAt(states, inputs, times, n).WarningRequest? <==>
      inputs[n].Poll? && Silent(states[n], inputs[n], times[n], inputs[n].warning)
      && !AskedBefore(states, inputs, times, n, WarningRequest)
  {
    FlagsMean(states, inputs, times, n);
  }

  /** In an interval that has not restarted, a step restarts exactly when it is a ripe poll after a warning. */
  lemma FirstRestartExactly(states: seq<Detector>, inputs: seq<Input>, times: seq<real>, n: nat)
    requires IsTrace(states, inputs, times) && n < |inputs|
    requires !AskedBefore(states, inputs, times, n, AutoRestart)
    ensures RequestAt(states, inputs, times, n).AutoRestart? <==>
      Ripe(states[n], inputs[n], times[n]) && AskedBefore(states, inputs, times, n, WarningRequest)
  {
    FlagsMean(states, inputs, times, n);
  }

  /** No automatic restart is asked for unless every piece of evidence is there and exactly one sibling is eligible. */
  lemma RestartNeedsEvidence(s: Detector, input: Input, at: real)
    requires React(s, input, at).1.AutoRestart?
    ensures
      && input.Poll? && input.gate.requestedByUser && input.gate.capabilityReady
      && input.gate.latestEventCheckPassed && input.gate.targetGenerationVerified && input.gate.clockReliable
      && input.gate.eligibleSiblings == 1
  {
  }

  /** The limit is reported exactly once, when the gate is not effective and the interval has not restarted. */
  lemma LimitedExactly(states: seq<Detector>, inputs: seq<Input>, times: seq<real>, n: nat)
    requires IsTrace(states, inputs, times) && n < |inputs|
    ensures RequestAt(states, inputs, times, n).RestartLimited? <==>
      inputs[n].Poll? && !inputs[n].gate.Effective()
      && Silent(states[n], inputs[n], times[n], inputs[n].warning)
      && Silent(states[n], inputs[n], times[n], inputs[n].restart)
      && AskedBefore(states, inputs, times, n, WarningRequest)
      && !AskedBefore(states, inputs, times, n, AutoRestart)
      && !AskedBefore(states, inputs, times, n, RestartLimited)
  {
    FlagsMean(states, inputs, times, n);
  }

  /** A poll stops exactly under a terminal wait. */
  lemma StopsExactly(s: Detector, input: Input, at: real)
    ensures React(s, input, at).1.StopRequest? <==> input.Poll? && s.waits.IsTerminal()
  {
  }

  /** Progress that is neither late nor under a terminal wait becomes the latest and opens an interval; other progress
      changes nothing but the number of open tools. */
  lemma ProgressOpens(s: Detector, input: Input, at: real)
    requires input.Heartbeat? || input.ToolStarted? || input.ToolFinished?
    ensures
      var t := React(s, input, at).0;
      var accepted := !s.waits.IsTerminal() && at >= Latest(s);
      && Latest(t) == (if accepted then at else Latest(s))
      && t.sequence == s.sequence + (if accepted then 1 else 0)
      && t.waits == s.waits.(openToolCount :=
           if input.ToolStarted? then s.waits.openToolCount + 1
           else if input.ToolFinished? && s.waits.openToolCount > 0 then s.waits.openToolCount - 1
           else s.waits.openToolCount)
      && (accepted ==> t.phase == (if t.waits.IsPaused() then OnHold else Calm) && !t.warningEmitted
                       && !t.restartEligibilityEmitted)
      && (!accepted ==> t == s.(waits := t.waits))
  {
  }

  /** Which kind of progress was the latest is recorded: an item, also by a started tool, a delta, or a tool result. */
  lemma ProgressRecorded(s: Detector, input: Input, at: real)
    requires input.Heartbeat? || input.ToolStarted? || input.ToolFinished?
    requires !s.waits.IsTerminal() && at >= Latest(s)
    ensures
      var t := React(s, input, at).0;
      var kind := if input.Heartbeat? then input.kind else if input.ToolStarted? then Item else ToolResult;
      && t.itemAt == (if kind.Item? then Some(at) else s.itemAt)
      && t.deltaAt == (if kind.Delta? then Some(at) else s.deltaAt)
      && t.toolResultAt == (if kind.ToolResult? then Some(at) else s.toolResultAt)
  {
  }

  /** The phase that a poll leaves tells what it saw; a silence that was acted on already keeps its phase. */
  lemma PhaseAfterPoll(states: seq<Detector>, inputs: seq<Input>, times: seq<real>, n: nat)
    requires IsTrace(states, inputs, times) && n < |inputs| && inputs[n].Poll?
    ensures
      var (s, phase, request) := (states[n], states[n + 1].phase, RequestAt(states, inputs, times, n));
      && (s.waits.IsTerminal() ==> phase.Ended?)
      && (!s.waits.IsTerminal() && s.waits.IsPaused() ==> phase.OnHold?)
      && (!s.waits.IsTerminal() && !s.waits.IsPaused() && !Silent(s, inputs[n], times[n], inputs[n].warning) ==>
           phase.Calm?)
      && (request.WarningRequest? ==> phase.Warned?)
      && (request.AutoRestart? <==> phase.Restarted? && !s.phase.Restarted?)
      && (request.RestartLimited? ==> phase.RestartEligible?)
      && (request.NoRequest? && Silent(s, inputs[n], times[n], inputs[n].warning) ==>
           phase == if Silent(s, inputs[n], times[n], inputs[n].restart) then s.phase else Warned)
  {
    assert Steps(states, inputs, times, n);
  }

  /** A wait that is set holds until it is replaced or its confirmed end, which opens an interval. */
  lemma WaitsHold(s: Detector, waits: WaitState, at: real, resumeConfirmed: bool)
    ensures
      var t := SetWaits(s, waits, at, resumeConfirmed);
      var stays := s.waits.IsPaused() && !waits.IsTerminal() && !waits.IsPaused() && !resumeConfirmed;
      var resumes := s.waits.IsPaused() && !waits.IsTerminal() && !waits.IsPaused() && resumeConfirmed;
      && t.waits == (if stays then s.waits else waits)
      && t.sequence == s.sequence + (if resumes then 1 else 0)
      && (resumes ==> t.startedAt == at) && (!resumes ==> Latest(t) == Latest(s))
      && t.phase == (if waits.IsTerminal() then Ended else if waits.IsPaused() || stays then OnHold
                     else if resumes then Calm else s.phase)
  {
  }

  /** A cancelled restart is rearmed by opening an interval at the time of the cancellation. */
  lemma RearmOpens(s: Detector, at: real)
    ensures
      var t := RearmCancelledRestart(s, at);
      if s.phase.Restarted? && !s.waits.IsTerminal() then
        t.sequence == s.sequence + 1 && t.startedAt == at && t.waits == s.waits && !t.warningEmitted
      else t == s
  {
  }

  // ---------- hypotheses that leave at most one ----------

  lemma LatestStep(s: Detector, input: Input, at: real)
    requires Latest(s) <= at
    ensures Latest(React(s, input, at).0) <= at
  {
  }

  lemma {:induction false} LatestBound(states: seq<Detector>, inputs: seq<Input>, times: seq<real>, n: nat)
    requires IsTrace(states, inputs, times) && Nondecreasing(times) && n < |times|
    ensures Latest(states[n]) <= times[n]
  {
    if n > 0 {
      LatestBound(states, inputs, times, n - 1);
      LatestStep(states[n - 1], inputs[n - 1], times[n - 1]);
      assert Steps(states, inputs, times, n - 1);
      assert times[n - 1] <= times[n];
    }
  }

  lemma SameIntervalStep(s: Detector, input: Input, at: real)
    ensures React(s, input, at).0.sequence == s.sequence ==> Latest(React(s, input, at).0) == Latest(s)
    ensures s.sequence <= React(s, input, at).0.sequence
  {
  }

  /** Progress and resumption open intervals, so the latest progress stays where it is within one. */
  lemma {:induction false} LatestFixed(states: seq<Detector>, inputs: seq<Input>, times: seq<real>, i: nat, j: nat)
    requires IsTrace(states, inputs, times) && i <= j < |states| && states[i].sequence == states[j].sequence
    ensures Latest(states[j]) == Latest(states[i])
    decreases j
  {
    if i < j {
      SequenceMonotone(states, inputs, times, i, j - 1);
      SequenceMonotone(states, inputs, times, j - 1, j);
      LatestFixed(states, inputs, times, i, j - 1);
      SameIntervalStep(states[j - 1], inputs[j - 1], times[j - 1]);
      assert Steps(states, inputs, times, j - 1);
    }
  }

  lemma {:induction false} TerminalStays(states: seq<Detector>, inputs: seq<Input>, times: seq<real>, i: nat, j: nat)
    requires IsTrace(states, inputs, times) && TerminalKept(states, inputs)
    requires i <= j < |states| && states[i].waits.IsTerminal()
    ensures states[j].waits.IsTerminal()
    decreases j
  {
    if i < j {
      TerminalStays(states, inputs, times, i, j - 1);
      assert Steps(states, inputs, times, j - 1);
    }
  }

  /** With nondecreasing times, fixed thresholds and no withdrawn terminal wait nothing can loosen an interval, so it
      sees at most one automatic restart. */
  lemma AutoRestartOnce(states: seq<Detector>, inputs: seq<Input>, times: seq<real>,
                        warning: real, restart: real, i: nat, j: nat)
    requires IsTrace(states, inputs, times) && Nondecreasing(times)
    requires FixedThresholds(inputs, warning, restart) && TerminalKept(states, inputs)
    requires i < j < |inputs| && Restarts(states, inputs, times, i) && Restarts(states, inputs, times, j)
    ensures states[i].sequence < states[j].sequence
  {
    SequenceMonotone(states, inputs, times, i, j);
    if states[i].sequence == states[j].sequence {
      var k := SecondRestartLoosened(states, inputs, times, i, j);
      SequenceMonotone(states, inputs, times, i, k);
      SequenceMonotone(states, inputs, times, k, j);
      LatestFixed(states, inputs, times, i, k);
      LatestBound(states, inputs, times, k);
      if states[k].waits.IsTerminal() {
        TerminalStays(states, inputs, times, k, j);
      } else if inputs[k].WaitsSet? && inputs[k].waits.IsTerminal() {
        assert Steps(states, inputs, times, k);
        TerminalStays(states, inputs, times, k + 1, j);
      }
      assert false;
    }
  }

  const OPEN_GATE := RestartGate(true, true, true, true, true, 1)
  const NO_WAITS := WaitState(0, false, false, false, false)

  /** A detector that has just asked for its automatic restart at time 20. */
  function AfterRestart(): (s: Detector)
    ensures
      var warned := EvaluateGate(Initial(0.0), 6.0, 5.0, 10.0, OPEN_GATE).0;
      (s, AutoRestart) == EvaluateGate(warned, 20.0, 5.0, 10.0, OPEN_GATE)
  {
    Initial(0.0).(phase := Restarted, warningEmitted := true, restartEligibilityEmitted := true)
  }

  /** A withdrawn terminal wait can allow a second restart in the same interval. */
  lemma WithdrawnTerminalRestartsTwice()
    ensures
      var s0 := AfterRestart();
      var s1 := SetWaits(s0, NO_WAITS.(childTerminal := true), 20.0, true);
      var s2 := SetWaits(s1, NO_WAITS, 20.0, true);
      var (s3, request) := EvaluateGate(s2, 20.0, 5.0, 10.0, OPEN_GATE);
      request == AutoRestart && s3.sequence == s0.sequence
  {
  }

  /** Thresholds that are raised and lowered again can allow one. */
  lemma ChangedThresholdRestartsTwice()
    ensures
      var s0 := AfterRestart();
      var s1 := EvaluateGate(s0, 20.0, 30.0, 40.0, OPEN_GATE).0;
      var (s2, request) := EvaluateGate(s1, 20.0, 5.0, 10.0, OPEN_GATE);
      request == AutoRestart && s2.sequence == s0.sequence
  {
  }

  /** A clock reading that goes back can allow one. */
  lemma DecreasingTimeRestartsTwice()
    ensures
      var s0 := AfterRestart();
      var s1 := EvaluateGate(s0, 8.0, 5.0, 10.0, OPEN_GATE).0;
      var (s2, request) := EvaluateGate(s1, 20.0, 5.0, 10.0, OPEN_GATE);
      request == AutoRestart && s2.sequence == s0.sequence
  {
  }
}

/** The daemon's close protocol: admissions against shutdown, and the one report that every closer gets. */
module Lifecycle {
  import opened Options

  type Report = seq<string>

  /** The fields that the service lock protects. */
  datatype Life = Life(active: int, started: bool, finished: bool, owner: Option<nat>, report: Report)

  const OPEN := Life(0, false, false, None, [])

  // ---------- the locked regions ----------

  function BeginAdmission(l: Life): (Life, bool) {
    if l.started then (l, false) else (l.(active := l.active + 1), true)
  }

  function EndAdmission(l: Life): (Life, bool) {
    (l.(active := l.active - 1), l.started)
  }

  predicate Reentrant(l: Life, me: nat) {
    l.owner == Some(me) && !l.finished
  }

  datatype CloseStart = EmptyReport | MustWait | BecameOwner

  function StartClose(l: Life, me: nat): (Life, CloseStart) {
    if !l.started then (l.(started := true, owner := Some(me)), BecameOwner)
    else if Reentrant(l, me) then (l, EmptyReport)
    else (l, MustWait)
  }

  /** One look of a waiting caller: its report, or None when it has to go on waiting. */
  function WaitClosed(l: Life, me: nat): Option<Report> {
    if Reentrant(l, me) then Some([]) else if l.finished then Some(l.report) else None
  }

  function FinishClose(l: Life, report: Report): Life {
    l.(report := report, finished := true, owner := None)
  }

  // ---------- interleavings ----------

  /** Where a thread is in `close` or `wait_closed`. */
  datatype Place = Elsewhere | Draining | ClosingResources | Reporting(report: Report) | Awaiting

  /** `admitted` holds the running admissions, `closes` counts passes over the owned resources, and `returned` holds
      the reports that finished callers received. */
  datatype System = System(life: Life, admitted: set<nat>, places: map<nat, Place>, closes: nat,
                           returned: seq<Report>)

  const START := System(OPEN, {}, map[], 0, [])

  datatype Event =
    | Begin(admission: nat)
    | End(admission: nat)
    | CloseCalled(me: nat)
    | WaitCalled(me: nat)
    | NestedCall(me: nat)
    | Drained(me: nat)
    | ResourcesClosed(me: nat, report: Report)
    | Reported(me: nat)
    | Returned(me: nat)

  function PlaceOf(s: System, me: nat): Place {
    if me in s.places then s.places[me] else Elsewhere
  }

  predicate CanHappen(s: System, e: Event) {
    match e
    case Begin(a) => a !in s.admitted
    case End(a) => a in s.admitted
    case CloseCalled(me) => PlaceOf(s, me).Elsewhere?
    case WaitCalled(me) => PlaceOf(s, me).Elsewhere?
    case NestedCall(me) => PlaceOf(s, me).ClosingResources?
    case Drained(me) => PlaceOf(s, me).Draining? && s.life.active == 0
    case ResourcesClosed(me, _) => PlaceOf(s, me).ClosingResources?
    case Reported(me) => PlaceOf(s, me).Reporting?
    case Returned(me) => PlaceOf(s, me).Awaiting? && WaitClosed(s.life, me).Some?
  }

  function Happen(s: System, e: Event): System
    requires CanHappen(s, e)
  {
    match e
    case Begin(a) =>
      var (l, admitted) := BeginAdmission(s.life);
      s.(life := l, admitted := if admitted then s.admitted + {a} else s.admitted)
    case End(a) => s.(life := EndAdmission(s.life).0, admitted := s.admitted - {a})
    case CloseCalled(me) =>
      var (l, start) := StartClose(s.life, me);
      s.(life := l, places := s.places[me := if start.BecameOwner? then Draining else Awaiting])
    case WaitCalled(me) => s.(places := s.places[me := Awaiting])
    case NestedCall(me) => s.(life := StartClose(s.life, me).0)
    case Drained(me) => s.(places := s.places[me := ClosingResources])
    case ResourcesClosed(me, report) => s.(places := s.places[me := Reporting(report)], closes := s.closes + 1)
    case Reported(me) =>
      var report := s.places[me].report;
      s.(life := FinishClose(s.life, report), places := s.places[me := Elsewhere], returned := s.returned + [report])
    case Returned(me) =>
      s.(places := s.places[me := Elsewhere], returned := s.returned + [WaitClosed(s.life, me).value])
  }

  predicate Owning(p: Place) {
    p.Draining? || p.ClosingResources? || p.Reporting?
  }

  ghost predicate PlaceOk(s: System, me: nat) {
    && (Owning(PlaceOf(s, me)) <==> s.life.owner == Some(me))
    && (PlaceOf(s, me).ClosingResources? ==> s.life.active == 0 && s.closes == 0)
    && (PlaceOf(s, me).Reporting? ==> s.life.active == 0 && s.closes == 1)
    && (PlaceOf(s, me).Draining? ==> s.closes == 0)
  }

  ghost predicate Inv(s: System) {
    && s.life.active == |s.admitted|
    && (s.life.started <==> s.life.owner.Some? || s.life.finished)
    && !(s.life.owner.Some? && s.life.finished)
    && (s.life.finished ==> s.life.active == 0 && s.closes == 1)
    && (!s.life.started ==> s.closes == 0)
    && (forall me: nat :: PlaceOk(s, me))
    && (forall r :: r in s.returned ==> s.life.finished && r == s.life.report)
  }

  lemma EventKeepsInv(s: System, e: Event)
    requires Inv(s) && CanHappen(s, e)
    ensures Inv(Happen(s, e))
  {
    var t := Happen(s, e);
    forall me: nat
      ensures PlaceOk(t, me)
    {
      assert PlaceOk(s, me);
      match e {
        case Begin(_) =>
        case End(_) =>
        case _ => assert PlaceOk(s, e.me);
      }
    }
    if e.Begin? && !s.life.started {
      assert |s.admitted + {e.admission}| == |s.admitted| + 1;
    }
    if e.End? {
      assert |s.admitted - {e.admission}| == |s.admitted| - 1;
    }
    if !e.Begin? && !e.End? {
      assert PlaceOk(s, e.me);
    }
  }

  ghost predicate IsRun(states: seq<System>, events: seq<Event>) {
    && |states| == |events| + 1 && states[0] == START
    && forall i :: 0 <= i < |events| ==>
         CanHappen(states[i], events[i]) && states[i + 1] == Happen(states[i], events[i])
  }

  lemma {:induction false} RunInv(states: seq<System>, events: seq<Event>, n: nat)
    requires IsRun(states, events) && n < |states|
    ensures Inv(states[n])
  {
    if n == 0 {
      forall me: nat
        ensures PlaceOk(states[0], me)
      {
      }
    } else {
      RunInv(states, events, n - 1);
      EventKeepsInv(states[n - 1], events[n - 1]);
    }
  }

  /** Owned resources are closed at most once, by one thread, only while no admission is active. */
  lemma ResourcesClosedOnce(states: seq<System>, events: seq<Event>, i: nat, j: nat)
    requires IsRun(states, events) && i < |events| && j < |events|
    requires events[i].ResourcesClosed? && events[j].ResourcesClosed?
    ensures i == j && states[i].life.active == 0 && states[i].admitted == {}
  {
    var first, second := if i < j then i else j, if i < j then j else i;
    RunInv(states, events, first);
    RunInv(states, events, second);
    assert PlaceOk(states[first], events[first].me) && PlaceOk(states[second], events[second].me);
    if first < second {
      assert states[first + 1] == Happen(states[first], events[first]);
      ClosesMonotone(states, events, first + 1, second);
    }
    assert |states[i].admitted| == 0;
  }

  lemma {:induction false} ClosesMonotone(states: seq<System>, events: seq<Event>, i: nat, j: nat)
    requires IsRun(states, events) && i <= j < |states|
    ensures states[i].closes <= states[j].closes
    ensures states[i].life.started ==> states[j].life.started
    decreases j
  {
    if i < j {
      ClosesMonotone(states, events, i, j - 1);
      assert states[j] == Happen(states[j - 1], events[j - 1]);
    }
  }

  /** Once the resources are being closed, no admission is active and none can start, for the rest of the run. */
  lemma {:induction false} NoAdmissionAfterClose(states: seq<System>, events: seq<Event>, i: nat, j: nat)
    requires IsRun(states, events) && i < j < |states| && events[i].Drained?
    ensures states[j].life.active == 0 && states[j].admitted == {}
    ensures states[j].life.started && !BeginAdmission(states[j].life).1
    decreases j
  {
    RunInv(states, events, j);
    var s, e := states[j - 1], events[j - 1];
    assert states[j] == Happen(s, e);
    if i < j - 1 {
      NoAdmissionAfterClose(states, events, i, j - 1);
    } else {
      RunInv(states, events, i);
      assert PlaceOk(s, e.me);
    }
    assert |states[j].admitted| == 0;
  }

  /** Every finished caller of `close` or `wait_closed`, other than one nested in the closing itself, gets the same
      report: the one of the single pass over the resources. */
  lemma SameReport(states: seq<System>, events: seq<Event>, n: nat, a: Report, b: Report)
    requires IsRun(states, events) && n < |states| && a in states[n].returned && b in states[n].returned
    ensures a == b && a == states[n].life.report && states[n].closes == 1
  {
    RunInv(states, events, n);
  }

  /** Shutdown has started exactly when `close` has been called. */
  ghost predicate ClosedBefore(events: seq<Event>, n: nat)
    requires n <= |events|
  {
    exists k :: 0 <= k < n && events[k].CloseCalled?
  }

  lemma {:induction false} StartedExactly(states: seq<System>, events: seq<Event>, n: nat)
    requires IsRun(states, events) && n < |states|
    ensures states[n].life.started <==> ClosedBefore(events, n)
  {
    if n > 0 {
      StartedExactly(states, events, n - 1);
      RunInv(states, events, n - 1);
      var s, e := states[n - 1], events[n - 1];
      assert states[n] == Happen(s, e);
      if e.NestedCall? {
        assert PlaceOk(s, e.me);
      }
      if ClosedBefore(events, n) && !e.CloseCalled? {
        assert ClosedBefore(events, n - 1);
      }
    }
  }

  /** Over every run an admission is admitted exactly before the first call of `close`. */
  lemma AdmittedExactly(states: seq<System>, events: seq<Event>, i: nat)
    requires IsRun(states, events) && i < |events| && events[i].Begin?
    ensures events[i].admission in states[i + 1].admitted <==> !ClosedBefore(events, i)
    ensures states[i + 1].admitted ==
      states[i].admitted + (if ClosedBefore(events, i) then {} else {events[i].admission})
  {
    StartedExactly(states, events, i);
    assert states[i + 1] == Happen(states[i], events[i]);
    assert CanHappen(states[i], events[i]);
  }

  /** Over every run a leaving admission takes itself off the count, and learns of a shutdown exactly when `close` has
      been called. */
  lemma LeavingExactly(states: seq<System>, events: seq<Event>, i: nat)
    requires IsRun(states, events) && i < |events| && events[i].End?
    ensures EndAdmission(states[i].life).1 <==> ClosedBefore(events, i)
    ensures states[i + 1].admitted == states[i].admitted - {events[i].admission}
    ensures states[i + 1].life.active == |states[i].admitted| - 1
  {
    StartedExactly(states, events, i);
    RunInv(states, events, i);
    assert states[i + 1] == Happen(states[i], events[i]);
    assert CanHappen(states[i], events[i]);
  }

  /** The first caller of `close` becomes its owner and drains the admissions; every later one waits. */
  lemma FirstCallerOwns(states: seq<System>, events: seq<Event>, i: nat)
    requires IsRun(states, events) && i < |events| && events[i].CloseCalled?
    ensures
      var t := states[i + 1];
      if ClosedBefore(events, i) then PlaceOf(t, events[i].me).Awaiting? && t.life == states[i].life
      else PlaceOf(t, events[i].me).Draining? && t.life.owner == Some(events[i].me)
  {
    StartedExactly(states, events, i);
    RunInv(states, events, i);
    assert PlaceOk(states[i], events[i].me);
    assert states[i + 1] == Happen(states[i], events[i]);
    assert CanHappen(states[i], events[i]);
  }

  ghost predicate Closes(e: Event, report: Report) {
    e.ResourcesClosed? && e.report == report
  }

  /** What a closing thread is about to report, and what has been published, is the report of a pass over the
      resources. */
  lemma {:induction false} ReportOrigin(states: seq<System>, events: seq<Event>, n: nat)
    requires IsRun(states, events) && n < |states|
    ensures states[n].life.finished ==> exists i :: 0 <= i < n && Closes(events[i], states[n].life.report)
    ensures forall me :: PlaceOf(states[n], me).Reporting? ==>
      exists i :: 0 <= i < n && Closes(events[i], PlaceOf(states[n], me).report)
  {
    if n > 0 {
      ReportOrigin(states, events, n - 1);
      var s, e, t := states[n - 1], events[n - 1], states[n];
      RunInv(states, events, n - 1);
      assert t == Happen(s, e) && CanHappen(s, e);
      if e.ResourcesClosed? {
        assert Closes(events[n - 1], e.report);
      }
      forall me | PlaceOf(t, me).Reporting?
        ensures exists i :: 0 <= i < n && Closes(events[i], PlaceOf(t, me).report)
      {
        if !(e.ResourcesClosed? && e.me == me) {
          assert PlaceOf(s, me) == PlaceOf(t, me);
        }
      }
    }
  }

  /** The report that every finished caller gets is the one that the pass over the resources made. */
  lemma ReportIsOfThePass(states: seq<System>, events: seq<Event>, n: nat, report: Report)
    requires IsRun(states, events) && n < |states| && report in states[n].returned
    ensures exists i :: 0 <= i < n && Closes(events[i], report)
  {
    SameReport(states, events, n, report, report);
    RunInv(states, events, n);
    ReportOrigin(states, events, n);
  }

  /** What waiting means in every interleaving: the thread that closes gets an empty report at once; everybody else
      gets a report exactly when the closing has finished, and then the one of the single pass over the resources. */
  lemma WaitingMeans(states: seq<System>, events: seq<Event>, n: nat, me: nat)
    requires IsRun(states, events) && n < |states|
    ensures
      var (s, report) := (states[n], WaitClosed(states[n].life, me));
      if Owning(PlaceOf(s, me)) then report == Some([])
      else (report.Some? <==> s.life.finished)
           && (report.Some? ==> report.value == s.life.report && s.closes == 1 && s.admitted == {})
  {
    RunInv(states, events, n);
    var s := states[n];
    assert PlaceOk(s, me);
    assert s.life.finished ==> |s.admitted| == 0;
  }

  /** A nested call of `close` or `wait_closed` from inside the closing returns at once with an empty report and
      changes nothing. */
  lemma NestedCallReturns(states: seq<System>, events: seq<Event>, i: nat)
    requires IsRun(states, events) && i < |events| && events[i].NestedCall?
    ensures StartClose(states[i].life, events[i].me).1.EmptyReport?
    ensures WaitClosed(states[i].life, events[i].me) == Some([])
    ensures states[i + 1] == states[i]
  {
    RunInv(states, events, i);
    assert PlaceOk(states[i], events[i].me);
  }

  // ---------- the class ----------

  class DaemonLifecycle {
    var activeAdmissions: int
    var closeStarted: bool
    var closeFinished: bool
    var closeOwner: Option<nat>
    var closeReport: Report

    ghost function State(): Life
      reads this
    {
      Life(activeAdmissions, closeStarted, closeFinished, closeOwner, closeReport)
    }

    constructor ()
      ensures State() == OPEN
    {
      activeAdmissions, closeStarted, closeFinished, closeOwner, closeReport := 0, false, false, None, [];
    }

    method TryBeginAdmission() returns (admitted: bool)
      modifies this
      ensures (State(), admitted) == BeginAdmission(old(State()))
    {
      if closeStarted {
        return false;
      }
      activeAdmissions := activeAdmissions + 1;
      return true;
    }

    method ReleaseAdmission() returns (closing: bool)
      modifies this
      ensures (State(), closing) == EndAdmission(old(State()))
    {
      activeAdmissions := activeAdmissions - 1;
      closing := closeStarted;
    }

    method TryWaitClosed(me: nat) returns (report: Option<Report>)
      ensures report == WaitClosed(State(), me)
    {
      if closeOwner == Some(me) && !closeFinished {
        return Some([]);
      }
      if !closeFinished {
        return None;
      }
      return Some(closeReport);
    }

    method TryClose(me: nat) returns (start: CloseStart)
      modifies this
      ensures (State(), start) == StartClose(old(State()), me)
    {
      if closeStarted {
        if closeOwner == Some(me) && !closeFinished {
          return EmptyReport;
        }
        return MustWait;
      }
      closeStarted := true;
      closeOwner := Some(me);
      return BecameOwner;
    }

    method PublishReport(report: Report)
      modifies this
      ensures State() == FinishClose(old(State()), report)
    {
      closeReport := report;
      closeFinished := true;
      closeOwner := None;
    }
  }

  // ---------- bounded diagnostics ----------

  const MAX_DIAGNOSTICS: nat := 3
  const OVERFLOW := "additional_close_failures"

  /** At most three diagnostics; further ones collapse into the last. */
  function Bounded(reasons: seq<string>): (d: seq<string>)
    ensures |d| <= MAX_DIAGNOSTICS && (d == [] <==> reasons == [])
  {
    if |reasons| <= MAX_DIAGNOSTICS then reasons else reasons[..MAX_DIAGNOSTICS - 1] + [OVERFLOW]
  }

  function AppendReason(diagnostics: seq<string>, reason: string): seq<string> {
    if |diagnostics| >= MAX_DIAGNOSTICS then diagnostics[..|diagnostics| - 1] + [OVERFLOW] else diagnostics + [reason]
  }

  /** Up to three failures are reported as they are; of more, the first two and that there were others. */
  lemma BoundedKeepsFirst(reasons: seq<string>)
    ensures |reasons| <= MAX_DIAGNOSTICS ==> Bounded(reasons) == reasons
    ensures |reasons| > MAX_DIAGNOSTICS ==>
      |Bounded(reasons)| == MAX_DIAGNOSTICS && Bounded(reasons)[..2] == reasons[..2] && Bounded(reasons)[2] == OVERFLOW
  {
  }

  lemma AppendIsBounded(reasons: seq<string>, reason: string)
    ensures AppendReason(Bounded(reasons), reason) == Bounded(reasons + [reason])
  {
  }

  /** Bounding a part first does not change the bounded whole. */
  lemma BoundedCompose(a: seq<string>, b: seq<string>)
    ensures Bounded(a + Bounded(b)) == Bounded(a + b)
  {
  }

  /** The failures of a sequence of close attempts, in order. */
  function Failures(outcomes: seq<Option<string>>): seq<string> {
    if outcomes == [] then []
    else
      var init, last := Failures(outcomes[..|outcomes| - 1]), outcomes[|outcomes| - 1];
      if last.Some? then init + [last.value] else init
  }

  /** Close every task and then the client without stopping at failures; the report is the bounded list of all of
      them. */
  method CloseDetached(tasks: seq<Option<string>>, client: Option<Option<string>>) returns (report: Report)
    ensures report == Bounded(Failures(tasks + if client.Some? then [client.value] else []))
  {
    report := [];
    var i := 0;
    while i < |tasks|
      invariant 0 <= i <= |tasks|
      invariant report == Bounded(Failures(tasks[..i]))
    {
      assert tasks[..i + 1][..i] == tasks[..i];
      if tasks[i].Some? {
        AppendIsBounded(Failures(tasks[..i]), tasks[i].value);
        report := AppendReason(report, tasks[i].value);
      }
      i := i + 1;
    }
    assert tasks[..i] == tasks;
    if client.Some? {
      assert (tasks + [client.value])[..|tasks|] == tasks;
      if client.value.Some? {
        AppendIsBounded(Failures(tasks), client.value.value);
        report := AppendReason(report, client.value.value);
      }
    } else {
      assert tasks + [] == tasks;
    }
  }

  lemma FailuresOfTwo(a: Option<string>, b: Option<string>)
    ensures Failures([a, b]) == (if a.Some? then [a.value] else []) + (if b.Some? then [b.value] else [])
  {
    assert [a, b][..1] == [a] && [a][..0] == [];
    assert Failures([a]) == Failures([]) + if a.Some? then [a.value] else [];
  }

  /** Stopping the scheduler, detaching, and closing what was detached: one bounded report over all failures. */
  method CloseOwnedResources(scheduler: Option<string>, registry: Option<string>,
                             tasks: seq<Option<string>>, client: Option<Option<string>>) returns (report: Report)
    ensures
      var detached := if registry.Some? then [] else tasks + if client.Some? then [client.value] else [];
      report == Bounded(Failures([scheduler, registry]) + Failures(detached))
  {
    var diagnostics: seq<string> := [];
    if scheduler.Some? {
      diagnostics := AppendReason(diagnostics, scheduler.value);
    }
    var detachedTasks, detachedClient := tasks, client;
    if registry.Some? {
      diagnostics := AppendReason(diagnostics, registry.value);
      detachedTasks, detachedClient := [], None;
    }
    var own := diagnostics;
    FailuresOfTwo(scheduler, registry);
    assert own == Failures([scheduler, registry]);
    var rest := CloseDetached(detachedTasks, detachedClient);
    BoundedCompose(own, Failures(detachedTasks + if detachedClient.Some? then [detachedClient.value] else []));
    report := AppendAll(own, rest);
  }

  method AppendAll(own: seq<string>, rest: seq<string>) returns (diagnostics: seq<string>)
    requires |own| <= MAX_DIAGNOSTICS
    ensures diagnostics == Bounded(own + rest)
  {
    diagnostics := own;
    assert own + rest[..0] == own;
    var i := 0;
    while i < |rest|
      invariant 0 <= i <= |rest|
      invariant diagnostics == Bounded(own + rest[..i])
    {
      AppendIsBounded(own + rest[..i], rest[i]);
      assert own + rest[..i + 1] == own + rest[..i] + [rest[i]];
      diagnostics := AppendReason(diagnostics, rest[i]);
      i := i + 1;
    }
    assert rest[..i] == rest;
  }
}

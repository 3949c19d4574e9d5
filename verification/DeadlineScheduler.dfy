/** The keyed deadline scheduler: a heap with lazy deletion that refines a map from key to latest entry. */
module DeadlineScheduling {
  import opened HeapQueue
  import opened Options

  datatype Health = Healthy | Degraded | Fatal

  datatype Rejection = KeyMissing | Unavailable | SchedulerClosed

  /** What one locked attempt of the worker concludes. */
  datatype Outcome = Ready(entry: Entry) | Sleep(remaining: real) | Idle | Stopped

  /** What the scheduler means: for every live key, its latest entry. */
  datatype Agenda = Agenda(pending: map<string, Entry>, sequence: nat, closed: bool, health: Health)

  datatype Action =
    | Schedule(key: string, deadline: real, callback: nat)
    | Cancel(key: string)
    | Close
    | MarkFatal
    | CallbackFailed
    | CallbackSucceeded
    | Dispatch(entry: Entry, now: real)
    | Rest

  const EMPTY_AGENDA := Agenda(map[], 0, false, Healthy)

  predicate Accepts(s: Agenda, key: string) {
    key != "" && !s.health.Fatal? && !s.closed
  }

  function NewEntry(s: Agenda, key: string, deadline: real, callback: nat): Entry {
    Entry(deadline, s.sequence + 1, key, s.sequence + 1, callback)
  }

  /** `e` is live and no live entry comes before it. */
  ghost predicate EarliestLive(pending: map<string, Entry>, e: Entry) {
    && e.key in pending && pending[e.key] == e
    && forall k :: k in pending ==> !Before(pending[k], e)
  }

  /** The scheduler's meaning, one atomic region at a time. */
  ghost predicate Next(s: Agenda, a: Action, t: Agenda) {
    match a
    case Schedule(key, deadline, callback) =>
      Accepts(s, key)
      && t == s.(sequence := s.sequence + 1,
                 pending := s.pending[key := NewEntry(s, key, deadline, callback)])
    case Cancel(key) => t == s.(pending := s.pending - {key})
    case Close => t == s.(closed := true, pending := map[])
    case MarkFatal => t == s.(health := Fatal, pending := map[])
    case CallbackFailed => t == s.(health := if s.health.Healthy? then Degraded else s.health)
    case CallbackSucceeded => t == s.(health := if s.health.Degraded? then Healthy else s.health)
    case Dispatch(e, now) =>
      !s.closed && EarliestLive(s.pending, e) && e.deadline <= now
      && t == s.(pending := s.pending - {e.key})
    case Rest => t == s
  }

  ghost predicate IsRun(states: seq<Agenda>, acts: seq<Action>) {
    && |states| == |acts| + 1
    && states[0] == EMPTY_AGENDA
    && forall i :: 0 <= i < |acts| ==> Next(states[i], acts[i], states[i + 1])
  }

  /** Live entries carry their own key, and no two of them share a generation. */
  ghost predicate AgendaInv(s: Agenda) {
    && (forall k :: k in s.pending ==>
         var e := s.pending[k];
         e.key == k && e.generation == e.sequence && 1 <= e.sequence <= s.sequence)
    && (forall k, l :: k in s.pending && l in s.pending && s.pending[k].sequence == s.pending[l].sequence ==> k == l)
    && (s.closed || s.health.Fatal? ==> s.pending == map[])
  }

  lemma {:induction false} RunInv(states: seq<Agenda>, acts: seq<Action>, n: nat)
    requires IsRun(states, acts) && n < |states|
    ensures AgendaInv(states[n])
  {
    if n > 0 {
      RunInv(states, acts, n - 1);
      assert Next(states[n - 1], acts[n - 1], states[n]);
    }
  }

  lemma {:induction false} SequenceMonotone(states: seq<Agenda>, acts: seq<Action>, i: nat, j: nat)
    requires IsRun(states, acts) && i <= j < |states|
    ensures states[i].sequence <= states[j].sequence
    decreases j - i
  {
    if i < j {
      assert Next(states[j - 1], acts[j - 1], states[j]);
      SequenceMonotone(states, acts, i, j - 1);
    }
  }

  /** Step `i` is the call that created `e`. */
  ghost predicate CreatedAt(states: seq<Agenda>, acts: seq<Action>, i: nat, e: Entry)
    requires |states| == |acts| + 1 && i < |acts|
  {
    acts[i] == Schedule(e.key, e.deadline, e.callback) && e == NewEntry(states[i], e.key, e.deadline, e.callback)
  }

  /** Cancellation, replacement, shutdown or an earlier hand-out of `e`. */
  predicate Retires(a: Action, e: Entry) {
    match a
    case Schedule(key, _, _) => key == e.key
    case Cancel(key) => key == e.key
    case Close => true
    case MarkFatal => true
    case Dispatch(d, _) => d.generation == e.generation
    case _ => false
  }

  /** After one step, a live entry is the one just scheduled, or was live before and is not retired by the step. */
  lemma LiveAfterStep(s: Agenda, a: Action, t: Agenda, k: string)
    requires AgendaInv(s) && Next(s, a, t) && k in t.pending
    ensures
      if a.Schedule? && a.key == k then t.pending[k] == NewEntry(s, k, a.deadline, a.callback)
      else k in s.pending && t.pending[k] == s.pending[k] && !Retires(a, s.pending[k])
  {
    if a.Dispatch? {
      assert k != a.entry.key && s.pending[a.entry.key] == a.entry;
    }
  }

  /** A live entry goes back to one scheduling call, and nothing has retired it since. */
  lemma {:induction false} PendingOrigin(states: seq<Agenda>, acts: seq<Action>, n: nat, k: string) returns (i: nat)
    requires IsRun(states, acts) && n < |states| && k in states[n].pending
    ensures i < n && CreatedAt(states, acts, i, states[n].pending[k]) && states[n].pending[k].key == k
    ensures forall m :: i < m < n ==> !Retires(acts[m], states[n].pending[k])
  {
    assert n > 0;
    var s, a := states[n - 1], acts[n - 1];
    RunInv(states, acts, n - 1);
    LiveAfterStep(s, a, states[n], k);
    if a.Schedule? && a.key == k {
      i := n - 1;
    } else {
      i := PendingOrigin(states, acts, n - 1, k);
    }
  }

  /** A callback is handed out only at or after its deadline, ahead of every other live entry, and only if it was
      scheduled and has not been cancelled, replaced, closed away or handed out since. */
  lemma DispatchJustified(states: seq<Agenda>, acts: seq<Action>, j: nat) returns (i: nat)
    requires IsRun(states, acts) && j < |acts| && acts[j].Dispatch?
    ensures acts[j].entry.deadline <= acts[j].now
    ensures EarliestLive(states[j].pending, acts[j].entry)
    ensures forall k :: k in states[j].pending ==>
      var e := states[j].pending[k];
      acts[j].entry.deadline < e.deadline
      || (acts[j].entry.deadline == e.deadline && acts[j].entry.sequence <= e.sequence)
    ensures i < j && CreatedAt(states, acts, i, acts[j].entry)
    ensures forall m :: i < m < j ==> !Retires(acts[m], acts[j].entry)
  {
    assert Next(states[j], acts[j], states[j + 1]);
    i := PendingOrigin(states, acts, j, acts[j].entry.key);
  }

  /** No generation is handed out twice. */
  lemma DispatchedOnce(states: seq<Agenda>, acts: seq<Action>, i: nat, j: nat)
    requires IsRun(states, acts) && i < j < |acts| && acts[i].Dispatch? && acts[j].Dispatch?
    ensures acts[i].entry.generation != acts[j].entry.generation
  {
    var origin := DispatchJustified(states, acts, j);
    if i <= origin {
      RunInv(states, acts, i);
      assert Next(states[i], acts[i], states[i + 1]);
      SequenceMonotone(states, acts, i, origin);
    } else {
      assert !Retires(acts[i], acts[j].entry);
    }
  }

  /** A closed or failed scheduler never accepts or hands out work again. */
  lemma {:induction false} StoppedForever(states: seq<Agenda>, acts: seq<Action>, i: nat, j: nat)
    requires IsRun(states, acts) && i <= j < |acts|
    requires states[i].closed || states[i].health.Fatal?
    ensures states[j].closed || states[j].health.Fatal?
    ensures !acts[j].Schedule? && !acts[j].Dispatch?
    decreases j - i
  {
    RunInv(states, acts, j);
    assert Next(states[j], acts[j], states[j + 1]);
    if i < j {
      StoppedForever(states, acts, i, j - 1);
      assert Next(states[j - 1], acts[j - 1], states[j]);
    }
  }

  /** A keyed callback is accepted exactly until the scheduler is closed or fails. */
  ghost predicate Ended(acts: seq<Action>, n: nat)
    requires n <= |acts|
  {
    exists i :: 0 <= i < n && (acts[i].Close? || acts[i].MarkFatal?)
  }

  lemma {:induction false} AcceptedUntilEnded(states: seq<Agenda>, acts: seq<Action>, n: nat, key: string)
    requires IsRun(states, acts) && n < |states|
    ensures Accepts(states[n], key) <==> key != "" && !Ended(acts, n)
  {
    if n > 0 {
      AcceptedUntilEnded(states, acts, n - 1, key);
      assert Next(states[n - 1], acts[n - 1], states[n]);
      if Ended(acts, n) && !acts[n - 1].Close? && !acts[n - 1].MarkFatal? {
        assert Ended(acts, n - 1);
      }
    }
  }

  /** Whether the latest callback among the first `n` actions failed. */
  function LatestFailed(acts: seq<Action>, n: nat): bool
    requires n <= |acts|
  {
    n > 0 && (acts[n - 1].CallbackFailed? || (!acts[n - 1].CallbackSucceeded? && LatestFailed(acts, n - 1)))
  }

  ghost predicate FailedForGood(acts: seq<Action>, n: nat)
    requires n <= |acts|
  {
    exists i :: 0 <= i < n && acts[i].MarkFatal?
  }

  /** Over every run the health is fatal from the first fatal failure on, and otherwise degraded exactly when the
      latest callback failed. */
  lemma {:induction false} HealthFollows(states: seq<Agenda>, acts: seq<Action>, n: nat)
    requires IsRun(states, acts) && n < |states|
    ensures states[n].health.Fatal? <==> FailedForGood(acts, n)
    ensures !states[n].health.Fatal? ==> (states[n].health.Degraded? <==> LatestFailed(acts, n))
  {
    if n > 0 {
      HealthFollows(states, acts, n - 1);
      assert Next(states[n - 1], acts[n - 1], states[n]);
      if FailedForGood(acts, n) && !acts[n - 1].MarkFatal? {
        assert FailedForGood(acts, n - 1);
      }
    }
  }

  /** The index ties the heap and the generation map to the live entries. */
  ghost predicate Indexed(entries: seq<Entry>, generations: map<string, nat>, pending: map<string, Entry>,
                          sequence: nat)
  {
    && IsHeap(entries)
    && (forall e :: multiset(entries)[e] <= 1)
    && (forall e, f :: e in entries && f in entries && e.sequence == f.sequence ==> e == f)
    && (forall e :: e in entries ==> e.generation == e.sequence && 1 <= e.sequence <= sequence)
    && pending.Keys == generations.Keys
    && (forall k :: k in pending ==>
         pending[k] in entries && pending[k].key == k && pending[k].generation == generations[k])
  }

  predicate Live(generations: map<string, nat>, e: Entry) {
    e.key in generations && generations[e.key] == e.generation
  }

  /** Each live key has exactly one matching heap entry, and the matching entries are exactly the live ones. */
  lemma LiveEntryUnique(entries: seq<Entry>, generations: map<string, nat>, pending: map<string, Entry>,
                        sequence: nat, k: string)
    requires Indexed(entries, generations, pending, sequence)
    ensures k in generations ==>
      multiset(entries)[pending[k]] == 1
      && forall e :: e in entries && e.key == k && Live(generations, e) ==> e == pending[k]
    ensures k !in generations ==> forall e :: e in entries && e.key == k ==> !Live(generations, e)
  {
    if k in generations {
      assert pending[k] in multiset(entries);
    }
  }

  lemma IndexedPop(entries: seq<Entry>, rest: seq<Entry>, top: Entry, generations: map<string, nat>,
                   pending: map<string, Entry>, sequence: nat)
    requires Indexed(entries, generations, pending, sequence)
    requires IsHeap(rest) && multiset(entries) == multiset(rest) + multiset{top}
    ensures forall e :: e in rest <==> e in entries && e != top
    ensures !Live(generations, top) ==> Indexed(rest, generations, pending, sequence)
    ensures Live(generations, top) ==>
      pending[top.key] == top && Indexed(rest, generations - {top.key}, pending - {top.key}, sequence)
  {
    assert multiset(entries)[top] == 1;
    assert top in multiset(entries);
    forall e
      ensures e in rest <==> e in entries && e != top
      ensures multiset(rest)[e] <= 1
    {
      assert e in rest <==> e in multiset(rest);
      assert e in entries <==> e in multiset(entries);
      assert multiset(rest)[e] <= multiset(entries)[e];
    }
  }

  lemma IndexedPush(entries: seq<Entry>, pushed: seq<Entry>, entry: Entry, generations: map<string, nat>,
                    pending: map<string, Entry>, sequence: nat)
    requires Indexed(entries, generations, pending, sequence)
    requires entry.generation == entry.sequence == sequence + 1
    requires IsHeap(pushed) && multiset(pushed) == multiset(entries) + multiset{entry}
    requires forall e :: e in pushed <==> e in entries || e == entry
    ensures Indexed(pushed, generations[entry.key := sequence + 1], pending[entry.key := entry], sequence + 1)
  {
    assert entry !in entries;
    assert multiset(entries)[entry] == 0;
  }

  /** Push the newest entry of a key: it becomes the live one, and what it replaces stays in the heap, retired. */
  method PushNewest(entries: seq<Entry>, entry: Entry, ghost generations: map<string, nat>,
                    ghost pending: map<string, Entry>, ghost sequence: nat) returns (pushed: seq<Entry>)
    requires Indexed(entries, generations, pending, sequence)
    requires entry.generation == entry.sequence == sequence + 1
    ensures Indexed(pushed, generations[entry.key := sequence + 1], pending[entry.key := entry], sequence + 1)
  {
    pushed := HeapPush(entries, entry);
    IndexedPush(entries, pushed, entry, generations, pending, sequence);
  }

  class DeadlineScheduler {
    var entries: seq<Entry>
    var generations: map<string, nat>
    var sequence: nat
    var closed: bool
    var health: Health
    var callbackFailureCount: nat
    var lastCallbackError: Option<string>
    ghost var pending: map<string, Entry>

    ghost predicate Valid()
      reads this
    {
      && Indexed(entries, generations, pending, sequence)
      && (closed || health.Fatal? ==> entries == [] && generations == map[])
    }

    ghost function Meaning(): Agenda
      reads this
    {
      Agenda(pending, sequence, closed, health)
    }

    constructor ()
      ensures Valid() && Meaning() == EMPTY_AGENDA
      ensures callbackFailureCount == 0 && lastCallbackError == None
    {
      entries, generations, pending := [], map[], map[];
      sequence, closed, health := 0, false, Healthy;
      callbackFailureCount, lastCallbackError := 0, None;
    }

    method Schedule(key: string, deadline: real, callback: nat) returns (result: Result<(), Rejection>)
      requires Valid()
      modifies this
      ensures Valid()
      ensures result.Ok? <==> Accepts(old(Meaning()), key)
      ensures result.Ok? ==> Next(old(Meaning()), Action.Schedule(key, deadline, callback), Meaning())
      ensures result.Err? ==>
        Meaning() == old(Meaning())
        && result.error == (if key == "" then KeyMissing else if health.Fatal? then Unavailable else SchedulerClosed)
      ensures callbackFailureCount == old(callbackFailureCount) && lastCallbackError == old(lastCallbackError)
    {
      if key == "" {
        return Err(KeyMissing);
      }
      if health.Fatal? {
        return Err(Unavailable);
      }
      if closed {
        return Err(SchedulerClosed);
      }
      Admit(key, deadline, callback);
      return Ok(());
    }

    /** Number the entry, make it the live one of its key, and push it. */
    method Admit(key: string, deadline: real, callback: nat)
      requires Valid() && Accepts(Meaning(), key)
      modifies this`sequence, this`generations, this`entries, this`pending
      ensures Valid()
      ensures
        var entry := NewEntry(old(Meaning()), key, deadline, callback);
        Meaning() == old(Meaning()).(sequence := old(sequence) + 1, pending := old(pending)[key := entry])
    {
      var generation := sequence + 1;
      var entry := Entry(deadline, generation, key, generation, callback);
      var pushed := PushNewest(entries, entry, generations, pending, sequence);
      sequence := generation;
      generations := generations[key := generation];
      entries := pushed;
      pending := pending[key := entry];
    }

    method Cancel(key: string)
      requires Valid()
      modifies this`generations, this`pending
      ensures Valid() && Next(old(Meaning()), Action.Cancel(key), Meaning())
    {
      generations := generations - {key};
      pending := pending - {key};
    }

    method Close()
      requires Valid()
      modifies this`closed, this`generations, this`entries, this`pending
      ensures Valid() && Next(old(Meaning()), Action.Close, Meaning())
    {
      if !closed {
        closed := true;
        generations := map[];
        entries := [];
        pending := map[];
      }
    }

    method MarkFatal()
      requires Valid()
      modifies this`health, this`generations, this`entries, this`pending, this`lastCallbackError
      ensures Valid() && Next(old(Meaning()), Action.MarkFatal, Meaning())
      ensures lastCallbackError == Some("scheduler_fatal")
    {
      health := Fatal;
      entries := [];
      generations := map[];
      pending := map[];
      lastCallbackError := Some("scheduler_fatal");
    }

    method RecordCallbackFailure()
      requires Valid()
      modifies this`health, this`callbackFailureCount, this`lastCallbackError
      ensures Valid() && Next(old(Meaning()), Action.CallbackFailed, Meaning())
      ensures callbackFailureCount == old(callbackFailureCount) + 1 && lastCallbackError == Some("callback_failed")
    {
      callbackFailureCount := callbackFailureCount + 1;
      lastCallbackError := Some("callback_failed");
      if health.Healthy? {
        health := Degraded;
      }
    }

    method RecordCallbackSuccess()
      requires Valid()
      modifies this`health
      ensures Valid() && Next(old(Meaning()), Action.CallbackSucceeded, Meaning())
    {
      if health.Degraded? {
        health := Healthy;
      }
    }

    /** Drop retired entries from the root; the meaning does not change. */
    method DiscardStale()
      requires Valid()
      modifies this`entries
      ensures Valid()
      ensures |entries| <= |old(entries)|
      ensures entries != [] ==> Live(generations, entries[0])
    {
      while entries != []
        invariant Valid() && |entries| <= |old(entries)|
        decreases |entries|
      {
        var entry := entries[0];
        if Live(generations, entry) {
          return;
        }
        var top, rest := HeapPop(entries);
        IndexedPop(entries, rest, top, generations, pending, sequence);
        entries := rest;
      }
    }

    /** One locked attempt of the worker at clock reading `now`, up to a wait or a result. */
    method NextEntry(now: real) returns (outcome: Outcome)
      requires Valid()
      modifies this`entries, this`generations, this`pending
      ensures Valid()
      ensures outcome.Stopped? <==> old(closed)
      ensures outcome.Ready? ==> Next(old(Meaning()), Dispatch(outcome.entry, now), Meaning())
      ensures !outcome.Ready? ==> Next(old(Meaning()), Rest, Meaning())
      ensures outcome.Idle? ==> pending == map[]
      ensures outcome.Sleep? ==>
        outcome.remaining > 0.0
        && (exists k :: k in pending && pending[k].deadline == now + outcome.remaining)
        && (forall k :: k in pending ==> pending[k].deadline >= now + outcome.remaining)
    {
      if !closed {
        DiscardStale();
        if entries == [] {
          return Idle;
        }
        var entry := entries[0];
        LiveEntryUnique(entries, generations, pending, sequence, entry.key);
        var remaining := entry.deadline - now;
        var top, rest := HeapPop(entries);
        if remaining > 0.0 {
          assert pending[entry.key].deadline == now + remaining;
          return Sleep(remaining);
        }
        IndexedPop(entries, rest, top, generations, pending, sequence);
        entries := rest;
        if !Live(generations, entry) {
          assert false;
        }
        generations := generations - {entry.key};
        pending := pending - {entry.key};
        return Ready(entry);
      }
      return Stopped;
    }
  }
}

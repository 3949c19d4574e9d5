/** Keyed reservations: operations on the same key wait for each other. */
module Reservations {
  // ---------- the locked regions ----------

  /** One attempt to enter: a taken key is refused. */
  function Enter(active: set<string>, key: string): (set<string>, bool) {
    if key in active then (active, false) else (active + {key}, true)
  }

  function Leave(active: set<string>, key: string): set<string> {
    active - {key}
  }

  // ---------- interleavings ----------

  /** The reserved keys, and which thread holds which key. */
  datatype System = System(active: set<string>, holders: map<nat, string>)

  datatype Event = TryEnter(thread: nat, key: string) | Exit(thread: nat)

  const START := System({}, map[])

  predicate CanHappen(s: System, e: Event) {
    match e
    case TryEnter(thread, _) => thread !in s.holders
    case Exit(thread) => thread in s.holders
  }

  function Happen(s: System, e: Event): System
    requires CanHappen(s, e)
  {
    match e
    case TryEnter(thread, key) =>
      var (active, entered) := Enter(s.active, key);
      System(active, if entered then s.holders[thread := key] else s.holders)
    case Exit(thread) => System(Leave(s.active, s.holders[thread]), s.holders - {thread})
  }

  ghost predicate Inv(s: System) {
    && (forall key :: key in s.active <==> exists t :: t in s.holders && s.holders[t] == key)
    && (forall t, u :: t in s.holders && u in s.holders && s.holders[t] == s.holders[u] ==> t == u)
  }

  lemma EventKeepsInv(s: System, e: Event)
    requires Inv(s) && CanHappen(s, e)
    ensures Inv(Happen(s, e))
  {
    var r := Happen(s, e);
    forall key
      ensures key in r.active <==> exists t :: t in r.holders && r.holders[t] == key
    {
      if key in s.active {
        var t :| t in s.holders && s.holders[t] == key;
        assert t in r.holders ==> r.holders[t] == key;
      }
      if e.TryEnter? && e.key == key && key !in s.active {
        assert r.holders[e.thread] == key;
      }
    }
  }

  ghost predicate IsRun(states: seq<System>, events: seq<Event>) {
    && |states| == |events| + 1 && states[0] == START
    && forall i :: 0 <= i < |events| ==>
         CanHappen(states[i], events[i]) && states[i + 1] == Happen(states[i], events[i])
  }

  lemma {:induction false} RunInv(states: seq<System>, events: seq<Event>, n: nat)
    requires IsRun(states, events) && n < |states|
    ensures Inv(states[n])
  {
    if n > 0 {
      RunInv(states, events, n - 1);
      EventKeepsInv(states[n - 1], events[n - 1]);
    }
  }

  /** Over every run a key has at most one holder, and an attempt enters exactly when it has none. */
  lemma OneHolder(states: seq<System>, events: seq<Event>, n: nat, key: string)
    requires IsRun(states, events) && n < |states|
    ensures
      var holders := states[n].holders;
      && (forall t, u :: t in holders && u in holders && holders[t] == key && holders[u] == key ==> t == u)
      && (Enter(states[n].active, key).1 <==> forall t :: t in holders ==> holders[t] != key)
  {
    RunInv(states, events, n);
  }

  // ---------- the class ----------

  class KeyedReservations {
    var active: set<string>

    constructor ()
      ensures active == {}
    {
      active := {};
    }

    /** One attempt to enter; a caller whose key is taken waits and tries again. */
    method TryEnter(key: string) returns (entered: bool)
      modifies this
      ensures (active, entered) == Enter(old(active), key)
    {
      if key in active {
        return false;
      }
      active := active + {key};
      return true;
    }

    method Exit(key: string)
      requires key in active
      modifies this
      ensures active == Leave(old(active), key)
    {
      active := active - {key};
    }
  }
}

/** The shared client pool: reference tokens, their promotion and release, and the obligation to close. Every
    operation here is one region under the pool's lock. */
module ClientPool {
  import opened Options

  datatype TokenState = Borrowed | Installed | Closing

  /** Clients are numbered as the factory makes them, tokens as they enter the reference table. */
  datatype Record = Record(client: nat, state: TokenState)

  datatype Pooled = Vacant | Pooled(client: nat, fingerprint: string)

  /** Who holds the reservation of the pool's one key, and how far that borrower is. There is at most one holder,
      because reservations have at most one holder per key. */
  datatype Borrower = NoBorrower | Entered(fingerprint: string) | Creating(fingerprint: string) | Leaving | Failing

  datatype Error = AlreadyReleased | AlreadyCommitted | InstallUnderflow | ExecutableChanged | FactoryFailed

  /** The pool's state. Token numbers ascend in the table's insertion order; `failed` counts the borrowers whose
      factory call has failed and which have left the reservation, but whose handler has not run yet. */
  datatype Pool = Pool(refs: map<nat, Record>, pooled: Pooled, borrower: Borrower, nextToken: nat, created: nat,
                       failed: nat)

  const EMPTY_POOL := Pool(map[], Vacant, NoBorrower, 0, 0, 0)

  predicate Active(r: Record) {
    !r.state.Closing?
  }

  // ---------- the regions ----------

  /** The borrower that entered looks at the pooled client: it takes a token, fails, or goes on to create. */
  function Inspect(p: Pool): (Pool, Result<Option<nat>, Error>)
    requires p.borrower.Entered?
  {
    match p.pooled
    case Vacant => (p.(borrower := Creating(p.borrower.fingerprint)), Ok(None))
    case Pooled(client, fingerprint) =>
      if fingerprint != p.borrower.fingerprint then (p.(borrower := Leaving), Err(ExecutableChanged))
      else
        (p.(refs := p.refs[p.nextToken := Record(client, Borrowed)], nextToken := p.nextToken + 1, borrower := Leaving),
         Ok(Some(p.nextToken)))
  }

  /** The factory made client `p.created`: it is pooled under a first token. */
  function Publish(p: Pool): Pool
    requires p.borrower.Creating?
  {
    p.(pooled := Pooled(p.created, p.borrower.fingerprint), created := p.created + 1,
       refs := p.refs[p.nextToken := Record(p.created, Borrowed)], nextToken := p.nextToken + 1, borrower := Leaving)
  }

  /** The factory failed: the error first leaves the reservation. */
  function Abandon(p: Pool): Pool
    requires p.borrower.Creating?
  {
    p.(borrower := Failing)
  }

  function Leave(p: Pool): Pool {
    p.(borrower := NoBorrower, failed := p.failed + if p.borrower.Failing? then 1 else 0)
  }

  /** The failure handler, outside the reservation: it drops whatever is pooled by now, and closes it. */
  function Handler(p: Pool): Pool
    requires p.failed > 0
  {
    p.(pooled := Vacant, failed := p.failed - 1)
  }

  function Commit(p: Pool, t: nat): (Pool, Result<(), Error>) {
    if t !in p.refs then (p, Err(AlreadyReleased))
    else if p.refs[t].state.Installed? then (p, Err(AlreadyCommitted))
    else (p.(refs := p.refs[t := Record(p.refs[t].client, Installed)]), Ok(()))
  }

  predicate OtherActive(p: Pool, t: nat) {
    exists u :: u in p.refs && u != t && Active(p.refs[u])
  }

  /** Releasing a token: the last active one turns into the obligation to close the pooled client. */
  function Release(p: Pool, t: nat): (Pool, Option<nat>) {
    if t !in p.refs then (p, None)
    else if p.refs[t].state.Closing? then (p, Some(p.refs[t].client))
    else if OtherActive(p, t) || p.pooled.Vacant? then (p.(refs := p.refs - {t}), None)
    else
      (p.(refs := p.refs[t := Record(p.pooled.client, Closing)], pooled := Vacant), Some(p.pooled.client))
  }

  /** The installed tokens below `n`, in table order. */
  function InstalledBelow(refs: map<nat, Record>, n: nat): seq<nat> {
    if n == 0 then []
    else InstalledBelow(refs, n - 1) + if n - 1 in refs && refs[n - 1].state.Installed? then [n - 1] else []
  }

  function ClosingBelow(refs: map<nat, Record>, n: nat): seq<nat> {
    if n == 0 then []
    else ClosingBelow(refs, n - 1) + if n - 1 in refs && refs[n - 1].state.Closing? then [n - 1] else []
  }

  ghost function TokenSet(tokens: seq<nat>): set<nat> {
    set t | t in tokens
  }

  /** The table after the selected installed tokens are released. */
  ghost function ReleaseSelected(p: Pool, selected: seq<nat>): Pool {
    var rest := p.refs - TokenSet(selected);
    if selected != [] && p.pooled.Pooled? && forall u :: u in rest ==> !Active(rest[u]) then
      p.(refs := rest[selected[|selected| - 1] := Record(p.pooled.client, Closing)], pooled := Vacant)
    else p.(refs := rest)
  }

  ghost function ReleaseInstalled(p: Pool, count: int): (Pool, Result<seq<nat>, Error>) {
    var installed := InstalledBelow(p.refs, p.nextToken);
    if count < 0 || count > |installed| then (p, Err(InstallUnderflow))
    else
      var q := ReleaseSelected(p, installed[..count]);
      (q, Ok(ClosingBelow(q.refs, q.nextToken)))
  }

  /** Before closing: is the obligation still there? The pooled entry never names its client. */
  function FinishBegin(p: Pool, t: nat, client: nat): (Pool, bool) {
    if !(t in p.refs && p.refs[t] == Record(client, Closing)) then (p, false)
    else if p.pooled.Pooled? && p.pooled.client == client then (p.(pooled := Vacant), true)
    else (p, true)
  }

  /** After a successful close the obligation is discharged. */
  function FinishEnd(p: Pool, t: nat, client: nat): Pool {
    if t in p.refs && p.refs[t] == Record(client, Closing) then p.(refs := p.refs - {t}) else p
  }

  // ---------- the invariant ----------

  ghost predicate PoolInv(p: Pool) {
    && (forall t :: t in p.refs ==> t < p.nextToken && p.refs[t].client < p.created)
    && (p.pooled.Pooled? ==> p.pooled.client < p.created)
    && (p.pooled.Pooled? <==> exists t :: t in p.refs && Active(p.refs[t]))
    && (forall t :: t in p.refs && p.pooled.Pooled? ==> (Active(p.refs[t]) <==> p.refs[t].client == p.pooled.client))
    && (forall t, u :: t in p.refs && u in p.refs && t != u && p.refs[t].state.Closing? && p.refs[u].state.Closing? ==>
         p.refs[t].client != p.refs[u].client)
    && (p.borrower.Creating? ==> p.pooled.Vacant?)
  }

  datatype Step =
    | EnterStep(fingerprint: string)
    | InspectStep
    | PublishStep
    | AbandonStep
    | LeaveStep
    | HandlerStep
    | CommitStep(token: nat)
    | ReleaseStep(token: nat)
    | ReleaseInstalledStep(count: int)
    | FinishBeginStep(token: nat, client: nat)
    | FinishEndStep(token: nat, client: nat)

  /** The program order of the reserving borrower. */
  predicate Possible(p: Pool, s: Step) {
    match s
    case EnterStep(_) => p.borrower.NoBorrower?
    case InspectStep => p.borrower.Entered?
    case PublishStep => p.borrower.Creating?
    case AbandonStep => p.borrower.Creating?
    case LeaveStep => p.borrower.Leaving? || p.borrower.Failing?
    case HandlerStep => p.failed > 0
    case _ => true
  }

  /** A token that is closing is not promoted, and a failure handler finds nothing pooled. */
  predicate Safe(p: Pool, s: Step) {
    match s
    case CommitStep(t) => t in p.refs ==> Active(p.refs[t])
    case HandlerStep => p.pooled.Vacant?
    case _ => true
  }

  predicate Enabled(p: Pool, s: Step) {
    Possible(p, s) && Safe(p, s)
  }

  ghost function After(p: Pool, s: Step): Pool
    requires Possible(p, s)
  {
    match s
    case EnterStep(fingerprint) => p.(borrower := Entered(fingerprint))
    case InspectStep => Inspect(p).0
    case PublishStep => Publish(p)
    case AbandonStep => Abandon(p)
    case LeaveStep => Leave(p)
    case HandlerStep => Handler(p)
    case CommitStep(t) => Commit(p, t).0
    case ReleaseStep(t) => Release(p, t).0
    case ReleaseInstalledStep(count) => ReleaseInstalled(p, count).0
    case FinishBeginStep(t, client) => FinishBegin(p, t, client).0
    case FinishEndStep(t, client) => FinishEnd(p, t, client)
  }

  lemma {:induction false} InstalledBelowFacts(refs: map<nat, Record>, n: nat)
    ensures forall t :: t in InstalledBelow(refs, n) <==> t < n && t in refs && refs[t].state.Installed?
    ensures forall i, j :: 0 <= i < j < |InstalledBelow(refs, n)| ==>
      InstalledBelow(refs, n)[i] < InstalledBelow(refs, n)[j]
  {
    if n > 0 {
      InstalledBelowFacts(refs, n - 1);
      var init := InstalledBelow(refs, n - 1);
      assert forall i :: 0 <= i < |init| ==> init[i] in init;
    }
  }

  lemma {:induction false} ClosingBelowFacts(refs: map<nat, Record>, n: nat)
    ensures forall t :: t in ClosingBelow(refs, n) <==> t < n && t in refs && refs[t].state.Closing?
  {
    if n > 0 {
      ClosingBelowFacts(refs, n - 1);
    }
  }

  lemma ReleaseSelectedInv(p: Pool, selected: seq<nat>)
    requires PoolInv(p) && forall t :: t in selected ==> t in p.refs && Active(p.refs[t])
    ensures PoolInv(ReleaseSelected(p, selected))
  {
    var rest := p.refs - TokenSet(selected);
    if selected != [] {
      var last := selected[|selected| - 1];
      assert last in selected && Active(p.refs[last]);
      if forall u :: u in rest ==> !Active(rest[u]) {
      } else {
        var u :| u in rest && Active(rest[u]);
        assert u in ReleaseSelected(p, selected).refs;
      }
    } else {
      assert rest == p.refs;
    }
  }

  lemma InspectKeepsInv(p: Pool)
    requires PoolInv(p) && p.borrower.Entered?
    ensures PoolInv(Inspect(p).0)
  {
    var q := Inspect(p).0;
    if q.refs != p.refs {
      assert p.nextToken in q.refs && Active(q.refs[p.nextToken]);
    }
  }

  lemma PublishKeepsInv(p: Pool)
    requires PoolInv(p) && p.borrower.Creating?
    ensures PoolInv(Publish(p))
  {
    assert p.nextToken in Publish(p).refs && Active(Publish(p).refs[p.nextToken]);
  }

  lemma FinishEndKeepsInv(p: Pool, t: nat, client: nat)
    requires PoolInv(p)
    ensures PoolInv(FinishEnd(p, t, client))
  {
    var q := FinishEnd(p, t, client);
    if q.refs != p.refs && p.pooled.Pooled? {
      var u :| u in p.refs && Active(p.refs[u]);
      assert u in q.refs;
    }
  }

  lemma ReleaseKeepsInv(p: Pool, t: nat)
    requires PoolInv(p)
    ensures PoolInv(Release(p, t).0)
  {
    if t in p.refs && Active(p.refs[t]) {
      ReleaseSelectedInv(p, [t]);
      ReleaseIsSelected(p, t);
    }
  }

  lemma ReleaseInstalledKeepsInv(p: Pool, count: int)
    requires PoolInv(p)
    ensures PoolInv(ReleaseInstalled(p, count).0)
  {
    InstalledBelowFacts(p.refs, p.nextToken);
    var installed := InstalledBelow(p.refs, p.nextToken);
    if 0 <= count <= |installed| {
      ReleaseSelectedInv(p, installed[..count]);
    }
  }

  /** The failure handler keeps the invariant exactly when nothing is pooled: another borrower may have entered and
      pooled a client since the factory call failed, and then that client is dropped under its tokens. */
  lemma HandlerKeepsInvExactly(p: Pool)
    requires PoolInv(p) && p.failed > 0
    ensures PoolInv(Handler(p)) <==> p.pooled.Vacant?
  {
    if p.pooled.Pooled? {
      var t :| t in p.refs && Active(p.refs[t]);
      assert t in Handler(p).refs && Active(Handler(p).refs[t]);
    }
  }

  /** The regions that keep the invariant are exactly the safe ones: all but the promotion of a closing token and a
      late failure handler. */
  lemma StepKeepsInv(p: Pool, s: Step)
    requires PoolInv(p) && Possible(p, s)
    ensures PoolInv(After(p, s)) <==> Safe(p, s)
  {
    match s
    case HandlerStep => HandlerKeepsInvExactly(p);
    case InspectStep => InspectKeepsInv(p);
    case PublishStep => PublishKeepsInv(p);
    case CommitStep(t) => CommitKeepsInvExactly(p, t);
    case ReleaseStep(t) => ReleaseKeepsInv(p, t);
    case ReleaseInstalledStep(count) => ReleaseInstalledKeepsInv(p, count);
    case FinishEndStep(t, client) => FinishEndKeepsInv(p, t, client);
    case _ =>
  }

  lemma ReleaseIsSelected(p: Pool, t: nat)
    requires t in p.refs && Active(p.refs[t])
    ensures Release(p, t).0 == ReleaseSelected(p, [t])
  {
    assert TokenSet([t]) == {t};
    var rest := p.refs - {t};
    if OtherActive(p, t) {
      var u :| u in p.refs && u != t && Active(p.refs[u]);
      assert u in rest;
    } else {
      assert rest[t := Record(0, Closing)] == p.refs[t := Record(0, Closing)];
      assert p.pooled.Pooled? ==>
        rest[t := Record(p.pooled.client, Closing)] == p.refs[t := Record(p.pooled.client, Closing)];
    }
  }

  /** Promoting a token keeps the invariant exactly when the token is not already closing: the code does not reject
      that call, so callers must not make it. */
  lemma CommitKeepsInvExactly(p: Pool, t: nat)
    requires PoolInv(p)
    ensures PoolInv(Commit(p, t).0) <==> !(t in p.refs && p.refs[t].state.Closing?)
  {
    var q := Commit(p, t).0;
    if t in p.refs && p.refs[t].state.Closing? {
      assert t in q.refs && Active(q.refs[t]);
    } else if p.pooled.Pooled? {
      var u :| u in p.refs && Active(p.refs[u]);
      assert u in q.refs && Active(q.refs[u]);
    }
  }

  ghost predicate IsPoolRun(pools: seq<Pool>, steps: seq<Step>) {
    && |pools| == |steps| + 1 && pools[0] == EMPTY_POOL
    && forall i :: 0 <= i < |steps| ==> Enabled(pools[i], steps[i]) && pools[i + 1] == After(pools[i], steps[i])
  }

  /** A closing token that can be promoted is reached by borrowing and releasing. */
  lemma ClosingReachable() returns (pools: seq<Pool>, steps: seq<Step>)
    ensures IsPoolRun(pools, steps)
    ensures
      var p := pools[|steps|];
      0 in p.refs && p.refs[0].state.Closing? && Commit(p, 0).1.Ok? && !PoolInv(Commit(p, 0).0)
  {
    var p1 := EMPTY_POOL.(borrower := Entered(""));
    var p2 := Inspect(p1).0;
    var p3 := Publish(p2);
    assert p3.refs == map[0 := Record(0, Borrowed)];
    var p4 := Release(p3, 0).0;
    pools := [EMPTY_POOL, p1, p2, p3, p4];
    steps := [EnterStep(""), InspectStep, PublishStep, ReleaseStep(0)];
    var q := Commit(p4, 0).0;
    assert 0 in q.refs && Active(q.refs[0]) && q.pooled.Vacant?;
  }

  ghost function InState(refs: map<nat, Record>, state: TokenState): set<nat> {
    set t | t in refs && refs[t].state == state
  }

  ghost function CountIn(refs: map<nat, Record>, state: TokenState): nat {
    |InState(refs, state)|
  }

  lemma {:induction false} DistinctCount(s: seq<nat>)
    requires forall i, j :: 0 <= i < j < |s| ==> s[i] < s[j]
    ensures |TokenSet(s)| == |s|
  {
    if s != [] {
      var init := s[..|s| - 1];
      DistinctCount(init);
      assert TokenSet(s) == TokenSet(init) + {s[|s| - 1]};
    }
  }

  lemma CountsWithout(refs: map<nat, Record>, gone: set<nat>)
    requires forall t :: t in gone ==> t in refs && refs[t].state.Installed?
    ensures CountIn(refs - gone, Installed) == CountIn(refs, Installed) - |gone|
    ensures CountIn(refs - gone, Borrowed) == CountIn(refs, Borrowed)
  {
    assert gone <= InState(refs, Installed);
    assert InState(refs - gone, Installed) == InState(refs, Installed) - gone;
    assert InState(refs - gone, Borrowed) == InState(refs, Borrowed);
  }

  lemma CountsWithClosing(refs: map<nat, Record>, t: nat, client: nat)
    requires t !in refs
    ensures CountIn(refs[t := Record(client, Closing)], Installed) == CountIn(refs, Installed)
    ensures CountIn(refs[t := Record(client, Closing)], Borrowed) == CountIn(refs, Borrowed)
  {
    assert InState(refs[t := Record(client, Closing)], Installed) == InState(refs, Installed);
    assert InState(refs[t := Record(client, Closing)], Borrowed) == InState(refs, Borrowed);
  }

  lemma ReleaseSelectedCounts(p: Pool, selected: seq<nat>)
    requires forall t :: t in selected ==> t in p.refs && p.refs[t].state.Installed?
    ensures CountIn(ReleaseSelected(p, selected).refs, Installed) == CountIn(p.refs, Installed) - |TokenSet(selected)|
    ensures CountIn(ReleaseSelected(p, selected).refs, Borrowed) == CountIn(p.refs, Borrowed)
  {
    CountsWithout(p.refs, TokenSet(selected));
    if selected != [] && p.pooled.Pooled? {
      assert selected[|selected| - 1] in selected;
      CountsWithClosing(p.refs - TokenSet(selected), selected[|selected| - 1], p.pooled.client);
    }
  }

  /** Releasing `count` installed references lowers their number by exactly `count`, or changes nothing; it changes no
      borrowed token, and it hands back every close that is pending afterwards. */
  lemma ReleaseInstalledCounts(p: Pool, count: int)
    requires PoolInv(p)
    ensures
      var (q, r) := ReleaseInstalled(p, count);
      && (r.Ok? <==> 0 <= count <= CountIn(p.refs, Installed))
      && (r.Err? ==> q == p && r.error == InstallUnderflow)
      && (r.Ok? ==> CountIn(q.refs, Installed) == CountIn(p.refs, Installed) - count)
      && (r.Ok? ==> CountIn(q.refs, Borrowed) == CountIn(p.refs, Borrowed))
      && (r.Ok? ==> forall t :: t in r.value <==> t in q.refs && q.refs[t].state.Closing?)
  {
    var installed := InstalledBelow(p.refs, p.nextToken);
    InstalledBelowFacts(p.refs, p.nextToken);
    DistinctCount(installed);
    assert TokenSet(installed) == InState(p.refs, Installed);
    if 0 <= count <= |installed| {
      var selected := installed[..count];
      DistinctCount(selected);
      ReleaseSelectedCounts(p, selected);
      ReleaseSelectedInv(p, selected);
      var q := ReleaseSelected(p, selected);
      ClosingBelowFacts(q.refs, q.nextToken);
    }
  }

  /** Installed references are released oldest first: with a token, all installed ones before it go. */
  lemma OldestFirst(p: Pool, count: int, t: nat, u: nat)
    requires PoolInv(p) && ReleaseInstalled(p, count).1.Ok?
    requires t < u && t in InState(p.refs, Installed) && u in InState(p.refs, Installed)
    ensures
      var q := ReleaseInstalled(p, count).0;
      u !in InState(q.refs, Installed) ==> t !in InState(q.refs, Installed)
  {
    var installed := InstalledBelow(p.refs, p.nextToken);
    InstalledBelowFacts(p.refs, p.nextToken);
    assert t in installed && u in installed;
    var i :| 0 <= i < |installed| && installed[i] == t;
    var j :| 0 <= j < |installed| && installed[j] == u;
    assert i < j;
    var selected := installed[..count];
    if j < count {
      assert selected[i] == t && t in TokenSet(selected);
    } else {
      assert forall k :: 0 <= k < count ==> selected[k] == installed[k] < u;
      assert u in ReleaseSelected(p, selected).refs;
    }
  }

  // ---------- the life of a token ----------

  /** A borrower gets a token of the pooled client exactly when its fingerprint is the pooled one; it fails exactly
      when another one is pooled, and goes on to create exactly when none is. */
  lemma BorrowExactly(p: Pool)
    requires PoolInv(p) && p.borrower.Entered?
    ensures
      var (q, r) := Inspect(p);
      && (r == Ok(None) <==> p.pooled.Vacant?)
      && (r == Err(ExecutableChanged) <==> p.pooled.Pooled? && p.pooled.fingerprint != p.borrower.fingerprint)
      && (r == Ok(Some(p.nextToken)) <==> p.pooled.Pooled? && p.pooled.fingerprint == p.borrower.fingerprint)
      && (r == Ok(None) ==> q.borrower == Creating(p.borrower.fingerprint) && q.refs == p.refs)
      && (r.Err? ==> q.refs == p.refs)
      && (r.Ok? && r.value.Some? ==>
           q.refs == p.refs[p.nextToken := Record(p.pooled.client, Borrowed)] && p.nextToken !in p.refs)
      && q.pooled == p.pooled
  {
  }

  /** A made client is pooled for the fingerprint it was made for, and its one new token is borrowed. */
  lemma PublishBorrows(p: Pool)
    requires PoolInv(p) && p.borrower.Creating?
    ensures
      var q := Publish(p);
      && q.pooled == Pooled(p.created, p.borrower.fingerprint)
      && InState(q.refs, Borrowed) == InState(p.refs, Borrowed) + {p.nextToken} && p.nextToken !in p.refs
      && InState(q.refs, Installed) == InState(p.refs, Installed)
      && InState(q.refs, Closing) == InState(p.refs, Closing)
  {
  }

  /** Promotion installs exactly the given borrowed token. */
  lemma CommitInstalls(p: Pool, t: nat)
    requires t in p.refs && p.refs[t].state.Borrowed?
    ensures
      var (q, r) := Commit(p, t);
      && r == Ok(()) && q == p.(refs := q.refs) && q.refs.Keys == p.refs.Keys
      && InState(q.refs, Installed) == InState(p.refs, Installed) + {t}
      && InState(q.refs, Borrowed) == InState(p.refs, Borrowed) - {t}
      && InState(q.refs, Closing) == InState(p.refs, Closing)
      && forall u :: u in p.refs ==> q.refs[u].client == p.refs[u].client
  {
  }

  /** Promotion is refused exactly for released and for installed tokens, and then changes nothing. */
  lemma CommitRefuses(p: Pool, t: nat)
    ensures Commit(p, t).1 == Err(AlreadyReleased) <==> t !in p.refs
    ensures Commit(p, t).1 == Err(AlreadyCommitted) <==> t in p.refs && p.refs[t].state.Installed?
    ensures Commit(p, t).1.Err? ==> Commit(p, t).0 == p
  {
  }

  /** A promoted token can be released as an installed one, so promotion is what releasing installed references
      counts. */
  lemma CommittedReleasable(p: Pool, t: nat)
    requires PoolInv(p) && t in p.refs && p.refs[t].state.Borrowed?
    ensures
      var q := Commit(p, t).0;
      && CountIn(q.refs, Installed) == CountIn(p.refs, Installed) + 1
      && CountIn(q.refs, Borrowed) == CountIn(p.refs, Borrowed) - 1
      && ReleaseInstalled(q, 1).1.Ok?
  {
    CommitInstalls(p, t);
    CommitKeepsInvExactly(p, t);
    ReleaseInstalledCounts(Commit(p, t).0, 1);
  }

  /** Releasing an active token takes it out of the borrowed and installed ones; the last active one is kept as the
      obligation to close the pooled client, which leaves the pool. Nothing else changes. */
  lemma ReleaseEndsToken(p: Pool, t: nat)
    requires PoolInv(p) && t in p.refs && Active(p.refs[t])
    ensures
      var (q, r) := Release(p, t);
      && (forall u :: u != t ==> (u in q.refs <==> u in p.refs) && (u in p.refs ==> q.refs[u] == p.refs[u]))
      && (if OtherActive(p, t) then t !in q.refs && q.pooled == p.pooled && r == None
          else t in q.refs && q.refs[t] == Record(p.refs[t].client, Closing) && q.pooled == Vacant
               && r == Some(p.refs[t].client))
  {
  }

  /** Releasing a token that is gone does nothing; one that is closing names its client once more. */
  lemma ReleaseAgain(p: Pool, t: nat)
    requires t !in p.refs || p.refs[t].state.Closing?
    ensures Release(p, t) == (p, if t in p.refs then Some(p.refs[t].client) else None)
  {
  }

  /** A discharged obligation is gone, and only it. */
  lemma FinishDischarges(p: Pool, t: nat, client: nat)
    requires t in p.refs && p.refs[t] == Record(client, Closing)
    ensures FinishBegin(p, t, client).1
    ensures FinishEnd(p, t, client) == p.(refs := p.refs - {t})
  {
  }

  /** Over every run, a token taken from the pool is of a client that was made for the same fingerprint. */
  lemma {:induction false} PooledOrigin(pools: seq<Pool>, steps: seq<Step>, n: nat) returns (i: nat)
    requires IsPoolRun(pools, steps) && n < |pools| && pools[n].pooled.Pooled?
    ensures i < n && steps[i].PublishStep? && pools[i].borrower.Creating?
    ensures pools[i].created == pools[n].pooled.client
    ensures pools[i].borrower.fingerprint == pools[n].pooled.fingerprint
  {
    assert n > 0;
    var p, step := pools[n - 1], steps[n - 1];
    assert pools[n] == After(p, step);
    if step.PublishStep? {
      i := n - 1;
    } else {
      assert p.pooled == pools[n].pooled;
      i := PooledOrigin(pools, steps, n - 1);
    }
  }

  lemma SharedClientFits(pools: seq<Pool>, steps: seq<Step>, j: nat) returns (i: nat)
    requires IsPoolRun(pools, steps) && j < |steps| && steps[j].InspectStep?
    requires Inspect(pools[j]).1.Ok? && Inspect(pools[j]).1.value.Some?
    ensures i < j && steps[i].PublishStep? && pools[i].created == pools[j].pooled.client
    ensures pools[i].borrower.Creating? && pools[j].borrower.Entered?
    ensures pools[i].borrower.fingerprint == pools[j].borrower.fingerprint
  {
    assert Enabled(pools[j], steps[j]);
    i := PooledOrigin(pools, steps, j);
  }

  // ---------- the class ----------

  class SharedClientPool {
    var references: map<nat, Record>
    var pooled: Pooled
    var borrower: Borrower
    var nextToken: nat
    var created: nat
    var failed: nat

    ghost function State(): Pool
      reads this
    {
      Pool(references, pooled, borrower, nextToken, created, failed)
    }

    constructor ()
      ensures State() == EMPTY_POOL && PoolInv(State())
    {
      references, pooled, borrower, nextToken, created, failed := map[], Vacant, NoBorrower, 0, 0, 0;
    }

    method EnterReservation(fingerprint: string)
      requires PoolInv(State()) && borrower.NoBorrower?
      modifies this
      ensures State() == After(old(State()), EnterStep(fingerprint)) && PoolInv(State())
    {
      StepKeepsInv(State(), EnterStep(fingerprint));
      borrower := Entered(fingerprint);
    }

    method LeaveReservation()
      requires PoolInv(State()) && (borrower.Leaving? || borrower.Failing?)
      modifies this
      ensures State() == After(old(State()), LeaveStep) && PoolInv(State())
    {
      StepKeepsInv(State(), LeaveStep);
      if borrower.Failing? {
        failed := failed + 1;
      }
      borrower := NoBorrower;
    }

    method InspectPooled() returns (result: Result<Option<nat>, Error>)
      requires PoolInv(State()) && borrower.Entered?
      modifies this
      ensures (State(), result) == Inspect(old(State())) && PoolInv(State())
    {
      StepKeepsInv(State(), InspectStep);
      if pooled.Pooled? {
        if pooled.fingerprint != borrower.fingerprint {
          borrower := Leaving;
          return Err(ExecutableChanged);
        }
        var reference := nextToken;
        nextToken := nextToken + 1;
        references := references[reference := Record(pooled.client, Borrowed)];
        borrower := Leaving;
        return Ok(Some(reference));
      }
      borrower := Creating(borrower.fingerprint);
      return Ok(None);
    }

    /** The factory call and what follows it inside the reservation; `made` tells whether the factory returned a
        client. */
    method CreateClient(made: bool) returns (result: Result<nat, Error>)
      requires PoolInv(State()) && borrower.Creating?
      modifies this
      ensures State() == After(old(State()), if made then PublishStep else AbandonStep) && PoolInv(State())
      ensures result == if made then Ok(old(nextToken)) else Err(FactoryFailed)
    {
      StepKeepsInv(State(), if made then PublishStep else AbandonStep);
      if !made {
        borrower := Failing;
        return Err(FactoryFailed);
      }
      var client := created;
      created := created + 1;
      pooled := Pooled(client, borrower.fingerprint);
      var reference := nextToken;
      nextToken := nextToken + 1;
      references := references[reference := Record(client, Borrowed)];
      borrower := Leaving;
      return Ok(reference);
    }

    /** The locked part of the failure handler; a result is the client that it goes on to close. */
    method HandleFailure() returns (dropped: Option<nat>)
      requires PoolInv(State()) && failed > 0
      modifies this
      ensures State() == Handler(old(State()))
      ensures PoolInv(State()) <==> old(pooled.Vacant?)
      ensures dropped == if old(pooled.Pooled?) then Some(old(pooled.client)) else None
    {
      HandlerKeepsInvExactly(State());
      dropped := if pooled.Pooled? then Some(pooled.client) else None;
      pooled := Vacant;
      failed := failed - 1;
    }

    method CommitToken(reference: nat) returns (result: Result<(), Error>)
      requires PoolInv(State())
      modifies this
      ensures (State(), result) == Commit(old(State()), reference)
      ensures old(Enabled(State(), CommitStep(reference))) ==> PoolInv(State())
    {
      if Enabled(State(), CommitStep(reference)) {
        StepKeepsInv(State(), CommitStep(reference));
      }
      if reference !in references {
        return Err(AlreadyReleased);
      }
      var record := references[reference];
      if record.state.Installed? {
        return Err(AlreadyCommitted);
      }
      references := references[reference := Record(record.client, Installed)];
      return Ok(());
    }

    /** The locked part of a release; a result is the client that the caller must now close. */
    method ReleaseToken(reference: nat) returns (obligation: Option<nat>)
      requires PoolInv(State())
      modifies this
      ensures (State(), obligation) == Release(old(State()), reference) && PoolInv(State())
    {
      StepKeepsInv(State(), ReleaseStep(reference));
      if reference !in references {
        return None;
      }
      if references[reference].state.Closing? {
        return Some(references[reference].client);
      }
      if exists other :: other in references && other != reference && Active(references[other]) {
        references := references - {reference};
        return None;
      }
      if pooled.Vacant? {
        assert false;
      }
      var client := pooled.client;
      references := references[reference := Record(client, Closing)];
      pooled := Vacant;
      return Some(client);
    }

    /** The tokens in one state, in table order. */
    method TokensIn(state: TokenState) returns (tokens: seq<nat>)
      ensures state.Installed? ==> tokens == InstalledBelow(references, nextToken)
      ensures state.Closing? ==> tokens == ClosingBelow(references, nextToken)
    {
      tokens := [];
      for t := 0 to nextToken
        invariant state.Installed? ==> tokens == InstalledBelow(references, t)
        invariant state.Closing? ==> tokens == ClosingBelow(references, t)
      {
        if t in references && references[t].state == state {
          tokens := tokens + [t];
        }
      }
    }

    method Delete(tokens: seq<nat>)
      modifies this`references
      ensures references == old(references) - TokenSet(tokens)
    {
      var i := 0;
      while i < |tokens|
        invariant 0 <= i <= |tokens|
        invariant references == old(references) - TokenSet(tokens[..i])
      {
        assert tokens[..i + 1] == tokens[..i] + [tokens[i]];
        assert TokenSet(tokens[..i + 1]) == TokenSet(tokens[..i]) + {tokens[i]};
        references := references - {tokens[i]};
        i := i + 1;
      }
      assert tokens[..i] == tokens;
    }

    /** Delete the selected installed tokens, or turn the last one into the close obligation. */
    method RetireSelected(selected: seq<nat>)
      requires PoolInv(State()) && forall t :: t in selected ==> t in references && Active(references[t])
      modifies this
      ensures State() == ReleaseSelected(old(State()), selected)
    {
      var remainingActive := exists t :: t in references && t !in selected && Active(references[t]);
      ghost var rest := references - TokenSet(selected);
      assert remainingActive <==> exists u :: u in rest && Active(rest[u]) by {
        if remainingActive {
          var t :| t in references && t !in selected && Active(references[t]);
          assert t in rest;
        }
      }
      if selected != [] && !remainingActive {
        var reference := selected[|selected| - 1];
        assert reference in selected;
        var others := selected[..|selected| - 1];
        assert selected == others + [reference];
        assert TokenSet(selected) == TokenSet(others) + {reference};
        Delete(others);
        if pooled.Vacant? {
          assert false;
        }
        references := references[reference := Record(pooled.client, Closing)];
        assert references == rest[reference := Record(pooled.client, Closing)];
        pooled := Vacant;
      } else {
        Delete(selected);
      }
    }

    /** The locked part of releasing installed references; a result lists every pending close. */
    method ReleaseInstalledTokens(count: int) returns (result: Result<seq<nat>, Error>)
      requires PoolInv(State())
      modifies this
      ensures (State(), result) == ReleaseInstalled(old(State()), count) && PoolInv(State())
    {
      StepKeepsInv(State(), ReleaseInstalledStep(count));
      InstalledBelowFacts(references, nextToken);
      var installed := TokensIn(Installed);
      if count < 0 || count > |installed| {
        return Err(InstallUnderflow);
      }
      RetireSelected(installed[..count]);
      var obligations := TokensIn(Closing);
      return Ok(obligations);
    }

    /** Whether the obligation still stands, so that its gate must run. */
    method BeginClose(reference: nat, client: nat) returns (run: bool)
      requires PoolInv(State())
      modifies this
      ensures (State(), run) == FinishBegin(old(State()), reference, client) && PoolInv(State())
      ensures State() == old(State())
    {
      StepKeepsInv(State(), FinishBeginStep(reference, client));
      if !(reference in references && references[reference] == Record(client, Closing)) {
        return false;
      }
      if pooled.Pooled? && pooled.client == client {
        assert false;
      }
      return true;
    }

    /** The gate reported success: discharge the obligation. */
    method EndClose(reference: nat, client: nat)
      requires PoolInv(State())
      modifies this
      ensures State() == FinishEnd(old(State()), reference, client) && PoolInv(State())
    {
      StepKeepsInv(State(), FinishEndStep(reference, client));
      if reference in references && references[reference] == Record(client, Closing) {
        references := references - {reference};
      }
    }

    /** Borrowed, installed and pending-close counts. */
    method ReferenceCounts() returns (borrowed: nat, installed: nat, closing: nat)
      ensures borrowed == CountIn(references, Borrowed)
      ensures installed == CountIn(references, Installed)
      ensures closing == CountIn(references, Closing)
    {
      assert InState(references, Borrowed) == set t | t in references && references[t].state == Borrowed;
      assert InState(references, Installed) == set t | t in references && references[t].state == Installed;
      assert InState(references, Closing) == set t | t in references && references[t].state == Closing;
      borrowed := |(set t | t in references && references[t].state == Borrowed)|;
      installed := |(set t | t in references && references[t].state == Installed)|;
      closing := |(set t | t in references && references[t].state == Closing)|;
    }
  }
}

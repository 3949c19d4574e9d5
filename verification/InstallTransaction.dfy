/** The install transaction and its recovery, over a small world in which any step can fail and in which other
    programs may edit the config at any time. */
module InstallTransaction {
  import opened Options

  /** What the transaction can create. */
  datatype Artifact = CacheTree | RuntimeTree | DataRoot

  /** The config's bytes, with a stamp that changes whenever the file is replaced. */
  datatype Snapshot = Snapshot(data: string, stamp: nat)

  datatype Fault = PluginError(reason: string) | IoError | Interrupted

  /** What happens at one step: an edit by another program, a failure, and the answer of a check. */
  datatype Choice = Choice(edit: Option<string>, fault: Option<Fault>, yes: bool)

  /** A published object, and whether this run made it. */
  datatype Publication = Publication(createdByRun: bool, identity: nat)

  /** The objects that exist, with their identities. */
  type Objects = map<Artifact, nat>

  /** A receipt names the cache and the runtime that it commits. */
  datatype Receipt = Receipt(cache: nat, runtime: nat)

  /** The resources that the transaction has recorded, and the config bytes that it owns. */
  datatype Transaction = Transaction(publication: Option<Publication>, data: Option<Publication>,
                                     runtime: Option<Publication>, ownedData: string)

  datatype Prior = Prior(snapshot: Snapshot, restorableEnabled: bool)

  datatype InstallResult =
    | Succeeded
    | FailedBeforeState(reason: string)
    | Recovered(reason: string, conflict: bool, cacheRemoved: bool)
    | Aborted

  /** The three ways to commit: a reinstall that is already in place, the configured generation put back, and the
      requested one enabled. */
  datatype Way = InPlace | KeptConfigured | EnabledRequested

  /** How a run ended: with a result of its own, before any state, interrupted under a receipt that names its objects,
      interrupted in the probe of that receipt, or in recovery. */
  datatype Ending = Regular(way: Way) | NoState | ReceiptStands | ProbeInterrupted | RecoveryRan(result: InstallResult)

  /** Where and how a transaction failed, whether anything had disturbed it, and whether its last own write of the
      config had not been recorded. */
  datatype Failure = Failure(at: nat, fault: Fault, disturbed: bool, unrecorded: bool)

  /** What the log of a transaction keeps: validations of the cache, its own writes that enable the plugin, and the
      receipt. What recovery writes back is not part of it. */
  datatype Mark = CacheValidated | EnabledWritten | ReceiptPublished

  /** No enabling write precedes the first validation of the cache. */
  ghost predicate ValidatedFirst(log: seq<Mark>) {
    forall i :: 0 <= i < |log| && log[i].EnabledWritten? ==> CacheValidated in log[..i]
  }

  /** The log of a transaction that has not committed. */
  ghost predicate LogOpen(log: seq<Mark>) {
    ValidatedFirst(log) && ReceiptPublished !in log
  }

  lemma ValidatedFirstSnoc(log: seq<Mark>, mark: Mark)
    requires ValidatedFirst(log) && (mark.EnabledWritten? ==> CacheValidated in log)
    ensures ValidatedFirst(log + [mark])
  {
    forall i | 0 <= i < |log + [mark]| && (log + [mark])[i].EnabledWritten?
      ensures CacheValidated in (log + [mark])[..i]
    {
      assert (log + [mark])[..i] == log[..i];
      if i == |log| {
        assert log[..i] == log;
      }
    }
  }

  const CONCURRENT := "codex_config_concurrent_change"

  predicate CreatedByRun(p: Option<Publication>) {
    p.Some? && p.value.createdByRun
  }

  /** Every recorded object that this run made is gone. */
  predicate CreatedRemoved(tx: Transaction, objects: Objects) {
    && (CreatedByRun(tx.publication) ==> CacheTree !in objects)
    && (CreatedByRun(tx.runtime) ==> RuntimeTree !in objects)
    && (CreatedByRun(tx.data) ==> DataRoot !in objects)
  }

  /** What was there before is still there, unchanged. */
  predicate Kept(before: Objects, objects: Objects) {
    forall o :: o in before ==> o in objects && objects[o] == before[o]
  }

  /** A recorded object exists, and is recorded as made by this run only if it was not there before and is new. */
  predicate RecordRight(p: Option<Publication>, item: Artifact, before: Objects, objects: Objects, since: nat) {
    p.Some? ==>
      && item in objects && objects[item] == p.value.identity
      && (p.value.createdByRun ==> item !in before && p.value.identity >= since)
  }

  predicate RecordsRight(tx: Transaction, before: Objects, objects: Objects, since: nat) {
    && Kept(before, objects)
    && MadeRecorded(tx, before, objects)
    && RecordRight(tx.publication, CacheTree, before, objects, since)
    && RecordRight(tx.runtime, RuntimeTree, before, objects, since)
    && RecordRight(tx.data, DataRoot, before, objects, since)
  }

  /** Every new object is recorded as made by this run. */
  predicate MadeRecorded(tx: Transaction, before: Objects, objects: Objects) {
    forall o :: o in objects && o !in before ==> RecordedAsMade(tx, o)
  }

  /** The object is recorded as made by this run. */
  predicate RecordedAsMade(tx: Transaction, o: Artifact) {
    match o
    case CacheTree => CreatedByRun(tx.publication)
    case RuntimeTree => CreatedByRun(tx.runtime)
    case DataRoot => CreatedByRun(tx.data)
  }

  predicate HasReceiptParts(tx: Transaction) {
    tx.publication.Some? && tx.runtime.Some?
  }

  function ReceiptOf(tx: Transaction): Receipt
    requires HasReceiptParts(tx)
  {
    Receipt(tx.publication.value.identity, tx.runtime.value.identity)
  }

  /** Time passes, and a new last disturbance is one of the steps since. */
  predicate Passed(before: nat, calmBefore: nat, now: nat, calmNow: nat) {
    before <= now && (calmNow == calmBefore || before < calmNow)
  }

  /** Every edit by another program since has left a mark on the config. */
  predicate Unoverwritten(editsBefore: nat, before: Snapshot, edits: nat, config: Snapshot) {
    editsBefore <= edits && config.stamp - before.stamp >= edits - editsBefore
  }

  class World {
    /** How a config text parses: whether it leaves the plugin disabled. */
    const disabled: string -> bool
    /** The texts that disabling and publishing render. */
    const disable: string -> string
    const render: (string, bool, bool) -> string
    /** Whether the prior cache still proves the prior enabled state. */
    const priorCacheValid: bool
    const choices: nat -> Choice

    var tick: nat
    var config: Snapshot
    var objects: Objects
    var receipt: Option<Receipt>
    /** How many edits by other programs there have been. */
    ghost var edits: nat
    /** Since when there has been neither such an edit nor an own failing write that took effect all the same. */
    ghost var calmSince: nat
    /** How many steps have failed. */
    ghost var failures: nat
    /** The config at the deciding own access to it, and the number of edits before that. */
    ghost var settled: Snapshot
    ghost var settledEdits: nat
    ghost var log: seq<Mark>

    constructor (disabled: string -> bool, disable: string -> string, render: (string, bool, bool) -> string,
                 priorCacheValid: bool, choices: nat -> Choice, data: string, objects: Objects,
                 receipt: Option<Receipt>, now: nat)
      ensures this.disabled == disabled && this.disable == disable && this.render == render
      ensures this.priorCacheValid == priorCacheValid && this.choices == choices
      ensures this.objects == objects && this.receipt == receipt && config.data == data && tick == now
      ensures log == [] && edits == 0 && calmSince == 0
    {
      this.disabled, this.disable, this.render := disabled, disable, render;
      this.priorCacheValid, this.choices := priorCacheValid, choices;
      this.objects, this.receipt := objects, receipt;
      tick, config, edits, log := now, Snapshot(data, 0), 0, [];
      settled, settledEdits, calmSince, failures := Snapshot(data, 0), 0, 0, 0;
    }

    /** The config is still the settled one unless another program has edited it since. */
    ghost predicate SettledUnlessEdited()
      reads this
    {
      settledEdits <= edits && (settledEdits == edits ==> config == settled)
    }

    ghost method Settle()
      modifies this`settled, this`settledEdits
      ensures settled == config && settledEdits == edits
    {
      settled, settledEdits := config, edits;
    }

    /** A prior config may be put back when it is disabled, or when its enabled state is still proved by its cache. */
    ghost predicate PriorSafe(prior: Prior)
      reads {}
    {
      disabled(prior.snapshot.data) || (prior.restorableEnabled && priorCacheValid)
    }

    /** No edit and no failure at any step from `n` on. */
    ghost predicate Quiet(n: nat)
      reads {}
    {
      forall m :: m >= n ==> choices(m).edit.None? && choices(m).fault.None?
    }

    /** No edit and no failure at step `n`. */
    ghost predicate Calm(n: nat)
      reads {}
    {
      choices(n).edit.None? && choices(n).fault.None?
    }

    ghost predicate CalmBetween(from: nat, to: nat)
      reads {}
    {
      forall m :: from <= m < to ==> Calm(m)
    }

    /** Every check answers yes. */
    ghost predicate AlwaysYes()
      reads {}
    {
      forall m :: choices(m).yes
    }

    ghost predicate NoFaults(from: nat, to: nat)
      reads {}
    {
      forall m :: from <= m < to ==> choices(m).fault.None?
    }

    /** The rendered texts parse as they are meant to. */
    ghost predicate TextsRight()
      reads {}
    {
      && (forall data :: disabled(disable(data)))
      && (forall data, enabled, disableLegacy :: disabled(render(data, enabled, disableLegacy)) == !enabled)
    }

    /** Existing objects and receipts are older than `n`; new objects are identified by the step that makes them. */
    ghost predicate OlderThan(n: nat)
      reads this
    {
      && (forall o :: o in objects ==> objects[o] < n)
      && (receipt.Some? ==> receipt.value.cache < n && receipt.value.runtime < n)
    }

    /** The run has committed: cache validated, its own receipt published last, and the plugin enabled when last
        verified. */
    ghost predicate Committed(tx: Transaction)
      reads this
    {
      && HasReceiptParts(tx) && receipt == Some(ReceiptOf(tx))
      && CacheValidated in log && log[|log| - 1] == ReceiptPublished
      && SettledUnlessEdited() && !disabled(settled.data)
    }

    /** The transaction has not reached its receipt, and the receipt is the earlier one. */
    ghost predicate Unpublished(earlier: Option<Receipt>)
      reads this
    {
      LogOpen(log) && receipt == earlier
    }

    // ---------- steps ----------

    /** The environment moves: another program may edit the config. */
    method Step() returns (c: Choice)
      modifies this`tick, this`config, this`edits, this`calmSince, this`failures
      ensures Passed(old(tick), old(calmSince), tick, calmSince)
      ensures tick == old(tick) + 1 && c == choices(old(tick))
      ensures calmSince == if c.edit.Some? then tick else old(calmSince)
      ensures failures == old(failures) + if c.fault.Some? then 1 else 0
      ensures edits == old(edits) + if c.edit.Some? then 1 else 0
      ensures edits >= old(edits) && (edits == old(edits) ==> config == old(config))
      ensures config.stamp == old(config).stamp + if choices(old(tick)).edit.Some? then 1 else 0
      ensures c.edit.None? ==> config == old(config)
    {
      c := choices(tick);
      tick := tick + 1;
      if c.fault.Some? {
        failures := failures + 1;
      }
      if c.edit.Some? {
        config := Snapshot(c.edit.value, config.stamp + 1);
        edits := edits + 1;
        calmSince := tick;
      }
    }

    /** A check or computation that may fail and that answers yes or no. */
    method Check() returns (r: Result<bool, Fault>)
      modifies this`tick, this`config, this`edits, this`calmSince, this`failures
      ensures Passed(old(tick), old(calmSince), tick, calmSince)
      ensures calmSince <= old(tick) ==> config == old(config)
      ensures tick == old(tick) + 1
      ensures
        var c := choices(old(tick));
        r == if c.fault.Some? then Err(c.fault.value) else Ok(c.yes)
      ensures choices(old(tick)).edit.None? ==> config == old(config) && calmSince == old(calmSince)
      ensures failures == old(failures) + if r.Err? then 1 else 0
      ensures config.stamp == old(config).stamp + if choices(old(tick)).edit.Some? then 1 else 0
      ensures Unoverwritten(old(edits), old(config), edits, config)
      ensures edits >= old(edits) && (edits == old(edits) ==> config == old(config))
    {
      var c := Step();
      r := if c.fault.Some? then Err(c.fault.value) else Ok(c.yes);
    }

    /** Two checks of which only a failure matters. */
    method CheckTwice() returns (r: Result<bool, Fault>)
      modifies this`tick, this`config, this`edits, this`calmSince, this`failures
      ensures Passed(old(tick), old(calmSince), tick, calmSince)
      ensures calmSince <= old(tick) ==> config == old(config)
      ensures tick > old(tick)
      ensures r.Ok? ==> tick == old(tick) + 2 && failures == old(failures)
      ensures Quiet(old(tick)) ==> r.Ok? && config == old(config)
      ensures edits >= old(edits) && (edits == old(edits) ==> config == old(config))
    {
      r := Check();
      if r.Ok? {
        r := Check();
      }
    }

    method ObserveConfig() returns (r: Result<Snapshot, Fault>)
      modifies this`tick, this`config, this`edits, this`calmSince, this`failures
      ensures Passed(old(tick), old(calmSince), tick, calmSince)
      ensures calmSince <= old(tick) ==> config == old(config)
      ensures tick == old(tick) + 1
      ensures r.Ok? <==> choices(old(tick)).fault.None?
      ensures choices(old(tick)).edit.None? ==> config == old(config) && calmSince == old(calmSince)
      ensures failures == old(failures) + if r.Err? then 1 else 0
      ensures config.stamp == old(config).stamp + if choices(old(tick)).edit.Some? then 1 else 0
      ensures Unoverwritten(old(edits), old(config), edits, config)
      ensures edits >= old(edits) && (edits == old(edits) ==> config == old(config))
      ensures r.Ok? ==> r.value == config
      ensures r.Err? ==> choices(old(tick)).fault == Some(r.error)
    {
      var c := Step();
      r := if c.fault.Some? then Err(c.fault.value) else Ok(config);
    }

    /** Compare and replace. A failing write may or may not have been rolled back. */
    method WriteConfig(expected: Snapshot, replacement: string) returns (r: Result<string, Fault>)
      modifies this`tick, this`config, this`edits, this`calmSince, this`failures
      ensures Passed(old(tick), old(calmSince), tick, calmSince)
      ensures tick == old(tick) + 1
      ensures r.Ok? ==> choices(old(tick)).fault.None? && failures == old(failures)
      ensures Calm(old(tick)) && old(config) == expected ==> r.Ok? && calmSince == old(calmSince)
      ensures calmSince <= old(tick) && r.Err? ==> config == old(config)
      ensures calmSince <= old(tick) && old(config) == expected && r.Err? ==>
        choices(old(tick)).fault.Some? && failures > old(failures)
      ensures edits >= old(edits)
      ensures r.Ok? && old(config).stamp >= expected.stamp ==> old(config) == expected && edits == old(edits)
      ensures r.Ok? ==> r.value == replacement && config.data == replacement
    {
      var c := Step();
      if c.fault.Some? {
        if c.yes {
          config := Snapshot(replacement, config.stamp + 1);
          calmSince := tick;
        }
        return Err(c.fault.value);
      }
      if config != expected {
        return Err(PluginError(CONCURRENT));
      }
      if replacement != expected.data {
        config := Snapshot(replacement, config.stamp + 1);
      }
      return Ok(replacement);
    }

    /** From step `n` on the plugin is disabled, and the look that verifies it fails. */
    ghost predicate LastLookFails(n: nat)
      reads {}
    {
      Calm(n) && Calm(n + 1) && choices(n + 2).edit.None? && choices(n + 2).fault == Some(IoError)
    }

    /** Turn only the enabled token off, and verify it. */
    method DisablePluginOnly() returns (r: Result<Snapshot, Fault>)
      modifies this`tick, this`config, this`edits, this`calmSince, this`failures
      ensures Passed(old(tick), old(calmSince), tick, calmSince)
      ensures tick > old(tick)
      ensures r.Ok? ==> NoFaults(old(tick), tick) && failures == old(failures)
      ensures tick <= old(tick) + 3
      ensures calmSince <= old(tick) && disabled(old(config).data) ==> config == old(config)
      ensures calmSince <= old(tick) && !disabled(old(config).data) ==>
        if tick < old(tick) + 3 then r.Err? && config == old(config) else config.data == disable(old(config).data)
      ensures CalmBetween(old(tick), old(tick) + 3) && TextsRight() ==> r.Ok?
      ensures CalmBetween(old(tick), old(tick) + 3) && TextsRight() && !disabled(old(config).data) ==>
        tick == old(tick) + 3 && config.data == disable(old(config).data)
      ensures LastLookFails(old(tick)) && !disabled(old(config).data) ==>
        r == Err(IoError) && tick == old(tick) + 3 && config.data == disable(old(config).data)
        && calmSince == old(calmSince)
      ensures edits >= old(edits)
      ensures r.Ok? ==> r.value == config && disabled(config.data)
    {
      assert Calm(old(tick)) && Calm(old(tick) + 1) && Calm(old(tick) + 2) <== CalmBetween(old(tick), old(tick) + 3);
      var observed := ObserveConfig();
      if observed.Err? || disabled(observed.value.data) {
        return observed;
      }
      var written := WriteConfig(observed.value, disable(observed.value.data));
      if written.Err? {
        return Err(written.error);
      }
      var final := ObserveConfig();
      if final.Ok? && !disabled(final.value.data) {
        return Err(PluginError("plugin_disable_verification_failed"));
      }
      return final;
    }

    /** Make an object unless it is there, and say which. */
    method Prepare(item: Artifact) returns (r: Result<Publication, Fault>)
      modifies this`tick, this`config, this`edits, this`calmSince, this`failures, this`objects
      ensures Passed(old(tick), old(calmSince), tick, calmSince)
      ensures calmSince <= old(tick) ==> config == old(config)
      ensures tick == old(tick) + 1
      ensures failures == old(failures) + if r.Err? then 1 else 0
      ensures r.Ok? <==> choices(old(tick)).fault.None?
      ensures choices(old(tick)).edit.None? ==> config == old(config) && calmSince == old(calmSince)
      ensures r.Ok? ==> r.value.createdByRun == (item !in old(objects))
      ensures r.Ok? ==> objects == old(objects)[item := r.value.identity]
      ensures r.Ok? ==> r.value.identity == if item in old(objects) then old(objects)[item] else old(tick)
      ensures r.Err? ==> objects == old(objects)
    {
      var made := tick;
      var c := Step();
      if c.fault.Some? {
        return Err(c.fault.value);
      }
      if item in objects {
        assert objects == objects[item := objects[item]];
        return Ok(Publication(false, objects[item]));
      }
      objects := objects[item := made];
      return Ok(Publication(true, made));
    }

    method ValidatePublication() returns (r: Result<bool, Fault>)
      requires LogOpen(log)
      modifies this`tick, this`config, this`edits, this`calmSince, this`failures, this`log
      ensures Passed(old(tick), old(calmSince), tick, calmSince)
      ensures calmSince <= old(tick) ==> config == old(config)
      ensures tick == old(tick) + 1
      ensures
        var c := choices(old(tick));
        r == if c.fault.Some? then Err(c.fault.value) else Ok(c.yes)
      ensures choices(old(tick)).edit.None? ==> config == old(config)
      ensures LogOpen(log) && (CacheValidated in old(log) ==> CacheValidated in log)
      ensures r.Ok? ==> CacheValidated in log
      ensures failures == old(failures) + if r.Err? then 1 else 0
      ensures r.Err? ==> log == old(log)
    {
      r := Check();
      if r.Ok? {
        ValidatedFirstSnoc(log, CacheValidated);
        log := log + [CacheValidated];
      }
    }

    /** Enabling writes happen only after the cache has been validated. */
    method MarkEnabled()
      requires LogOpen(log) && CacheValidated in log
      modifies this`log
      ensures LogOpen(log) && CacheValidated in log
    {
      ValidatedFirstSnoc(log, EnabledWritten);
      log := log + [EnabledWritten];
    }

    /** Render the owned state into the config. */
    method PublishState(enabled: bool, disableLegacy: bool) returns (r: Result<string, Fault>)
      requires LogOpen(log) && CacheValidated in log
      modifies this`tick, this`config, this`edits, this`calmSince, this`failures, this`log
      ensures Passed(old(tick), old(calmSince), tick, calmSince)
      ensures tick > old(tick)
      ensures Quiet(old(tick)) && TextsRight() ==> r.Ok? && disabled(config.data) == !enabled
      ensures r.Ok? ==> tick == old(tick) + 2 && failures == old(failures)
      ensures calmSince <= old(tick) ==>
        if r.Ok? then r.value == config.data == render(old(config).data, enabled, disableLegacy)
        else config == old(config) && failures > old(failures)
      ensures LogOpen(log) && CacheValidated in log
    {
      var before := ObserveConfig();
      if before.Err? {
        return Err(before.error);
      }
      if enabled {
        MarkEnabled();
      }
      r := WriteConfig(before.value, render(before.value.data, enabled, disableLegacy));
    }

    /** Observe the published state: the plugin must be as enabled as was asked for. */
    method ObservePublished(enabled: bool) returns (r: Result<Snapshot, Fault>)
      modifies this`tick, this`config, this`edits, this`calmSince, this`failures
      ensures Passed(old(tick), old(calmSince), tick, calmSince)
      ensures calmSince <= old(tick) ==> config == old(config)
      ensures tick == old(tick) + 1
      ensures config.stamp == old(config).stamp + if choices(old(tick)).edit.Some? then 1 else 0
      ensures choices(old(tick)).edit.None? ==> config == old(config)
      ensures Quiet(old(tick)) && disabled(old(config).data) == !enabled ==> r.Ok?
      ensures r.Ok? ==> disabled(r.value.data) == !enabled && r.value == config && failures == old(failures)
      ensures failures == old(failures) && r.Err? ==> disabled(config.data) == enabled
    {
      r := ObserveConfig();
      if r.Ok? && disabled(r.value.data) == enabled {
        return Err(PluginError("codex_config_publication_failed"));
      }
    }

    /** Write the receipt, or find it written already. A failure may come before or after the receipt is in place. */
    method PublishReceipt(tx: Transaction) returns (r: Result<bool, Fault>)
      requires LogOpen(log) && CacheValidated in log && HasReceiptParts(tx)
      requires SettledUnlessEdited() && !disabled(settled.data)
      modifies this`tick, this`config, this`edits, this`calmSince, this`failures, this`receipt, this`log
      ensures Passed(old(tick), old(calmSince), tick, calmSince)
      ensures calmSince <= old(tick) ==> config == old(config)
      ensures tick == old(tick) + 1
      ensures failures == old(failures) + if r.Err? then 1 else 0
      ensures r.Ok? <==> choices(old(tick)).fault.None?
      ensures choices(old(tick)).edit.None? ==> config == old(config)
      ensures r.Ok? ==> Committed(tx)
      ensures Committed(tx) || Unpublished(old(receipt))
      ensures ValidatedFirst(log)
    {
      var c := Step();
      if c.fault.None? || c.yes {
        ValidatedFirstSnoc(log, ReceiptPublished);
        receipt := Some(ReceiptOf(tx));
        log := log + [ReceiptPublished];
      }
      r := if c.fault.Some? then Err(c.fault.value) else Ok(true);
    }

    // ---------- recovery ----------

    /** Remove one recorded object if this run made it: true when nothing of it is left. */
    method RemoveCreated(publication: Option<Publication>, item: Artifact) returns (r: Result<bool, Fault>)
      modifies this`tick, this`config, this`edits, this`calmSince, this`failures, this`objects
      ensures Passed(old(tick), old(calmSince), tick, calmSince)
      ensures calmSince <= old(tick) ==> config == old(config)
      ensures Unoverwritten(old(edits), old(config), edits, config)
      ensures edits >= old(edits) && (edits == old(edits) ==> config == old(config))
      ensures objects == old(objects) || (CreatedByRun(publication) && objects == old(objects) - {item})
      ensures tick >= old(tick)
      ensures r.Ok? && r.value ==> (CreatedByRun(publication) ==> item !in objects) && NoFaults(old(tick), tick)
      ensures Quiet(old(tick)) ==> r == Ok(true) && config == old(config)
      ensures r.Err? ==> !r.error.PluginError?
    {
      if !CreatedByRun(publication) {
        return Ok(true);
      }
      var c := Step();
      if c.fault.Some? {
        return if c.fault.value.PluginError? then Ok(false) else Err(c.fault.value);
      }
      objects := objects - {item};
      return Ok(true);
    }

    /** Remove what this run made. Plugin errors are collected, others end the cleanup. */
    method CleanupCreated(tx: Transaction) returns (r: Result<(bool, bool), Fault>)
      modifies this`tick, this`config, this`edits, this`calmSince, this`failures, this`objects
      ensures Passed(old(tick), old(calmSince), tick, calmSince)
      ensures calmSince <= old(tick) ==> config == old(config)
      ensures Unoverwritten(old(edits), old(config), edits, config)
      ensures edits >= old(edits) && (edits == old(edits) ==> config == old(config))
      ensures tick >= old(tick)
      ensures r.Ok? && r.value.1 ==> CreatedRemoved(tx, objects) && NoFaults(old(tick), tick)
      ensures Quiet(old(tick)) ==> r == Ok((CreatedByRun(tx.publication), true)) && config == old(config)
      ensures Kept(objects, old(objects))
      ensures r.Ok? && r.value.0 ==> CreatedByRun(tx.publication) && CacheTree !in objects
      ensures forall o :: o in old(objects) && o !in objects ==>
        (o == CacheTree && CreatedByRun(tx.publication)) || (o == RuntimeTree && CreatedByRun(tx.runtime))
        || (o == DataRoot && CreatedByRun(tx.data))
      ensures r.Err? ==> !r.error.PluginError?
    {
      var cache := RemoveCreated(tx.publication, CacheTree);
      if cache.Err? {
        return Err(cache.error);
      }
      var runtime := RemoveCreated(tx.runtime, RuntimeTree);
      if runtime.Err? {
        return Err(runtime.error);
      }
      var data := RemoveCreated(tx.data, DataRoot);
      if data.Err? {
        return Err(data.error);
      }
      return Ok((CreatedByRun(tx.publication) && cache.value, cache.value && runtime.value && data.value));
    }

    /** What recovery leaves when it ends without a conflict. */
    ghost predicate Restored(tx: Transaction, prior: Prior)
      reads this
    {
      && CreatedRemoved(tx, objects)
      && SettledUnlessEdited()
      && (if PriorSafe(prior) then settled.data == prior.snapshot.data else disabled(settled.data))
    }

    /** The start of recovery: is the config still the owned one, and is the plugin disabled? The result is the
        disabled config and whether a conflict was seen. */
    method FenceForRecovery(tx: Transaction, startConflict: bool) returns (r: Result<(Snapshot, bool), Fault>)
      modifies this`tick, this`config, this`edits, this`calmSince, this`failures
      ensures Passed(old(tick), old(calmSince), tick, calmSince)
      ensures tick > old(tick)
      ensures r.Ok? ==>
        r.value.0 == config && disabled(config.data) && (startConflict ==> r.value.1) && NoFaults(old(tick), tick)
      ensures Quiet(old(tick)) && TextsRight() && !startConflict && old(config).data == tx.ownedData ==>
        r.Ok? && !r.value.1
      ensures Quiet(old(tick)) && TextsRight() ==> r.Ok?
      ensures Quiet(old(tick)) && old(config).data != tx.ownedData && r.Ok? ==> r.value.1
    {
      var conflict := startConflict;
      var current := ObserveConfig();
      if current.Err? {
        return Err(current.error);
      }
      if current.value.data != tx.ownedData {
        conflict := true;
      }
      if !disabled(current.value.data) {
        current := DisablePluginOnly();
        if current.Err? {
          return Err(current.error);
        }
      }
      return Ok((current.value, conflict));
    }

    method SafeToRestore(prior: Prior) returns (r: Result<bool, Fault>)
      modifies this`tick, this`config, this`edits, this`calmSince, this`failures
      ensures Passed(old(tick), old(calmSince), tick, calmSince)
      ensures calmSince <= old(tick) ==> config == old(config)
      ensures tick >= old(tick) && (old(SettledUnlessEdited()) ==> SettledUnlessEdited())
      ensures Unoverwritten(old(edits), old(config), edits, config)
      ensures r.Ok? ==> r.value == PriorSafe(prior) && NoFaults(old(tick), tick)
      ensures Quiet(old(tick)) ==> r.Ok? && config == old(config)
    {
      var safe := disabled(prior.snapshot.data);
      if !safe && prior.restorableEnabled {
        var stillValid := Check();
        if stillValid.Err? {
          return stillValid;
        }
        safe := priorCacheValid;
      }
      return Ok(safe);
    }

    /** Put the prior config back unless the disabled one has changed meanwhile; the result tells of a conflict. */
    method RestorePrior(prior: Prior, current: Snapshot) returns (r: Result<bool, Fault>)
      requires current.stamp <= config.stamp
      modifies this`tick, this`config, this`edits, this`calmSince, this`failures, this`settled, this`settledEdits
      ensures Passed(old(tick), old(calmSince), tick, calmSince)
      ensures tick > old(tick)
      ensures r == Ok(false) ==>
        SettledUnlessEdited() && settled.data == prior.snapshot.data && NoFaults(old(tick), tick)
      ensures r == Ok(false) ==> old(config) == current && settledEdits == old(edits)
      ensures Quiet(old(tick)) && old(config) == current ==> r == Ok(false)
    {
      var snapshot := ObserveConfig();
      if snapshot.Err? {
        return Err(snapshot.error);
      }
      if snapshot.value != current {
        return Ok(true);
      }
      var written := WriteConfig(snapshot.value, prior.snapshot.data);
      if written.Err? {
        return Err(written.error);
      }
      Settle();
      return Ok(false);
    }

    /** The guarded part of recovery: observe, disable, clean up, and restore the prior config when that is safe. */
    method TryRecover(tx: Transaction, prior: Prior, startConflict: bool)
      returns (r: Result<bool, Fault>, removed: bool, ghost fencedEdits: nat)
      modifies this`tick, this`config, this`edits, this`calmSince, this`failures, this`objects,
        this`settled, this`settledEdits
      ensures Passed(old(tick), old(calmSince), tick, calmSince)
      ensures tick > old(tick)
      ensures r == Ok(false) ==> !startConflict && Restored(tx, prior) && NoFaults(old(tick), tick)
      ensures Quiet(old(tick)) && TextsRight() && !startConflict && old(config).data == tx.ownedData ==>
        r == Ok(false) && removed == CreatedByRun(tx.publication)
      ensures Quiet(old(tick)) && TextsRight() ==> r.Ok?
      ensures Quiet(old(tick)) && old(config).data != tx.ownedData && r.Ok? ==> r.value
      ensures r == Ok(false) && PriorSafe(prior) ==> settledEdits == fencedEdits
      ensures Kept(objects, old(objects))
      ensures forall o :: o in old(objects) && o !in objects ==>
        (o == CacheTree && CreatedByRun(tx.publication)) || (o == RuntimeTree && CreatedByRun(tx.runtime))
        || (o == DataRoot && CreatedByRun(tx.data))
      ensures removed ==> CreatedByRun(tx.publication) && CacheTree !in objects
    {
      removed, fencedEdits := false, edits;
      var fence := FenceForRecovery(tx, startConflict);
      if fence.Err? {
        return Err(fence.error), removed, fencedEdits;
      }
      fencedEdits := edits;
      Settle();
      var cleanup := CleanupCreated(tx);
      if cleanup.Err? {
        return Err(cleanup.error), removed, fencedEdits;
      }
      removed := cleanup.value.0;
      var conflict := fence.value.1 || !cleanup.value.1;
      var safe := SafeToRestore(prior);
      if safe.Err? {
        return safe, removed, fencedEdits;
      }
      if conflict || !safe.value {
        return Ok(conflict), removed, fencedEdits;
      }
      r := RestorePrior(prior, fence.value.0);
    }

    /** Removing what is recorded as made leaves exactly what was there before. */
    lemma RolledBack(tx: Transaction, before: Objects, since: nat, failed: Objects, cleaned: Objects)
      requires RecordsRight(tx, before, failed, since) && CreatedRemoved(tx, cleaned)
      requires Kept(before, cleaned) && Kept(cleaned, failed)
      ensures cleaned == before
    {
      forall o | o in cleaned
        ensures o in before
      {
        assert o in failed && (o in before || RecordedAsMade(tx, o));
      }
    }

    /** Recover from a failure. Without a conflict, everything that this run made and recorded is gone, and the config
        is byte-equal to the prior one when the prior one is safe, and otherwise leaves the plugin disabled; and no
        step failed but possibly the last, which only observes. There is no conflict when nothing goes wrong. */
    method RecoverInstall(tx: Transaction, prior: Prior, reason: string, ghost before: Objects, ghost since: nat)
      returns (result: InstallResult)
      requires RecordsRight(tx, before, objects, since)
      modifies this`tick, this`config, this`edits, this`calmSince, this`failures, this`objects,
        this`settled, this`settledEdits
      ensures Passed(old(tick), old(calmSince), tick, calmSince)
      ensures result.Aborted? || result.Recovered?
      ensures result.Recovered? ==> result.reason == reason
      ensures tick > old(tick)
      ensures result.Recovered? && !result.conflict ==>
        reason != CONCURRENT && Restored(tx, prior) && NoFaults(old(tick), tick - 1) && objects == before
      ensures result.Recovered? && !result.conflict ==>
        disabled(settled.data)
        || (settled.data == prior.snapshot.data && prior.restorableEnabled && priorCacheValid)
      ensures Quiet(old(tick)) && TextsRight() ==> result.Recovered?
      ensures Quiet(old(tick)) && TextsRight() && old(config).data != tx.ownedData ==> result.conflict
      ensures Quiet(old(tick)) && TextsRight() && reason != CONCURRENT && old(config).data == tx.ownedData ==>
        result == Recovered(reason, false, CreatedByRun(tx.publication))
      ensures result.Recovered? && result.cacheRemoved ==> CreatedByRun(tx.publication) && CacheTree !in objects
      ensures Kept(before, objects)
    {
      var r, removed, _ := TryRecover(tx, prior, reason == CONCURRENT);
      if r.Err? && r.error.Interrupted? {
        return Aborted;
      }
      var conflict := r.Err? || r.value;
      var final := ObserveConfig();
      if final.Err? && final.error.Interrupted? {
        return Aborted;
      }
      if !conflict {
        RolledBack(tx, before, since, old(objects), objects);
      }
      return Recovered(reason, conflict, removed);
    }

    // ---------- the transaction ----------

    /** The run's own last write is in the config but not in its record: the first disabling, or the prior config put
        back for a generation that stays configured. */
    ghost predicate LeftUnrecorded(tx: Transaction, prior: Prior)
      reads this
    {
      && !disabled(prior.snapshot.data)
      && ((tx.ownedData == prior.snapshot.data && config.data == disable(prior.snapshot.data))
          || (disabled(tx.ownedData) && config.data == prior.snapshot.data))
    }

    ghost predicate Recognised(tx: Transaction, prior: Prior, unrecorded: bool)
      reads this
    {
      if unrecorded then LeftUnrecorded(tx, prior) else tx.ownedData == config.data
    }

    /** No other program edits the config at step `n`. */
    ghost predicate Unedited(n: nat)
      reads {}
    {
      choices(n).edit.None?
    }

    /** Nothing goes wrong from step `n` on. */
    ghost predicate Smooth(n: nat)
      reads {}
    {
      Quiet(n) && AlwaysYes() && TextsRight()
    }

    /** Data root, control key and runtime. */
    method PrepareResources(start: Transaction, ghost before: Objects, ghost since: nat)
      returns (tx: Transaction, r: Result<bool, Fault>)
      requires start == Transaction(None, None, None, start.ownedData) && objects == before && since <= tick
      modifies this`tick, this`config, this`edits, this`calmSince, this`failures, this`objects
      ensures Passed(old(tick), old(calmSince), tick, calmSince)
      ensures calmSince <= old(tick) ==> config == old(config)
      ensures tick > old(tick) && (r.Ok? ==> tick == old(tick) + 4)
      ensures CalmBetween(old(tick), old(tick) + 4) ==> r.Ok? && config == old(config) && calmSince == old(calmSince)
      ensures RecordsRight(tx, before, objects, since) && tx.ownedData == start.ownedData && tx.publication.None?
      ensures r.Ok? ==> tx.runtime.Some? && tx.data.Some? && failures == old(failures)
    {
      assert Calm(old(tick)) && Calm(old(tick) + 1) && Calm(old(tick) + 2) && Calm(old(tick) + 3)
        <== CalmBetween(old(tick), old(tick) + 4);
      tx := start;
      var data := Prepare(DataRoot);
      if data.Err? {
        return tx, Err(data.error);
      }
      tx := tx.(data := Some(data.value));
      var key := Check();
      if key.Err? {
        return tx, key;
      }
      var bound := Check();
      if bound.Err? {
        return tx, bound;
      }
      var runtime := Prepare(RuntimeTree);
      if runtime.Err? {
        return tx, Err(runtime.error);
      }
      tx := tx.(runtime := Some(runtime.value));
      return tx, Ok(true);
    }

    /** What has answered yes when a transaction ends by committing: the final comparison, the revalidation of the
        configured generation, or the trust check of the enabled config and its final verification. */
    ghost predicate Verdicts(way: Way, end: nat)
      reads {}
    {
      match way
      case InPlace => end >= 2 && choices(end - 2).yes
      case KeptConfigured => end >= 5 && choices(end - 5).yes
      case EnabledRequested => end >= 10 && choices(end - 10).yes && choices(end - 3).yes
    }

    /** The config text that an undisturbed transaction over the text `prior` commits to. */
    function CommittedText(way: Way, prior: string): string
      reads {}
    {
      if !way.EnabledRequested? then prior
      else EnabledText(FencedText(prior))
    }

    /** The new generation rendered disabled, then enabled, then without the legacy one. */
    function EnabledText(fenced: string): string
      reads {}
    {
      render(render(render(fenced, false, false), true, false), true, true)
    }

    /** The config text that fences the transaction. */
    function FencedText(prior: string): string
      reads {}
    {
      if disabled(prior) then prior else disable(prior)
    }

    /** A reinstall that is already in place: validate, compare, and publish the receipt. */
    method NoWriteReinstall(prior: Prior, tx: Transaction) returns (r: Result<bool, Fault>)
      requires LogOpen(log) && !disabled(prior.snapshot.data) && HasReceiptParts(tx)
      modifies this`tick, this`config, this`edits, this`calmSince, this`failures, this`receipt, this`log,
        this`settled, this`settledEdits
      ensures Passed(old(tick), old(calmSince), tick, calmSince)
      ensures calmSince <= old(tick) ==> config == old(config)
      ensures ValidatedFirst(log) && (Committed(tx) || Unpublished(old(receipt)))
      ensures r.Ok? ==> Committed(tx)
      ensures tick > old(tick)
      ensures r.Ok? ==> tick == old(tick) + 6 && failures == old(failures) && Verdicts(InPlace, tick)
      ensures calmSince <= old(tick) && r.Ok? ==> config == prior.snapshot
      ensures Smooth(old(tick)) && old(config) == prior.snapshot ==> r.Ok?
    {
      r := ValidatePublication();
      if r.Err? {
        return;
      }
      r := CheckTwice();
      if r.Err? {
        return;
      }
      r := CompareInPlace(prior);
      if r.Err? {
        return;
      }
      r := PublishReceipt(tx);
    }

    /** The final comparison of a reinstall: the config is the prior one and matches the cache. */
    method CompareInPlace(prior: Prior) returns (r: Result<bool, Fault>)
      modifies this`tick, this`config, this`edits, this`calmSince, this`failures, this`settled, this`settledEdits
      ensures Passed(old(tick), old(calmSince), tick, calmSince)
      ensures calmSince <= old(tick) ==> config == old(config)
      ensures tick > old(tick)
      ensures r.Ok? ==> tick == old(tick) + 2 && failures == old(failures) && choices(old(tick) + 1).yes
      ensures r.Ok? ==> SettledUnlessEdited() && settled == prior.snapshot
      ensures calmSince <= old(tick) && r.Ok? ==> config == prior.snapshot
      ensures failures == old(failures) && r.Err? ==>
        r == Err(PluginError(CONCURRENT)) || r == Err(PluginError("final_install_verification_failed"))
      ensures calmSince <= old(tick) && old(config) == prior.snapshot && failures == old(failures) ==>
        r != Err(PluginError(CONCURRENT))
      ensures Smooth(old(tick)) && old(config) == prior.snapshot ==> r.Ok?
    {
      var final := ObserveConfig();
      if final.Err? {
        return Err(final.error);
      }
      Settle();
      r := Check();
      if r.Err? {
        return;
      }
      if !r.value {
        return Err(PluginError("final_install_verification_failed"));
      }
      if final.value != prior.snapshot {
        return Err(PluginError(CONCURRENT));
      }
    }

    /** Fence the config: disabled, and unchanged since it was. */
    method FenceConfig(prior: Prior) returns (disabledFirst: Result<Snapshot, Fault>, r: Result<Snapshot, Fault>)
      modifies this`tick, this`config, this`edits, this`calmSince, this`failures
      ensures Passed(old(tick), old(calmSince), tick, calmSince)
      ensures tick > old(tick)
      ensures CalmBetween(old(tick), old(tick) + 4) && TextsRight() && old(config) == prior.snapshot ==>
        r.Ok? && r.value == config
      ensures CalmBetween(old(tick), old(tick) + 4) && TextsRight() && old(config) == prior.snapshot
              && !disabled(prior.snapshot.data) ==>
        tick == old(tick) + 4 && config.data == disable(prior.snapshot.data)
      ensures calmSince <= old(tick) && old(config) == prior.snapshot && disabledFirst.Ok? ==>
        config.data == disabledFirst.value.data && (r.Ok? ==> config == r.value)
      ensures calmSince <= old(tick) && old(config) == prior.snapshot && disabledFirst.Err? ==>
        config == prior.snapshot
        || (!disabled(prior.snapshot.data) && tick == old(tick) + 3 && config.data == disable(prior.snapshot.data))
      ensures r.Ok? ==> disabledFirst.Ok? && disabled(r.value.data) && r.value == disabledFirst.value
      ensures r.Ok? ==> failures == old(failures)
      ensures calmSince <= old(tick) && old(config) == prior.snapshot && r.Ok? ==>
        r.value.data == FencedText(prior.snapshot.data)
      ensures LastLookFails(old(tick)) && old(config) == prior.snapshot && !disabled(prior.snapshot.data) ==>
        disabledFirst == Err(IoError) == r && tick == old(tick) + 3 && config.data == disable(prior.snapshot.data)
        && calmSince == old(calmSince)
    {
      assert Calm(old(tick)) && Calm(old(tick) + 1) && Calm(old(tick) + 3)
        <== CalmBetween(old(tick), old(tick) + 4);
      if disabled(prior.snapshot.data) {
        disabledFirst := ObserveConfig();
        if disabledFirst.Ok? && disabledFirst.value != prior.snapshot {
          disabledFirst := Err(PluginError(CONCURRENT));
        }
      } else {
        disabledFirst := DisablePluginOnly();
      }
      if disabledFirst.Err? {
        return disabledFirst, disabledFirst;
      }
      if !disabled(disabledFirst.value.data) {
        return disabledFirst, Err(PluginError("plugin_disable_verification_failed"));
      }
      r := ObserveConfig();
      if r.Ok? && (!disabled(r.value.data) || r.value != disabledFirst.value) {
        r := Err(PluginError(CONCURRENT));
      }
    }

    /** The configured generation stays selected: put its config back and publish the receipt. */
    method KeepConfigured(prior: Prior, tx: Transaction, fenced: Snapshot) returns (r: Result<bool, Fault>)
      requires LogOpen(log) && CacheValidated in log && !disabled(prior.snapshot.data) && HasReceiptParts(tx)
      modifies this`tick, this`config, this`edits, this`calmSince, this`failures, this`receipt, this`log,
        this`settled, this`settledEdits
      ensures Passed(old(tick), old(calmSince), tick, calmSince)
      ensures ValidatedFirst(log)
      ensures Committed(tx) || Unpublished(old(receipt))
      ensures r.Ok? ==> Committed(tx)
      ensures tick > old(tick)
      ensures calmSince <= old(tick) && old(config) == fenced ==>
        if tick > old(tick) + 2 then config.data == prior.snapshot.data else config == fenced
      ensures r.Ok? ==> tick == old(tick) + 5 && failures == old(failures) && Verdicts(KeptConfigured, tick)
      ensures Smooth(old(tick)) && old(config) == fenced ==> r.Ok?
    {
      r := PutBack(prior, fenced);
      if r.Err? {
        return;
      }
      r := CheckTwice();
      if r.Err? {
        return;
      }
      r := PublishReceipt(tx);
    }

    /** Revalidate the configured generation, and write its config over the fenced one. */
    method PutBack(prior: Prior, fenced: Snapshot) returns (r: Result<bool, Fault>)
      requires LogOpen(log) && CacheValidated in log
      modifies this`tick, this`config, this`edits, this`calmSince, this`failures, this`log,
        this`settled, this`settledEdits
      ensures Passed(old(tick), old(calmSince), tick, calmSince)
      ensures LogOpen(log) && CacheValidated in log
      ensures old(tick) < tick <= old(tick) + 2
      ensures r.Ok? ==> tick == old(tick) + 2 && failures == old(failures) && choices(old(tick)).yes
      ensures r.Ok? ==> SettledUnlessEdited() && settled.data == prior.snapshot.data
      ensures calmSince <= old(tick) && old(config) == fenced ==>
        if r.Ok? then config.data == prior.snapshot.data else config == fenced
      ensures calmSince <= old(tick) && old(config) == fenced && failures == old(failures) && r.Err? ==>
        r == Err(PluginError("installed_generation_revalidation_failed"))
      ensures Smooth(old(tick)) && old(config) == fenced ==> r.Ok?
    {
      r := Check();
      if r.Err? {
        return;
      }
      if !r.value {
        return Err(PluginError("installed_generation_revalidation_failed"));
      }
      MarkEnabled();
      var written := WriteConfig(fenced, prior.snapshot.data);
      if written.Err? {
        return Err(written.error);
      }
      Settle();
      r := Ok(true);
    }

    /** Publish the new generation disabled, verify, and validate the cache. */
    method PublishDisabled(start: Transaction) returns (tx: Transaction, r: Result<bool, Fault>)
      requires LogOpen(log) && CacheValidated in log
      modifies this`tick, this`config, this`edits, this`calmSince, this`failures, this`log
      ensures Passed(old(tick), old(calmSince), tick, calmSince)
      ensures tick > old(tick)
      ensures LogOpen(log) && CacheValidated in log && tx == start.(ownedData := tx.ownedData)
      ensures calmSince <= old(tick) && start.ownedData == old(config).data ==> tx.ownedData == config.data
      ensures calmSince <= old(tick) && r.Ok? ==> config.data == render(old(config).data, false, false)
      ensures r.Ok? ==> tick == old(tick) + 6 && failures == old(failures)
      ensures Smooth(old(tick)) ==> r.Ok?
    {
      tx := start;
      r := Check();
      if r.Err? {
        return;
      }
      var owned := PublishState(false, false);
      if owned.Err? {
        return tx, Err(owned.error);
      }
      tx := tx.(ownedData := owned.value);
      var observed := ObservePublished(false);
      if observed.Err? {
        return tx, Err(observed.error);
      }
      r := Check();
      if r.Err? {
        return;
      }
      r := ValidatePublication();
    }

    /** Publish the new generation enabled, and verify that it stays as it was published. */
    method PublishEnabled(start: Transaction) returns (tx: Transaction, r: Result<bool, Fault>)
      requires LogOpen(log) && CacheValidated in log
      modifies this`tick, this`config, this`edits, this`calmSince, this`failures, this`log
      ensures Passed(old(tick), old(calmSince), tick, calmSince)
      ensures tick > old(tick)
      ensures LogOpen(log) && CacheValidated in log && tx == start.(ownedData := tx.ownedData)
      ensures calmSince <= old(tick) && start.ownedData == old(config).data ==> tx.ownedData == config.data
      ensures calmSince <= old(tick) && r.Ok? ==> config.data == render(old(config).data, true, false)
      ensures r.Ok? ==> tick == old(tick) + 6 && failures == old(failures) && choices(old(tick) + 3).yes
      ensures calmSince <= old(tick) && TextsRight() && failures == old(failures) && r.Err? ==>
        r == Err(PluginError("enabled_trust_verification_failed"))
      ensures r.Ok? ==> forall m :: old(tick) + 3 <= m < tick ==> Unedited(m)
      ensures Smooth(old(tick)) ==> r.Ok?
    {
      tx := start;
      var owned := PublishState(true, false);
      if owned.Err? {
        return tx, Err(owned.error);
      }
      tx := tx.(ownedData := owned.value);
      var enabled := ObservePublished(true);
      if enabled.Err? {
        return tx, Err(enabled.error);
      }
      r := Check();
      if r.Err? {
        return;
      }
      if !r.value {
        return tx, Err(PluginError("enabled_trust_verification_failed"));
      }
      r := Check();
      if r.Err? {
        return;
      }
      var checked := ObserveConfig();
      if checked.Err? {
        return tx, Err(checked.error);
      }
      if checked.value != enabled.value {
        return tx, Err(PluginError(CONCURRENT));
      }
    }

    /** The last publication: validate again, drop the legacy plugin, and observe the plugin enabled. */
    method PublishFinal(start: Transaction) returns (tx: Transaction, r: Result<bool, Fault>)
      requires LogOpen(log) && CacheValidated in log
      modifies this`tick, this`config, this`edits, this`calmSince, this`failures, this`log,
        this`settled, this`settledEdits
      ensures Passed(old(tick), old(calmSince), tick, calmSince)
      ensures tick > old(tick)
      ensures LogOpen(log) && CacheValidated in log && tx == start.(ownedData := tx.ownedData)
      ensures r.Ok? ==> SettledUnlessEdited() && !disabled(settled.data)
      ensures calmSince <= old(tick) && start.ownedData == old(config).data ==> tx.ownedData == config.data
      ensures calmSince <= old(tick) && r.Ok? ==> config.data == render(old(config).data, true, true)
      ensures r.Ok? ==> tick == old(tick) + 4 && failures == old(failures)
      ensures Smooth(old(tick)) ==> r.Ok?
    {
      tx := start;
      r := ValidatePublication();
      if r.Err? {
        return;
      }
      var owned := PublishState(true, true);
      if owned.Err? {
        return tx, Err(owned.error);
      }
      tx := tx.(ownedData := owned.value);
      var final := ObservePublished(true);
      if final.Err? {
        return tx, Err(final.error);
      }
      Settle();
      r := Ok(true);
    }

    /** The last two checks, of what and that nothing else is enabled, and the receipt. */
    method CommitEnabled(tx: Transaction) returns (r: Result<bool, Fault>)
      requires LogOpen(log) && CacheValidated in log && HasReceiptParts(tx)
      requires SettledUnlessEdited() && !disabled(settled.data)
      modifies this`tick, this`config, this`edits, this`calmSince, this`failures, this`receipt, this`log
      ensures Passed(old(tick), old(calmSince), tick, calmSince)
      ensures calmSince <= old(tick) ==> config == old(config)
      ensures ValidatedFirst(log) && (Committed(tx) || Unpublished(old(receipt)))
      ensures r.Ok? ==> Committed(tx)
      ensures tick > old(tick)
      ensures r.Ok? ==> tick == old(tick) + 3 && failures == old(failures) && choices(old(tick)).yes
      ensures failures == old(failures) && r.Err? ==> r == Err(PluginError("final_install_verification_failed"))
      ensures Smooth(old(tick)) ==> r.Ok?
    {
      r := Check();
      if r.Err? {
        return;
      }
      if !r.value {
        return Err(PluginError("final_install_verification_failed"));
      }
      r := Check();
      if r.Err? {
        return;
      }
      r := PublishReceipt(tx);
    }

    /** Publish the new generation disabled, then enabled, then without the legacy one; verify each, then commit. */
    method EnableRequested(start: Transaction) returns (tx: Transaction, r: Result<bool, Fault>)
      requires LogOpen(log) && CacheValidated in log && HasReceiptParts(start)
      modifies this`tick, this`config, this`edits, this`calmSince, this`failures, this`receipt, this`log,
        this`settled, this`settledEdits
      ensures Passed(old(tick), old(calmSince), tick, calmSince)
      ensures ValidatedFirst(log) && tx == start.(ownedData := tx.ownedData)
      ensures Committed(tx) || Unpublished(old(receipt))
      ensures r.Ok? ==> Committed(tx)
      ensures tick > old(tick)
      ensures calmSince <= old(tick) && start.ownedData == old(config).data ==> tx.ownedData == config.data
      ensures calmSince <= old(tick) && r.Ok? ==>
        config.data == EnabledText(old(config).data)
      ensures r.Ok? ==> tick == old(tick) + 19 && failures == old(failures) && Verdicts(EnabledRequested, tick)
      ensures Smooth(old(tick)) ==> r.Ok?
    {
      tx, r := PublishDisabled(start);
      if r.Err? {
        return;
      }
      tx, r := PublishEnabled(tx);
      if r.Err? {
        return;
      }
      tx, r := PublishFinal(tx);
      if r.Err? {
        return;
      }
      r := CommitEnabled(tx);
    }

    /** Validate the published cache, qualify the requested generation, and select one: does the configured one stay? */
    method Select() returns (r: Result<bool, Fault>)
      requires LogOpen(log)
      modifies this`tick, this`config, this`edits, this`calmSince, this`failures, this`log
      ensures Passed(old(tick), old(calmSince), tick, calmSince)
      ensures calmSince <= old(tick) ==> config == old(config)
      ensures tick > old(tick) && LogOpen(log)
      ensures r.Ok? ==> tick == old(tick) + 3 && failures == old(failures) && r.value == choices(old(tick) + 2).yes
      ensures r.Ok? ==> CacheValidated in log
      ensures Quiet(old(tick)) ==> r.Ok? && config == old(config)
      ensures choices(old(tick)).fault.Some? ==>
        r == Err(choices(old(tick)).fault.value) && log == old(log) && tick == old(tick) + 1
        && (choices(old(tick)).edit.None? ==> config == old(config))
    {
      r := ValidatePublication();
      if r.Err? {
        return;
      }
      r := Check();
      if r.Err? {
        return;
      }
      r := Check();
    }

    /** Validate the published cache, select a generation, and commit to it. */
    method SelectAndCommit(prior: Prior, start: Transaction, fenced: Snapshot, ghost before: Objects,
                           ghost since: nat)
      returns (tx: Transaction, r: Result<bool, Fault>, ghost unrecorded: bool, ghost way: Way)
      requires LogOpen(log) && (prior.restorableEnabled ==> !disabled(prior.snapshot.data)) && HasReceiptParts(start)
      requires RecordsRight(start, before, objects, since)
      modifies this`tick, this`config, this`edits, this`calmSince, this`failures, this`receipt, this`log,
        this`settled, this`settledEdits
      ensures Passed(old(tick), old(calmSince), tick, calmSince)
      ensures ValidatedFirst(log) && tx == start.(ownedData := tx.ownedData)
      ensures RecordsRight(tx, before, objects, since)
      ensures Committed(tx) || Unpublished(old(receipt))
      ensures r.Ok? ==> Committed(tx)
      ensures tick > old(tick)
      ensures calmSince <= old(tick) && old(config) == fenced && start.ownedData == fenced.data
              && disabled(fenced.data) && r.Err? ==>
        Recognised(tx, prior, unrecorded)
      ensures r.Ok? ==> failures == old(failures) && Verdicts(way, tick) && !way.InPlace?
      ensures r.Ok? ==> (way.KeptConfigured? <==> choices(old(tick) + 2).yes && prior.restorableEnabled)
      ensures calmSince <= old(tick) && old(config) == fenced && r.Ok? ==>
        config.data == if way.KeptConfigured? then prior.snapshot.data else EnabledText(fenced.data)
      ensures Smooth(old(tick)) && old(config) == fenced ==> r.Ok?
      ensures choices(old(tick)).fault.Some? ==>
        tx == start && r == Err(choices(old(tick)).fault.value) && log == old(log) && receipt == old(receipt)
        && tick == old(tick) + 1 && (choices(old(tick)).edit.None? ==> config == old(config))
    {
      tx, unrecorded, way := start, false, EnabledRequested;
      r := Select();
      if r.Err? {
        return;
      }
      if r.value && prior.restorableEnabled {
        ghost var begun := tick;
        r := KeepConfigured(prior, tx, fenced);
        unrecorded, way := tick > begun + 2, KeptConfigured;
        return;
      }
      tx, r := EnableRequested(tx);
    }

    /** Fence the config and publish the cache. */
    method FenceAndPublish(prior: Prior, start: Transaction, ghost before: Objects, ghost since: nat)
      returns (tx: Transaction, r: Result<Snapshot, Fault>, ghost unrecorded: bool)
      requires RecordsRight(start, before, objects, since) && since <= tick && start.publication.None?
      modifies this`tick, this`config, this`edits, this`calmSince, this`failures, this`objects
      ensures Passed(old(tick), old(calmSince), tick, calmSince) && tick > old(tick)
      ensures RecordsRight(tx, before, objects, since)
      ensures tx.runtime == start.runtime && tx.data == start.data
      ensures r.Ok? ==> tx.publication.Some? && tx.ownedData == r.value.data && disabled(r.value.data) && !unrecorded
      ensures calmSince <= old(tick) && old(config) == prior.snapshot && start.ownedData == prior.snapshot.data ==>
        if r.Ok? then config == r.value && r.value.data == FencedText(prior.snapshot.data)
        else Recognised(tx, prior, unrecorded)
      ensures r.Ok? ==> failures == old(failures)
      ensures Smooth(old(tick)) && old(config) == prior.snapshot ==> r.Ok? && config == r.value
      ensures CutShort(old(tick), prior) && old(config) == prior.snapshot ==>
        r.Ok? && tick == old(tick) + 5 && config.data == disable(prior.snapshot.data)
      ensures LastLookFails(old(tick)) && TextsRight()
              && old(config) == prior.snapshot && !disabled(prior.snapshot.data) ==>
        r == Err(IoError) && unrecorded && calmSince == old(calmSince) && tick == old(tick) + 3
    {
      tx, unrecorded := start, false;
      var disabledFirst, fenced := FenceConfig(prior);
      if disabledFirst.Ok? {
        tx := tx.(ownedData := disabledFirst.value.data);
      }
      if fenced.Err? {
        unrecorded := disabledFirst.Err? && config.data != prior.snapshot.data;
        return tx, fenced, unrecorded;
      }
      var publication := Prepare(CacheTree);
      if publication.Err? {
        return tx, Err(publication.error), unrecorded;
      }
      tx := tx.(ownedData := fenced.value.data, publication := Some(publication.value));
      return tx, fenced, unrecorded;
    }

    /** Fence the config, publish the cache, and commit to a generation. */
    method InstallNew(prior: Prior, start: Transaction, ghost before: Objects, ghost since: nat)
      returns (tx: Transaction, r: Result<bool, Fault>, ghost unrecorded: bool, ghost way: Way)
      requires LogOpen(log) && RecordsRight(start, before, objects, since) && since <= tick
      requires start.publication.None? && start.runtime.Some? && start.data.Some?
      requires prior.restorableEnabled ==> !disabled(prior.snapshot.data)
      modifies this
      ensures Passed(old(tick), old(calmSince), tick, calmSince)
      ensures ValidatedFirst(log) && RecordsRight(tx, before, objects, since)
      ensures Committed(tx) || Unpublished(old(receipt))
      ensures tx.runtime.Some? && tx.data.Some?
      ensures r.Ok? ==> Committed(tx)
      ensures tick > old(tick)
      ensures calmSince <= old(tick) && old(config) == prior.snapshot && start.ownedData == prior.snapshot.data ==>
        if r.Ok? then config.data == CommittedText(way, prior.snapshot.data) else Recognised(tx, prior, unrecorded)
      ensures r.Ok? ==> failures == old(failures) && Verdicts(way, tick) && !way.InPlace?
      ensures Smooth(old(tick)) && old(config) == prior.snapshot ==> r.Ok?
      ensures CutShort(old(tick), prior) && old(config) == prior.snapshot ==>
        && r == Err(Interrupted) && tick == old(tick) + 6 && Unpublished(old(receipt))
        && tx.publication.Some? && config.data == disable(prior.snapshot.data)
      ensures LastLookFails(old(tick)) && TextsRight()
              && old(config) == prior.snapshot && !disabled(prior.snapshot.data) ==>
        r == Err(IoError) && unrecorded && calmSince == old(calmSince) && tick == old(tick) + 3
    {
      var fenced;
      tx, fenced, unrecorded := FenceAndPublish(prior, start, before, since);
      if fenced.Err? {
        return tx, Err(fenced.error), unrecorded, EnabledRequested;
      }
      tx, r, unrecorded, way := SelectAndCommit(prior, tx, fenced.value, before, since);
    }

    /** From step `n` on an enabled config is disabled and fenced, the cache is published, and its validation is
        interrupted. */
    ghost predicate CutShort(n: nat, prior: Prior)
      reads {}
    {
      && CalmBetween(n, n + 4) && Calm(n + 4)
      && choices(n + 5).edit.None? && choices(n + 5).fault == Some(Interrupted)
      && TextsRight() && !disabled(prior.snapshot.data)
    }

    /** From step `n` on a reinstall of an enabled prior generation is found in place. */
    ghost predicate FoundInPlace(n: nat, prior: Prior, before: Objects)
      reads {}
    {
      choices(n + 4).yes && prior.restorableEnabled && CacheTree in before
    }

    /** Prepare the resources and look whether a reinstall is already in place; then its cache is the recorded one. */
    method PrepareAndLook(prior: Prior, start: Transaction, ghost before: Objects, ghost since: nat)
      returns (tx: Transaction, r: Result<bool, Fault>)
      requires start == Transaction(None, None, None, start.ownedData) && objects == before && since <= tick
      modifies this`tick, this`config, this`edits, this`calmSince, this`failures, this`objects
      ensures Passed(old(tick), old(calmSince), tick, calmSince) && tick > old(tick)
      ensures calmSince <= old(tick) ==> config == old(config)
      ensures CalmBetween(old(tick), old(tick) + 4) && Calm(old(tick) + 4) ==>
        r.Ok? && config == old(config) && tick == old(tick) + 5
        && calmSince == old(calmSince)
      ensures RecordsRight(tx, before, objects, since) && tx.ownedData == start.ownedData
      ensures r.Ok? ==> tx.runtime.Some? && tx.data.Some? && failures == old(failures)
      ensures r.Ok? ==> tick == old(tick) + 5 && (r.value <==> FoundInPlace(old(tick), prior, before))
      ensures r.Ok? ==> (r.value <==> tx.publication.Some?)
    {
      tx, r := PrepareResources(start, before, since);
      if r.Ok? {
        r := Check();
      }
      if r.Ok? && !(prior.restorableEnabled && CacheTree in objects) {
        r := Ok(false);
      }
      if r == Ok(true) {
        tx := tx.(publication := Some(Publication(false, objects[CacheTree])));
      }
    }

    /** The guarded part of the transaction, with the transaction record as it stands when it ends. */
    method TryInstall(prior: Prior, start: Transaction, ghost before: Objects, ghost since: nat)
      returns (tx: Transaction, r: Result<bool, Fault>, ghost unrecorded: bool, ghost way: Way)
      requires LogOpen(log) && objects == before && since <= tick
      requires start == Transaction(None, None, None, prior.snapshot.data)
      requires prior.restorableEnabled ==> !disabled(prior.snapshot.data)
      modifies this
      ensures Passed(old(tick), old(calmSince), tick, calmSince)
      ensures ValidatedFirst(log) && RecordsRight(tx, before, objects, since)
      ensures Committed(tx) || Unpublished(old(receipt))
      ensures r.Ok? ==> Committed(tx) && tx.data.Some?
      ensures tick > old(tick)
      ensures calmSince <= old(tick) && old(config) == prior.snapshot && r.Err? ==>
        Recognised(tx, prior, unrecorded)
      ensures r.Ok? ==> failures == old(failures) && Verdicts(way, tick)
      ensures r.Ok? ==> (way.InPlace? <==> FoundInPlace(old(tick), prior, before))
      ensures calmSince <= old(tick) && old(config) == prior.snapshot && r.Ok? ==>
        config.data == CommittedText(way, prior.snapshot.data)
      ensures Smooth(old(tick)) && old(config) == prior.snapshot ==> r.Ok?
      ensures CutShortReinstall(old(tick), prior, before) && old(config) == prior.snapshot ==>
        && r == Err(Interrupted) && tick == old(tick) + 11 && Unpublished(old(receipt))
        && HasReceiptParts(tx)
        && config.data == disable(prior.snapshot.data)
      ensures CutAfterDisabling(old(tick), prior, before) && old(config) == prior.snapshot ==>
        r == Err(IoError) && unrecorded && calmSince == old(calmSince) && tick == old(tick) + 8
    {
      unrecorded, way := false, InPlace;
      tx, r := PrepareAndLook(prior, start, before, since);
      assert CutAfterDisabling(old(tick), prior, before) && old(config) == prior.snapshot ==>
        r == Ok(false) && calmSince == old(calmSince) && config == prior.snapshot && LastLookFails(tick);
      if r.Err? {
        return;
      }
      if r.value {
        r := NoWriteReinstall(prior, tx);
        return;
      }
      tx, r, unrecorded, way := InstallNew(prior, tx, before, since);
    }

    /** From step `n` on the resources are prepared, an enabled plugin is disabled, and the look that verifies it
        fails. */
    ghost predicate CutAfterDisabling(n: nat, prior: Prior, before: Objects)
      reads {}
    {
      && CalmBetween(n, n + 4) && Calm(n + 4) && LastLookFails(n + 5) && TextsRight() && !disabled(prior.snapshot.data)
      && !FoundInPlace(n, prior, before)
    }

    /** From step `n` on a reinstall finds its cache and its runtime, is not in place yet, and is cut short. */
    ghost predicate CutShortReinstall(n: nat, prior: Prior, before: Objects)
      reads {}
    {
      && CalmBetween(n, n + 4) && Calm(n + 4) && !(choices(n + 4).yes && prior.restorableEnabled)
      && CutShort(n + 5, prior) && CacheTree in before && RuntimeTree in before
    }

    /** Whether the receipt of exactly this transaction is committed; a failing probe counts as no. */
    method ProbeReceipt(tx: Transaction) returns (r: Result<bool, Fault>)
      modifies this`tick, this`config, this`edits, this`calmSince, this`failures
      ensures Passed(old(tick), old(calmSince), tick, calmSince)
      ensures calmSince <= old(tick) ==> config == old(config)
      ensures r == Ok(true) <==> ProbeSaysYes(old(tick), tx)
      ensures r.Err? ==> r.error.Interrupted? && HasReceiptParts(tx)
      ensures tick >= old(tick)
      ensures old(SettledUnlessEdited()) ==> SettledUnlessEdited()
      ensures choices(old(tick)).edit.None? ==> config == old(config)
    {
      if !HasReceiptParts(tx) {
        return Ok(false);
      }
      var c := Check();
      if c.Err? {
        return if c.error.Interrupted? then c else Ok(false);
      }
      return Ok(c.value && receipt == Some(ReceiptOf(tx)));
    }

    /** The receipt names the recorded cache and runtime, and the probe at step `n` confirms it. */
    ghost predicate ProbeSaysYes(n: nat, tx: Transaction)
      reads this`receipt
    {
      HasReceiptParts(tx) && receipt == Some(ReceiptOf(tx)) && choices(n).fault.None? && choices(n).yes
    }

    /** An interrupted transaction is left alone exactly when the probe confirms a receipt for its objects, this run's
        own or an earlier one; otherwise, unless the probe is interrupted too, it is recovered. */
    method RecoverInterrupted(tx: Transaction, prior: Prior, ghost before: Objects, ghost since: nat)
      returns (ghost ending: Ending)
      requires RecordsRight(tx, before, objects, since)
      modifies this`tick, this`config, this`edits, this`calmSince, this`failures, this`objects,
        this`settled, this`settledEdits
      ensures Passed(old(tick), old(calmSince), tick, calmSince)
      ensures ending.ReceiptStands? || ending.ProbeInterrupted? || ending.RecoveryRan?
      ensures ending.ReceiptStands? <==> old(ProbeSaysYes(tick, tx))
      ensures ending.ReceiptStands? ==>
        objects == old(objects) && (choices(old(tick)).edit.None? ==> config == old(config))
      ensures ending.ReceiptStands? && old(Committed(tx)) ==> Committed(tx)
      ensures ending.ProbeInterrupted? ==> HasReceiptParts(tx) && objects == old(objects)
      ensures ending.RecoveryRan? && ending.result.Recovered? && !ending.result.conflict ==>
        Restored(tx, prior) && objects == before
      ensures ending.RecoveryRan? && Quiet(old(tick)) && TextsRight() ==>
        ending.result.Recovered? && (ending.result.conflict <==> old(config).data != tx.ownedData)
      ensures Kept(before, objects)
    {
      var committed := ProbeReceipt(tx);
      if committed.Err? {
        return ProbeInterrupted;
      }
      if committed.value {
        return ReceiptStands;
      }
      var recovered := RecoverInstall(tx, prior, "install_interrupted_before_receipt_commit", before, since);
      return RecoveryRan(recovered);
    }

    /** A receipt that this run did not write names only objects that this run did not make. */
    lemma EarlierReceiptNamesReused(tx: Transaction, before: Objects, since: nat, earlier: Option<Receipt>)
      requires RecordsRight(tx, before, objects, since) && HasReceiptParts(tx) && earlier == Some(ReceiptOf(tx))
      requires earlier.value.cache < since && earlier.value.runtime < since
      ensures !CreatedByRun(tx.publication) && !CreatedByRun(tx.runtime)
    {
    }

    /** The end of a transaction that failed. */
    method EndFailed(tx: Transaction, prior: Prior, fault: Fault, ghost before: Objects, ghost since: nat,
                     ghost earlier: Option<Receipt>)
      returns (result: InstallResult, ghost ending: Ending)
      requires RecordsRight(tx, before, objects, since) && (Committed(tx) || Unpublished(earlier))
      requires earlier.Some? ==> earlier.value.cache < since && earlier.value.runtime < since
      modifies this`tick, this`config, this`edits, this`calmSince, this`failures, this`objects,
        this`settled, this`settledEdits
      ensures Passed(old(tick), old(calmSince), tick, calmSince)
      ensures Kept(before, objects)
      ensures result.Recovered? || result.Aborted?
      ensures result.Recovered? ==> ending == RecoveryRan(result)
      ensures result.Recovered? ==>
        !fault.Interrupted?
        && result.reason == if fault.PluginError? then fault.reason else "installer_io_failure"
      ensures ending.ReceiptStands? || ending.ProbeInterrupted? || ending.RecoveryRan?
      ensures !fault.Interrupted? ==> ending == RecoveryRan(result)
      ensures ending.RecoveryRan? && ending.result.Recovered? && !ending.result.conflict ==>
        Restored(tx, prior) && objects == before
      ensures ending.RecoveryRan? && Quiet(old(tick)) && TextsRight() && fault != PluginError(CONCURRENT) ==>
        ending.result.Recovered? && (ending.result.conflict <==> old(config).data != tx.ownedData)
      ensures ending.ProbeInterrupted? ==> HasReceiptParts(tx)
      ensures ending.ReceiptStands? <==> fault.Interrupted? && old(ProbeSaysYes(tick, tx))
      ensures ending.ReceiptStands? ==>
        result.Aborted? && (choices(old(tick)).edit.None? ==> config == old(config))
      ensures ending.ReceiptStands? ==> if old(Committed(tx)) then Committed(tx) else LeftOnEarlier(tx, earlier)
    {
      match fault {
        case PluginError(reason) =>
          result := RecoverInstall(tx, prior, reason, before, since);
          ending := RecoveryRan(result);
        case IoError =>
          result := RecoverInstall(tx, prior, "installer_io_failure", before, since);
          ending := RecoveryRan(result);
        case Interrupted =>
          if HasReceiptParts(tx) && earlier == Some(ReceiptOf(tx)) {
            EarlierReceiptNamesReused(tx, before, since, earlier);
          }
          ending := RecoverInterrupted(tx, prior, before, since);
          result := Aborted;
      }
    }

    /** The run did not commit, and the earlier receipt names its cache and its runtime, both of which it found. */
    ghost predicate LeftOnEarlier(tx: Transaction, earlier: Option<Receipt>)
      reads this
    {
      && Unpublished(earlier) && HasReceiptParts(tx) && earlier == Some(ReceiptOf(tx))
      && !CreatedByRun(tx.publication) && !CreatedByRun(tx.runtime)
    }

    /** The run from where transaction state exists: the transaction, and its end when it fails. */
    method RunFromState(prior: Prior)
      returns (result: InstallResult, ghost tx: Transaction, ghost ending: Ending, ghost failure: Failure)
      requires log == [] && (receipt.Some? ==> receipt.value.cache < tick && receipt.value.runtime < tick)
      requires prior.restorableEnabled ==> !disabled(prior.snapshot.data)
      modifies this
      ensures Passed(old(tick), old(calmSince), tick, calmSince)
      ensures ValidatedFirst(log)
      ensures Kept(old(objects), objects)
      ensures Smooth(old(tick)) && old(config) == prior.snapshot ==> result.Succeeded?
      ensures result.Succeeded? || result.Recovered? || result.Aborted?
      ensures result.Succeeded? ==> Committed(tx) && {CacheTree, RuntimeTree, DataRoot} <= objects.Keys
      ensures result.Succeeded? ==> ending.Regular? && failures == old(failures) && Verdicts(ending.way, tick)
      ensures result.Succeeded? ==>
        (ending.way.InPlace? <==> FoundInPlace(old(tick), prior, old(objects)))
      ensures calmSince <= old(tick) && old(config) == prior.snapshot && result.Succeeded? ==>
        config.data == CommittedText(ending.way, prior.snapshot.data)
      ensures result.Recovered? ==> ending == RecoveryRan(result)
      ensures result.Aborted? ==> !ending.Regular?
      ensures !ending.NoState?
      ensures failure.disturbed ==> calmSince > old(tick)
      ensures ending.RecoveryRan? && ending.result.Recovered? && !ending.result.conflict ==>
        Restored(tx, prior) && objects == old(objects)
      ensures old(config) == prior.snapshot && UndisturbedFailure(failure) && ending.RecoveryRan? ==>
        ending.result.Recovered? && (ending.result.conflict <==> failure.unrecorded)
      ensures ending.ProbeInterrupted? ==> HasReceiptParts(tx)
      ensures ending.ReceiptStands? ==> Committed(tx) || LeftOnEarlier(tx, old(receipt))
      ensures old(LeftDisabledFrom(tick, prior)) ==>
        ending.ReceiptStands? && LeftOnEarlier(tx, old(receipt)) && config.data == disable(prior.snapshot.data)
      ensures CutAfterDisabling(old(tick), prior, old(objects)) && old(config) == prior.snapshot
              && old(calmSince <= tick) ==>
        ending == RecoveryRan(result) && failure == Failure(old(tick) + 8, IoError, false, true)
    {
      ghost var before, since, earlier := objects, tick, receipt;
      var transaction, r;
      ghost var way;
      transaction, r, way, failure := Attempt(prior);
      tx, ending := transaction, Regular(way);
      if r.Ok? {
        result := Succeeded;
        return;
      }
      result, ending := EndFailed(transaction, prior, r.error, before, since, earlier);
    }

    /** The transaction up to where it commits or fails, and how it failed. */
    method Attempt(prior: Prior) returns (tx: Transaction, r: Result<bool, Fault>, ghost way: Way,
                                   ghost failure: Failure)
      requires log == [] && (prior.restorableEnabled ==> !disabled(prior.snapshot.data))
      modifies this
      ensures Passed(old(tick), old(calmSince), tick, calmSince)
      ensures ValidatedFirst(log) && RecordsRight(tx, old(objects), objects, old(tick))
      ensures Committed(tx) || Unpublished(old(receipt))
      ensures r.Ok? ==> Committed(tx) && tx.data.Some?
      ensures r.Ok? ==> failures == old(failures) && Verdicts(way, tick)
      ensures r.Ok? ==>
        (way.InPlace? <==> FoundInPlace(old(tick), prior, old(objects)))
      ensures calmSince <= old(tick) && old(config) == prior.snapshot && r.Ok? ==>
        config.data == CommittedText(way, prior.snapshot.data)
      ensures Smooth(old(tick)) && old(config) == prior.snapshot ==> r.Ok?
      ensures failure.disturbed ==> calmSince > old(tick)
      ensures r.Err? ==> failure.at == tick && failure.fault == r.error
      ensures r.Err? && old(config) == prior.snapshot && UndisturbedFailure(failure) ==>
        (config.data != tx.ownedData <==> failure.unrecorded)
      ensures old(LeftDisabledFrom(tick, prior)) ==>
        && r == Err(Interrupted) && ProbeSaysYes(tick, tx) && !Committed(tx) && choices(tick).edit.None?
        && config.data == disable(prior.snapshot.data)
      ensures CutAfterDisabling(old(tick), prior, old(objects)) && old(config) == prior.snapshot
              && old(calmSince <= tick) ==>
        r == Err(IoError) && failure == Failure(old(tick) + 8, IoError, false, true)
    {
      ghost var since, unrecorded := tick, false;
      tx, r, unrecorded, way := TryInstall(prior, Transaction(None, None, None, prior.snapshot.data), objects, since);
      failure := Failure(tick, if r.Err? then r.error else IoError, calmSince > since, unrecorded);
    }

    /** Nothing disturbed the run up to the failure, nothing goes wrong from there on, and the failure does not report
        a concurrent change itself. */
    ghost predicate UndisturbedFailure(failure: Failure)
      reads {}
    {
      !failure.disturbed && Quiet(failure.at) && TextsRight() && failure.fault != PluginError(CONCURRENT)
    }

    /** From step `n` on an enabled config is disabled by a reinstall whose cache and runtime are in place and named
        by the receipt, which is then interrupted. */
    ghost predicate LeftDisabledFrom(n: nat, prior: Prior)
      reads this
    {
      && config == prior.snapshot && CutShortReinstall(n, prior, objects)
      && CacheTree in objects && RuntimeTree in objects
      && receipt == Some(Receipt(objects[CacheTree], objects[RuntimeTree]))
      && Calm(n + 11) && choices(n + 11).yes
    }

    /** From step `n` on the first disabling of a run over the config `found` is not recorded. */
    ghost predicate CutFromStart(n: nat, found: Snapshot, restorable: bool, before: Objects)
      reads {}
    {
      && FindsCandidate(n)
      && CutAfterDisabling(n + 3, Prior(found, restorable && !disabled(found.data)), before)
    }

    /** The former for a whole run. */
    ghost predicate LeftDisabled(restorable: bool)
      reads this
    {
      FindsCandidate(tick) && LeftDisabledFrom(tick + 3, Prior(config, restorable))
    }

    /** The whole run. Success is returned only when no step failed and every verdict on the way said yes, after the
        cache was validated, before any write of the transaction that enables the plugin, with this run's receipt
        published last, and with the plugin enabled unless another program has edited the config since the final
        verification; and a run in which nothing goes wrong succeeds. A failure is recovered as described above, and
        an interruption is recovered too unless the probe of the receipt is interrupted again or confirms a receipt
        for the objects of this run. That receipt is this run's, and the run has committed, or it is an earlier one
        and names a cache and a runtime that this run has found; then the config is left as the interruption found it.
        What was there before is never removed. */
    method RunInstallTransaction(restorable: bool)
      returns (result: InstallResult, ghost tx: Transaction, ghost prior: Prior, ghost ending: Ending,
               ghost failure: Failure)
      requires log == [] && OlderThan(tick)
      modifies this
      ensures Passed(old(tick), old(calmSince), tick, calmSince)
      ensures ValidatedFirst(log)
      ensures Kept(old(objects), objects)
      ensures Smooth(old(tick)) ==> result.Succeeded?
      ensures result.Succeeded? ==> Committed(tx) && {CacheTree, RuntimeTree, DataRoot} <= objects.Keys
      ensures result.FailedBeforeState? || ending.NoState? ==>
        objects == old(objects) && log == [] && receipt == old(receipt)
      ensures result.Succeeded? ==> ending.Regular? && failures == old(failures) && Verdicts(ending.way, tick)
      ensures result.Succeeded? ==> choices(old(tick) + 2).yes
      ensures calmSince <= old(tick) && result.Succeeded? ==>
        config.data == CommittedText(ending.way, old(config).data)
      ensures result.Succeeded? ==> (ending.way.InPlace? <==> FoundInPlace(old(tick) + 3, prior, old(objects)))
      ensures calmSince <= old(tick) && result.Succeeded? ==>
        prior == Prior(old(config), restorable && !disabled(old(config).data))
      ensures result.Recovered? ==> ending == RecoveryRan(result)
      ensures result.Aborted? ==> !ending.Regular?
      ensures ending.RecoveryRan? && ending.result.Recovered? && !ending.result.conflict ==>
        Restored(tx, prior) && objects == old(objects)
      ensures UndisturbedFailure(failure) && ending.RecoveryRan? ==>
        ending.result.Recovered? && (ending.result.conflict <==> failure.unrecorded)
      ensures failure.disturbed ==> calmSince > old(tick)
      ensures ending.ProbeInterrupted? ==> HasReceiptParts(tx)
      ensures ending.ReceiptStands? ==> Committed(tx) || LeftOnEarlier(tx, old(receipt))
      ensures old(LeftDisabled(restorable)) ==>
        && ending.ReceiptStands? && LeftOnEarlier(tx, old(receipt)) && prior == Prior(old(config), restorable)
        && config.data == disable(old(config).data)
      ensures old(calmSince <= tick && CutFromStart(tick, config, restorable, objects)) && Quiet(old(tick) + 11) ==>
        ending == RecoveryRan(result) && result.Recovered? && result.conflict && !failure.disturbed
        && prior == Prior(old(config), restorable)
    {
      tx, prior, ending := Transaction(None, None, None, config.data), Prior(config, false), NoState;
      failure := Failure(tick, IoError, false, false);
      ghost var begun := tick;
      var classified := ClassifyPrior(restorable);
      if classified.Err? {
        result := ResultBeforeState(classified.error);
        return;
      }
      prior := classified.value;
      ghost var early := calmSince;
      result, tx, ending, failure := RunFromState(classified.value);
      failure := failure.(disturbed := failure.disturbed || early > begun);
    }

    /** From step `n` on the prior state is observed undisturbed, and the package is still the candidate. */
    ghost predicate FindsCandidate(n: nat)
      reads {}
    {
      Calm(n) && Calm(n + 1) && Calm(n + 2) && choices(n + 2).yes
    }

    /** What precedes any transaction state: checks, the observation of the prior state, and whether the package is
        still the candidate. */
    method ClassifyPrior(restorable: bool) returns (r: Result<Prior, Fault>)
      modifies this`tick, this`config, this`edits, this`calmSince, this`failures
      ensures Passed(old(tick), old(calmSince), tick, calmSince) && tick > old(tick)
      ensures calmSince <= old(tick) ==> config == old(config) && (r.Ok? ==> r.value.snapshot == config)
      ensures r.Ok? ==>
        tick == old(tick) + 3 && failures == old(failures) && choices(old(tick) + 2).yes
        && r.value.restorableEnabled == (restorable && !disabled(r.value.snapshot.data))
      ensures failures == old(failures) && r.Err? ==> r == Err(PluginError("package_candidate_changed"))
      ensures FindsCandidate(old(tick)) ==>
        r.Ok? && r.value.snapshot == config == old(config) && calmSince == old(calmSince)
    {
      var baseline := Check();
      if baseline.Err? {
        return Err(baseline.error);
      }
      var observed := ObserveConfig();
      if observed.Err? {
        return Err(observed.error);
      }
      var candidate := Check();
      if candidate.Err? {
        return Err(candidate.error);
      }
      if !candidate.value {
        return Err(PluginError("package_candidate_changed"));
      }
      return Ok(Prior(observed.value, restorable && !disabled(observed.value.data)));
    }

    function ResultBeforeState(fault: Fault): InstallResult {
      match fault
      case PluginError(reason) => FailedBeforeState(reason)
      case IoError => FailedBeforeState("installer_io_failure")
      case Interrupted => Aborted
    }
  }

  /** Such a run: the prior config was enabled and could have been restored, the run was interrupted once, and the
      plugin stays disabled although nothing was committed. */
  method ReinstallLeftDisabled()
    returns (w: World, ghost tx: Transaction, ghost prior: Prior, ghost ending: Ending)
    ensures ending.ReceiptStands? && !w.Committed(tx)
    ensures w.PriorSafe(prior) && w.config.data != prior.snapshot.data
    ensures !w.disabled(prior.snapshot.data) && w.disabled(w.config.data)
  {
    var choices := (n: nat) => Choice(None, if n == 16 then Some(Interrupted) else None, n != 10);
    w := new World(text => text == "off", _ => "off", (_, enabled, _) => if enabled then "on" else "off", true, choices,
                   "on", map[CacheTree := 0, RuntimeTree := 1, DataRoot := 2], Some(Receipt(0, 1)), 3);
    assert forall m :: m != 16 ==> w.Calm(m);
    assert w.LeftDisabled(true);
    var result;
    ghost var failure;
    result, tx, prior, ending, failure := w.RunInstallTransaction(true);
  }

  /** A first install over an enabled config that could be restored: no other program ever touches the config and only
      one look at it fails, the one that verifies the first disabling, but recovery reports a conflict. */
  method UnrecordedWriteConflicts()
    returns (w: World, result: InstallResult, ghost prior: Prior, ghost failure: Failure)
    ensures forall n :: w.choices(n).edit.None? && (n != 10 ==> w.choices(n).fault.None?)
    ensures result.Recovered? && result.conflict && !failure.disturbed && w.PriorSafe(prior)
  {
    var choices := (n: nat) => Choice(None, if n == 10 then Some(IoError) else None, true);
    w := new World(text => text == "off", _ => "off", (_, enabled, _) => if enabled then "on" else "off", true, choices,
                   "on", map[], None, 0);
    ghost var tx;
    ghost var ending;
    result, tx, prior, ending, failure := w.RunInstallTransaction(true);
  }
}

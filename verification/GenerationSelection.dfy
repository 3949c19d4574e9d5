/** Choosing between plugin generations by version: the cache directory scan and the install decision. */
module GenerationSelection {
  import opened Options
  import opened Ordering
  import opened CacheSemver

  /** A directory entry: its name, and whether its manifest and file type qualify it. */
  datatype Candidate = Candidate(name: Version, qualified: bool)

  predicate Eligible(c: Candidate) {
    c.qualified && Valid(c.name)
  }

  /** `selected` is an eligible candidate that no eligible candidate outranks, or there is none. */
  ghost predicate IsHighest(candidates: seq<Candidate>, selected: Option<Candidate>) {
    match selected
    case None => forall c :: c in candidates ==> !Eligible(c)
    case Some(best) =>
      best in candidates && Eligible(best)
      && forall c :: c in candidates && Eligible(c) ==> !Lower(best.name, c.name)
  }

  /** One more candidate replaces the selected one exactly when it is eligible and has a greater key. */
  predicate Replaces(candidate: Candidate, selected: Option<Candidate>) {
    Eligible(candidate)
    && (selected.Some? && Valid(selected.value.name) ==> Lower(selected.value.name, candidate.name))
  }

  lemma ScanStep(seen: seq<Candidate>, selected: Option<Candidate>, candidate: Candidate)
    requires IsHighest(seen, selected)
    ensures IsHighest(seen + [candidate], if Replaces(candidate, selected) then Some(candidate) else selected)
  {
    if Replaces(candidate, selected) {
      VersionsTotallyOrdered(candidate.name, candidate.name);
      if selected.Some? {
        StaysHighest(seen, selected.value, candidate);
      }
    }
  }

  method SelectedCacheRoot(candidates: seq<Candidate>) returns (selected: Option<Candidate>)
    ensures IsHighest(candidates, selected)
    ensures selected.Some? ==> selected.value.qualified && Valid(selected.value.name)
    ensures selected.None? ==> forall c :: c in candidates ==> !(c.qualified && Valid(c.name))
  {
    selected := None;
    var bestKey: Option<VersionKey> := None;
    var i := 0;
    while i < |candidates|
      invariant 0 <= i <= |candidates|
      invariant IsHighest(candidates[..i], selected)
      invariant bestKey == if selected.Some? then Key(selected.value.name) else None
    {
      var candidate := candidates[i];
      var key := Key(candidate.name);
      ScanStep(candidates[..i], selected, candidate);
      assert candidates[..i + 1] == candidates[..i] + [candidate];
      if key.Some? && bestKey.Some? {
        CompareKeyFacts(bestKey.value, key.value);
      }
      if candidate.qualified && key.Some?
         && (bestKey.None? || CompareKey(key.value, bestKey.value).Greater?) {
        selected, bestKey := Some(candidate), key;
      }
      i := i + 1;
    }
    assert candidates[..i] == candidates;
  }

  lemma StaysHighest(candidates: seq<Candidate>, best: Candidate, higher: Candidate)
    requires IsHighest(candidates, Some(best)) && Eligible(higher)
    requires Lower(best.name, higher.name)
    ensures forall c :: c in candidates && Eligible(c) ==> !Lower(higher.name, c.name)
  {
    forall c | c in candidates && Eligible(c)
      ensures !Lower(higher.name, c.name)
    {
      if Lower(higher.name, c.name) {
        VersionsTransitive(best.name, higher.name, c.name);
      }
    }
  }

  /** Directory names are distinct, so the highest generation is unique and does not depend on the listing order. */
  lemma HighestUnique(a: seq<Candidate>, b: seq<Candidate>, x: Option<Candidate>, y: Option<Candidate>)
    requires forall c :: c in a <==> c in b
    requires forall c, d :: c in a && d in a && c.name == d.name ==> c == d
    requires IsHighest(a, x) && IsHighest(b, y)
    ensures x == y
  {
    if x.Some? && y.Some? {
      VersionsTotallyOrdered(x.value.name, y.value.name);
    }
  }

  /** A generation with the root of its files; equal versions and digests may still have different roots. */
  datatype Generation = Generation(version: Version, root: string, digest: string)

  datatype SelectionError = VersionInvalid | GenerationConflict

  function SelectGeneration(configured: Option<Generation>, requested: Generation): Result<Generation, SelectionError> {
    match Key(requested.version)
    case None => Err(VersionInvalid)
    case Some(requestedKey) =>
      match configured
      case None => Ok(requested)
      case Some(installed) =>
        match Key(installed.version)
        case None => Err(VersionInvalid)
        case Some(configuredKey) =>
          match CompareKey(configuredKey, requestedKey)
          case Greater => Ok(installed)
          case Less => Ok(requested)
          case Equal => if installed.digest != requested.digest then Err(GenerationConflict) else Ok(installed)
  }

  /** The choice follows the version order. */
  lemma SelectionFollowsOrder(installed: Generation, requested: Generation)
    requires Valid(installed.version) && Valid(requested.version)
    ensures
      SelectGeneration(Some(installed), requested) ==
      if Lower(requested.version, installed.version) then Ok(installed)
      else if Lower(installed.version, requested.version) then Ok(requested)
      else if installed.digest != requested.digest then Err(GenerationConflict) else Ok(installed)
  {
    CompareKeyFacts(Key(installed.version).value, Key(requested.version).value);
  }

  /** The selected generation is one of the two, it is never lower than either, and the choice conflicts exactly on
      equal versions with different digests. */
  lemma SelectionNeverDowngrades(installed: Generation, requested: Generation)
    requires Valid(installed.version) && Valid(requested.version)
    ensures
      var r := SelectGeneration(Some(installed), requested);
      && (r.Err? <==> installed.version == requested.version && installed.digest != requested.digest)
      && (r.Err? ==> r.error == GenerationConflict)
      && (r.Ok? ==> r.value == installed || r.value == requested)
      && (r.Ok? ==> Valid(r.value.version) && !Lower(r.value.version, installed.version))
      && (r.Ok? ==> !Lower(r.value.version, requested.version))
      && (r.Ok? && installed.version == requested.version ==> r.value == installed)
  {
    SelectionFollowsOrder(installed, requested);
    VersionsTotallyOrdered(installed.version, requested.version);
    VersionsTotallyOrdered(requested.version, installed.version);
  }

  /** A first installation takes the requested generation; an invalid version on either side is refused, the requested
      one first. */
  lemma SelectionDefined(configured: Option<Generation>, requested: Generation)
    ensures
      var r := SelectGeneration(configured, requested);
      && (r == Err(VersionInvalid) <==>
           !Valid(requested.version) || (configured.Some? && !Valid(configured.value.version)))
      && (configured.None? && Valid(requested.version) ==> r == Ok(requested))
  {
  }

  /** Selection follows section 11 of SemVer 2.0.0, and the order of build metadata where that ranks versions alike. */
  lemma SelectionFollowsPrecedence(installed: Generation, requested: Generation)
    requires Valid(installed.version) && Valid(requested.version)
    ensures
      var order := Then(Precedence(installed.version, requested.version),
                        BuildPrecedence(BuildParts(installed.version), BuildParts(requested.version)));
      && (order.Greater? ==> SelectGeneration(Some(installed), requested) == Ok(installed))
      && (order.Less? ==> SelectGeneration(Some(installed), requested) == Ok(requested))
  {
    KeyOrder(installed.version, requested.version);
  }

  /** So does the directory scan: no eligible candidate ranks above the selected one. */
  lemma HighestByPrecedence(candidates: seq<Candidate>, best: Candidate, other: Candidate)
    requires IsHighest(candidates, Some(best)) && other in candidates && Eligible(other)
    ensures
      !Then(Precedence(best.name, other.name),
            BuildPrecedence(BuildParts(best.name), BuildParts(other.name))).Less?
  {
    KeyOrder(best.name, other.name);
    assert !Lower(best.name, other.name);
  }
}

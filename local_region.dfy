/** `LocalRegionFactoryBean`: the factory bean for GemFire regions of LOCAL scope. It narrows the
    requested data policy to the three a local region supports, and it locks the region's scope
    to LOCAL. */
module LocalRegion {
  import opened Results
  import opened JavaStrings

  /** GemFire's data policies. */
  datatype DataPolicy =
    | Empty | Normal | Preloaded | Replicate | PersistentReplicate | Partition | PersistentPartition

  /** GemFire's region scopes. */
  datatype Scope = Local | DistributedNoAck | DistributedAck | Global

  /** The failures of this bean: the two `IllegalArgumentException`s of data-policy resolution,
      each naming the requested policy, and the `UnsupportedOperationException` of `setScope`. */
  datatype ConfigError =
    | InvalidDataPolicy(name: string)
    | UnsupportedDataPolicy(name: string)
    | ScopeNotAllowed

  /** The data policies a local region can be given. */
  predicate IsLocalPolicy(p: DataPolicy) {
    p in {Normal, Preloaded, PersistentReplicate}
  }

  /** `new DataPolicyConverter().convert(name)`. The converter itself is a parameter of the model;
      a null name converts to no policy. */
  function Convert(convert: string -> Option<DataPolicy>, name: Option<string>): (r: Option<DataPolicy>)
    ensures name.None? ==> r.None?
    ensures name.Some? ==> r == convert(name.value)
  {
    if name.Some? then convert(name.value) else None
  }

  /** The one assumption made about the converter: the empty name converts to no policy. */
  predicate ConvertsEmptyToNothing(convert: string -> Option<DataPolicy>) {
    convert("") == None
  }

  /** The data-policy rule of `resolveDataPolicy`, as a total function: `requested` is the policy
      name from the configuration (None for null), `persistent` the bean's own persistence state. */
  function ResolveLocalDataPolicy(convert: string -> Option<DataPolicy>, requested: Option<string>,
                                  persistent: bool): (r: Result<DataPolicy, ConfigError>)
    // a name with text that names no policy is invalid
    ensures (r.Failure? && r.error.InvalidDataPolicy?) <==>
            HasText(requested) && Convert(convert, requested).None?
    // a known policy other than NORMAL and PRELOADED is unsupported
    ensures (r.Failure? && r.error.UnsupportedDataPolicy?) <==>
            Convert(convert, requested).Some? && Convert(convert, requested).value !in {Normal, Preloaded}
    // every error names the requested policy
    ensures r.Failure? ==> !r.error.ScopeNotAllowed? && requested == Some(r.error.name)
    // on success the policy is a local one, and it is the persistent one exactly when the bean persists
    ensures r.Success? ==> IsLocalPolicy(r.value) && (r.value == PersistentReplicate <==> persistent)
    // a bean that does not persist gets the requested policy, NORMAL when none is named
    ensures r.Success? && !persistent ==> r.value == Convert(convert, requested).GetOr(Normal)
  {
    var resolved := Convert(convert, requested);
    if resolved.None? && HasText(requested) then
      Failure(InvalidDataPolicy(requested.value))
    else if resolved.None? || resolved == Some(Normal) then
      Success(if persistent then PersistentReplicate else Normal)
    else if resolved == Some(Preloaded) then
      Success(if persistent then PersistentReplicate else Preloaded)
    else
      Failure(UnsupportedDataPolicy(requested.value))
  }

  /** The decision table of a local region, written independently of the branches above: the key is
      the converted request (None when unspecified) and the persistence flag. */
  const LocalPolicyTable: map<(Option<DataPolicy>, bool), DataPolicy> := map[
    (None, false) := Normal,
    (None, true) := PersistentReplicate,
    (Some(Normal), false) := Normal,
    (Some(Normal), true) := PersistentReplicate,
    (Some(Preloaded), false) := Preloaded,
    (Some(Preloaded), true) := PersistentReplicate
  ]

  /** Resolution succeeds exactly on the requests the table lists, with the table's policy, and the
      requests missing from it fail as unsupported unless they are invalid names. */
  lemma ResolutionFollowsTable(convert: string -> Option<DataPolicy>, requested: Option<string>,
                               persistent: bool)
    ensures var key := (Convert(convert, requested), persistent);
            var r := ResolveLocalDataPolicy(convert, requested, persistent);
            && (r.Success? <==> key in LocalPolicyTable && !(HasText(requested) && key.0.None?))
            && (r.Success? ==> r.value == LocalPolicyTable[key])
            && (key !in LocalPolicyTable ==> r == Failure(UnsupportedDataPolicy(requested.value)))
  {
  }

  /** A name with text that the converter does not know is rejected as invalid. */
  lemma InvalidNameRejected(convert: string -> Option<DataPolicy>, name: string, persistent: bool)
    requires ContainsText(name) && convert(name) == None
    ensures ResolveLocalDataPolicy(convert, Some(name), persistent) == Failure(InvalidDataPolicy(name))
  {
  }

  /** An absent, empty or NORMAL request gives PERSISTENT_REPLICATE to a persistent bean and NORMAL
      to any other. */
  lemma UnspecifiedOrNormalRequest(convert: string -> Option<DataPolicy>, requested: Option<string>,
                                   persistent: bool)
    requires ConvertsEmptyToNothing(convert)
    requires requested == None || requested == Some("") || Convert(convert, requested) == Some(Normal)
    ensures ResolveLocalDataPolicy(convert, requested, persistent) ==
            Success(if persistent then PersistentReplicate else Normal)
  {
  }

  /** A PRELOADED request gives PERSISTENT_REPLICATE to a persistent bean and PRELOADED to any other. */
  lemma PreloadedRequest(convert: string -> Option<DataPolicy>, requested: Option<string>, persistent: bool)
    requires Convert(convert, requested) == Some(Preloaded)
    ensures ResolveLocalDataPolicy(convert, requested, persistent) ==
            Success(if persistent then PersistentReplicate else Preloaded)
  {
  }

  /** Every other known policy (REPLICATE, PARTITION, EMPTY, ...) is refused, whatever the flag. */
  lemma OtherPoliciesUnsupported(convert: string -> Option<DataPolicy>, name: string, persistent: bool)
    requires convert(name).Some? && convert(name).value !in {Normal, Preloaded}
    ensures ResolveLocalDataPolicy(convert, Some(name), persistent) == Failure(UnsupportedDataPolicy(name))
  {
  }

  /** The persistence flag decides only between a policy and PERSISTENT_REPLICATE: whether resolution
      fails, and how, does not depend on it. */
  lemma PersistenceOnlyUpgrades(convert: string -> Option<DataPolicy>, requested: Option<string>)
    ensures var plain := ResolveLocalDataPolicy(convert, requested, false);
            var durable := ResolveLocalDataPolicy(convert, requested, true);
            && (plain.Failure? <==> durable.Failure?)
            && (plain.Failure? ==> plain == durable)
            && (plain.Success? ==> durable == Success(PersistentReplicate))
  {
  }

  /** The part of GemFire's `RegionFactory` that data-policy resolution touches. */
  class RegionFactory {
    var dataPolicy: DataPolicy
    /** Every policy passed to `setDataPolicy`, oldest first. */
    ghost var assignments: seq<DataPolicy>

    constructor (initial: DataPolicy)
      ensures dataPolicy == initial && assignments == []
    {
      dataPolicy := initial;
      assignments := [];
    }

    /** `setDataPolicy`. */
    method SetDataPolicy(policy: DataPolicy)
      modifies this
      ensures dataPolicy == policy && assignments == old(assignments) + [policy]
    {
      dataPolicy := policy;
      assignments := assignments + [policy];
    }
  }

  /** A step of the bean's initialisation, as the superclass sees it. */
  datatype LifecycleStep =
    | ScopeAssigned(scope: Scope)
    | SuperclassInitialized(scopeSeen: Option<Scope>)

  /** The bean. `scope` and `persistent` are the fields it inherits from `RegionFactoryBean`. */
  class LocalRegionFactoryBean {
    var scope: Option<Scope>
    var persistent: bool
    /** The initialisation steps taken so far, oldest first. */
    ghost var lifecycle: seq<LifecycleStep>

    constructor (persistent: bool)
      ensures this.persistent == persistent && scope == None && lifecycle == []
    {
      this.persistent := persistent;
      scope := None;
      lifecycle := [];
    }

    /** `isPersistent()` of the superclass. */
    function IsPersistent(): (r: bool)
      reads this
      ensures r <==> persistent
    {
      persistent
    }

    /** The overridden `setScope`: it refuses every scope and, having no frame, changes nothing. */
    method SetScope(scope: Scope) returns (outcome: Outcome<ConfigError>)
      ensures outcome == Fail(ScopeNotAllowed)
      ensures unchanged(this)
    {
      outcome := Fail(ScopeNotAllowed);
    }

    /** `afterPropertiesSet`: the scope becomes LOCAL before the superclass initialises the region. */
    method AfterPropertiesSet()
      modifies this
      ensures scope == Some(Local) && persistent == old(persistent)
      ensures lifecycle == old(lifecycle) + [ScopeAssigned(Local), SuperclassInitialized(Some(Local))]
    {
      SuperSetScope(Local);
      SuperAfterPropertiesSet();
    }

    /** `super.setScope`: the superclass setter, which assigns the field. */
    method SuperSetScope(scope: Scope)
      modifies this
      ensures this.scope == Some(scope) && persistent == old(persistent)
      ensures lifecycle == old(lifecycle) + [ScopeAssigned(scope)]
    {
      this.scope := Some(scope);
      lifecycle := lifecycle + [ScopeAssigned(scope)];
    }

    /** `super.afterPropertiesSet`: only the scope it observes is modelled. */
    method SuperAfterPropertiesSet()
      modifies this`lifecycle
      ensures lifecycle == old(lifecycle) + [SuperclassInitialized(scope)]
    {
      lifecycle := lifecycle + [SuperclassInitialized(scope)];
    }

    /** The overridden `resolveDataPolicy`. As written, the branches read the bean's own
        `IsPersistent()`; the `persistent` argument is accepted and never read. On success the
        region factory is given the resolved policy exactly once; on failure it is left alone. */
    method ResolveDataPolicy(regionFactory: RegionFactory, persistent: Option<bool>, dataPolicy: Option<string>,
                             convert: string -> Option<DataPolicy>) returns (outcome: Outcome<ConfigError>)
      modifies regionFactory
      ensures var expected := ResolveLocalDataPolicy(convert, dataPolicy, this.persistent);
              expected.Success? ==>
                && outcome == Pass
                && regionFactory.dataPolicy == expected.value
                && regionFactory.assignments == old(regionFactory.assignments) + [expected.value]
      ensures var expected := ResolveLocalDataPolicy(convert, dataPolicy, this.persistent);
              expected.Failure? ==>
                && outcome == Fail(expected.error)
                && regionFactory.dataPolicy == old(regionFactory.dataPolicy)
                && regionFactory.assignments == old(regionFactory.assignments)
    {
      var resolvedDataPolicy := Convert(convert, dataPolicy);
      if !(resolvedDataPolicy.Some? || !HasText(dataPolicy)) {
        return Fail(InvalidDataPolicy(dataPolicy.value));
      }
      if resolvedDataPolicy.None? || resolvedDataPolicy == Some(Normal) {
        regionFactory.SetDataPolicy(if IsPersistent() then PersistentReplicate else Normal);
        outcome := Pass;
      } else if resolvedDataPolicy == Some(Preloaded) {
        regionFactory.SetDataPolicy(if IsPersistent() then PersistentReplicate else Preloaded);
        outcome := Pass;
      } else {
        outcome := Fail(UnsupportedDataPolicy(dataPolicy.value));
      }
    }
  }
}

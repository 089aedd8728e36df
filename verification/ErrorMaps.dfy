/** Exception classes of the framework, the scoped error map, and what it decides about a failure. */
module ErrorMaps {
  import opened Collections

  /** Exception classes the framework names; every other class is `Other`. */
  datatype Class =
    | FatalNexusError
    | TransientNexusError
    | FatalCachingError
    | TransientCachingError
    | FatalStartupConfigurationError
    | NexusClientRuntimeError
    | NexusSchedulingError
    | NexusReceiverResultNotCommittedError
    | NetworkError
    | Other(name: string)

  /** `isa(c, d)`: an instance of class `c` is an instance of class `d`; it is one of its own class. */
  type SubclassRelation = isa: (Class, Class) -> bool | forall c :: isa(c, c) witness (c, d) => c == d

  /** What the framework's own class statements fix about the subclass relation. */
  ghost predicate ValidHierarchy(isa: SubclassRelation) {
    && (forall c :: isa(c, FatalCachingError) ==> isa(c, FatalNexusError))
    && (forall c :: isa(c, TransientCachingError) ==> isa(c, TransientNexusError))
    && !isa(TransientCachingError, FatalCachingError)
    && !isa(FatalCachingError, TransientNexusError)
  }

  /** A remapping entry. `target` is `None` when the configured class cannot be located. */
  datatype ErrorMap = ErrorMap(target: Option<Class>, errors: seq<Class>)

  /** One entry of the configuration list `runtime.exceptions.scoped`. */
  datatype Scoped = Scoped(className: string, entry: ErrorMap)

  type GroupedMap = map<string, seq<ErrorMap>>

  function MapException(isa: SubclassRelation, m: ErrorMap, ex: Class): Option<Class> {
    if |m.errors| == 0 then m.target
    else if exists e | e in m.errors :: isa(ex, e) then m.target
    else None
  }

  function ScanEntries(isa: SubclassRelation, entries: seq<ErrorMap>, ex: Class): Option<Class> {
    if entries == [] then None
    else
      var mapped := MapException(isa, entries[0], ex);
      if mapped.Some? then mapped else ScanEntries(isa, entries[1..], ex)
  }

  function MapError(isa: SubclassRelation, grouped: GroupedMap, default: Class, ex: Class, caller: string): Class {
    if caller in grouped then
      var mapped := ScanEntries(isa, grouped[caller], ex);
      if mapped.Some? then mapped.value else default
    else default
  }

  /**
   * The entry at `i` of the flat list decides the exception `ex` raised on behalf of `caller`, unless an earlier one
   * does.
   */
  ghost predicate Applies(isa: SubclassRelation, s: Scoped, ex: Class, caller: string) {
    s.className == caller && s.entry.target.Some? &&
    (s.entry.errors == [] || exists e :: e in s.entry.errors && isa(ex, e))
  }

  ghost predicate FirstApplies(isa: SubclassRelation, config: seq<Scoped>, ex: Class, caller: string, i: int) {
    0 <= i < |config| && Applies(isa, config[i], ex, caller) &&
    forall j :: 0 <= j < i ==> !Applies(isa, config[j], ex, caller)
  }

  /**
   * What a single scan of the flat configuration list maps `ex` to: the target of the first entry that applies, if
   * any.
   */
  ghost predicate FlatMapped(isa: SubclassRelation, config: seq<Scoped>, ex: Class, caller: string, r: Option<Class>) {
    match r
    case Some(_) => exists i :: FirstApplies(isa, config, ex, caller, i) && config[i].entry.target == r
    case None => forall i :: 0 <= i < |config| ==> !Applies(isa, config[i], ex, caller)
  }

  ghost predicate FlatVerdict(isa: SubclassRelation, config: seq<Scoped>, default: Class, ex: Class, caller: string,
                              verdict: Class) {
    || FlatMapped(isa, config, ex, caller, Some(verdict))
    || (FlatMapped(isa, config, ex, caller, None) && verdict == default)
  }

  /** The entries of one class, in configuration order. */
  ghost function EntriesOf(config: seq<Scoped>, className: string): seq<ErrorMap> {
    if config == [] then []
    else
      var init, last := config[..|config| - 1], config[|config| - 1];
      EntriesOf(init, className) + if last.className == className then [last.entry] else []
  }

  ghost predicate IsGrouping(grouped: GroupedMap, config: seq<Scoped>) {
    && (forall c :: c in grouped <==> exists s :: s in config && s.className == c)
    && (forall c :: c in grouped ==> grouped[c] == EntriesOf(config, c))
  }

  function Appended(grouped: GroupedMap, s: Scoped): GroupedMap {
    if s.className !in grouped then grouped[s.className := [s.entry]]
    else grouped[s.className := grouped[s.className] + [s.entry]]
  }

  lemma GroupingStep(grouped: GroupedMap, config: seq<Scoped>, s: Scoped)
    requires IsGrouping(grouped, config)
    ensures IsGrouping(Appended(grouped, s), config + [s])
  {
    var longer, next := config + [s], Appended(grouped, s);
    assert longer[..|longer| - 1] == config;
    if s.className !in grouped {
      NoEntries(config, s.className);
    }
    forall c
      ensures c in next <==> exists t :: t in longer && t.className == c
      ensures c in next ==> next[c] == EntriesOf(longer, c)
    {
      assert s in longer;
      assert forall t :: t in longer <==> t in config || t == s;
      if c == s.className {
        assert EntriesOf(longer, c) == EntriesOf(config, c) + [s.entry];
      } else {
        assert EntriesOf(longer, c) == EntriesOf(config, c) + [];
      }
    }
  }

  /** The loop of the cache factory: a dictionary of lists, appended to entry by entry. */
  method GroupByClass(config: seq<Scoped>) returns (grouped: GroupedMap)
    ensures IsGrouping(grouped, config)
  {
    grouped := map[];
    for i := 0 to |config|
      invariant IsGrouping(grouped, config[..i])
    {
      var s := config[i];
      ghost var longer := Appended(grouped, s);
      assert IsGrouping(longer, config[..i + 1]) by {
        GroupingStep(grouped, config[..i], s);
        assert config[..i + 1] == config[..i] + [s];
      }
      if s.className !in grouped {
        grouped := grouped[s.className := [s.entry]];
      } else {
        grouped := grouped[s.className := grouped[s.className] + [s.entry]];
      }
      assert grouped == longer;
    }
    assert config[..|config|] == config;
  }

  lemma {:induction false} NoEntries(config: seq<Scoped>, className: string)
    requires forall s :: s in config ==> s.className != className
    ensures EntriesOf(config, className) == []
  {
    if config != [] {
      assert config[|config| - 1] in config;
      NoEntries(config[..|config| - 1], className);
    }
  }

  lemma {:induction false} ScanAppend(isa: SubclassRelation, es: seq<ErrorMap>, e: ErrorMap, ex: Class)
    ensures ScanEntries(isa, es + [e], ex) ==
            if ScanEntries(isa, es, ex).Some? then ScanEntries(isa, es, ex) else MapException(isa, e, ex)
  {
    if es == [] {
      assert ([] + [e])[1..] == [];
    } else {
      assert (es + [e])[1..] == es[1..] + [e];
      ScanAppend(isa, es[1..], e, ex);
    }
  }

  lemma MapsIffApplies(isa: SubclassRelation, s: Scoped, ex: Class)
    ensures MapException(isa, s.entry, ex) == if Applies(isa, s, ex, s.className) then s.entry.target else None
  {
  }

  lemma FlatMappedStep(isa: SubclassRelation, config: seq<Scoped>, s: Scoped, ex: Class, caller: string,
                       r: Option<Class>)
    requires FlatMapped(isa, config, ex, caller, r)
    ensures FlatMapped(isa, config + [s], ex, caller,
                       if r.Some? || s.className != caller then r else MapException(isa, s.entry, ex))
  {
    var longer := config + [s];
    assert forall j :: 0 <= j < |config| ==> longer[j] == config[j];
    MapsIffApplies(isa, s, ex);
    if r.Some? {
      var i :| FirstApplies(isa, config, ex, caller, i) && config[i].entry.target == r;
      assert FirstApplies(isa, longer, ex, caller, i);
    } else if Applies(isa, s, ex, caller) {
      assert FirstApplies(isa, longer, ex, caller, |config|);
    }
  }

  /** Scanning one class's entries finds exactly the first entry of the flat list that applies. */
  lemma {:induction false} ScanIsFirstApplying(isa: SubclassRelation, config: seq<Scoped>, ex: Class, caller: string)
    ensures FlatMapped(isa, config, ex, caller, ScanEntries(isa, EntriesOf(config, caller), ex))
  {
    if config != [] {
      var n := |config| - 1;
      var init, last := config[..n], config[n];
      ScanIsFirstApplying(isa, init, ex, caller);
      assert config == init + [last];
      FlatMappedStep(isa, init, last, ex, caller, ScanEntries(isa, EntriesOf(init, caller), ex));
      if last.className == caller {
        ScanAppend(isa, EntriesOf(init, caller), last.entry, ex);
      } else {
        var es := EntriesOf(init, caller);
        assert EntriesOf(config, caller) == es + [] == es;
      }
    }
  }

  /** The grouped map refines the flat list, for every caller and every exception. */
  lemma GroupedRefinesFlat(isa: SubclassRelation, config: seq<Scoped>, grouped: GroupedMap, default: Class,
                           ex: Class, caller: string)
    requires IsGrouping(grouped, config)
    ensures FlatVerdict(isa, config, default, ex, caller, MapError(isa, grouped, default, ex, caller))
  {
    ScanIsFirstApplying(isa, config, ex, caller);
    if caller !in grouped {
      NoEntries(config, caller);
    }
  }

  lemma FirstIsUnique(isa: SubclassRelation, config: seq<Scoped>, ex: Class, caller: string, i: int, j: int)
    requires FirstApplies(isa, config, ex, caller, i) && FirstApplies(isa, config, ex, caller, j)
    ensures i == j
  {
  }

  lemma VerdictIsUnique(isa: SubclassRelation, config: seq<Scoped>, default: Class, ex: Class, caller: string,
                        v: Class, w: Class)
    requires FlatVerdict(isa, config, default, ex, caller, v) && FlatVerdict(isa, config, default, ex, caller, w)
    ensures v == w
  {
    if FlatMapped(isa, config, ex, caller, Some(v)) {
      var i :| FirstApplies(isa, config, ex, caller, i) && config[i].entry.target == Some(v);
      if FlatMapped(isa, config, ex, caller, Some(w)) {
        var j :| FirstApplies(isa, config, ex, caller, j) && config[j].entry.target == Some(w);
        FirstIsUnique(isa, config, ex, caller, i, j);
      }
    }
  }

  lemma MapErrorIff(isa: SubclassRelation, config: seq<Scoped>, grouped: GroupedMap, default: Class, ex: Class,
                    caller: string, verdict: Class)
    requires IsGrouping(grouped, config)
    ensures FlatVerdict(isa, config, default, ex, caller, verdict) <==>
              verdict == MapError(isa, grouped, default, ex, caller)
  {
    GroupedRefinesFlat(isa, config, grouped, default, ex, caller);
    if FlatVerdict(isa, config, default, ex, caller, verdict) {
      VerdictIsUnique(isa, config, default, ex, caller, MapError(isa, grouped, default, ex, caller), verdict);
    }
  }

  /** Behind an entry that applies, further entries do not count. */
  lemma FirstIsUnmoved(isa: SubclassRelation, config: seq<Scoped>, k: nat, later: Scoped, ex: Class, caller: string,
                       i: int)
    requires k < |config| && Applies(isa, config[k], ex, caller)
    ensures FirstApplies(isa, config + [later], ex, caller, i) <==> FirstApplies(isa, config, ex, caller, i)
  {
    var longer := config + [later];
    assert forall j :: 0 <= j < |config| ==> longer[j] == config[j];
    if FirstApplies(isa, longer, ex, caller, i) {
      assert i <= k;
    }
  }

  lemma MappedIsUnmoved(isa: SubclassRelation, config: seq<Scoped>, k: nat, later: Scoped, ex: Class, caller: string,
                        r: Class)
    requires k < |config| && Applies(isa, config[k], ex, caller)
    ensures FlatMapped(isa, config + [later], ex, caller, Some(r)) <==> FlatMapped(isa, config, ex, caller, Some(r))
    ensures !FlatMapped(isa, config + [later], ex, caller, None) && !FlatMapped(isa, config, ex, caller, None)
  {
    var longer := config + [later];
    assert longer[k] == config[k];
    if FlatMapped(isa, longer, ex, caller, Some(r)) {
      var i :| FirstApplies(isa, longer, ex, caller, i) && longer[i].entry.target == Some(r);
      FirstIsUnmoved(isa, config, k, later, ex, caller, i);
    }
    if FlatMapped(isa, config, ex, caller, Some(r)) {
      var i :| FirstApplies(isa, config, ex, caller, i) && config[i].entry.target == Some(r);
      FirstIsUnmoved(isa, config, k, later, ex, caller, i);
    }
  }

  /** An entry with an empty error list decides every exception: later entries of its class are dead. */
  lemma EmptyListShadows(isa: SubclassRelation, config: seq<Scoped>, k: nat, later: Scoped, default: Class,
                         ex: Class, verdict: Class)
    requires k < |config| && config[k].entry.errors == [] && config[k].entry.target.Some?
    requires later.className == config[k].className
    ensures FlatVerdict(isa, config + [later], default, ex, later.className, verdict)
       <==> FlatVerdict(isa, config, default, ex, later.className, verdict)
  {
    MappedIsUnmoved(isa, config, k, later, ex, later.className, verdict);
  }

  /** What the cache factory makes of the configuration. */
  datatype CacheSetup = Loaded(errors: GroupedMap, default: Class) | Rejected(cls: Class)

  /**
   * `CacheFactory.get_cache`: without a default class the process cannot start; otherwise the map that is loaded gives,
   * to every exception and every caller, the verdict of the flat configuration list.
   */
  method GetCache(config: seq<Scoped>, default: Option<Class>) returns (r: CacheSetup)
    ensures default.None? ==> r == Rejected(FatalStartupConfigurationError)
    ensures default.Some? ==> r.Loaded? && IsGrouping(r.errors, config) && r.default == default.value
    ensures default.Some? ==> forall isa, ex, caller ::
              FlatVerdict(isa, config, default.value, ex, caller, MapError(isa, r.errors, r.default, ex, caller))
  {
    var grouped := GroupByClass(config);
    if default.None? {
      return Rejected(FatalStartupConfigurationError);
    }
    r := Loaded(grouped, default.value);
    forall isa, ex, caller
      ensures FlatVerdict(isa, config, default.value, ex, caller, MapError(isa, r.errors, r.default, ex, caller))
    {
      GroupedRefinesFlat(isa, config, grouped, default.value, ex, caller);
    }
  }

  // ----- The verdict the input cache attaches to a failed input -----

  const INPUT_CACHE := "nexus_client_sdk.nexus.abstractions.algorithm_cache.InputCache"

  /** The class with which the cache re-raises a failure of class `ex`. */
  function ResolveExcType(isa: SubclassRelation, grouped: GroupedMap, default: Class, ex: Class): Class {
    if isa(ex, FatalCachingError) then FatalCachingError
    else if isa(ex, TransientCachingError) then TransientCachingError
    else MapError(isa, grouped, default, ex, INPUT_CACHE)
  }

  /** The same, by the flat configuration list: a caching error keeps its class, any other has the list's verdict. */
  ghost predicate CacheVerdict(isa: SubclassRelation, config: seq<Scoped>, default: Class, ex: Class, verdict: Class) {
    if isa(ex, FatalCachingError) then verdict == FatalCachingError
    else if isa(ex, TransientCachingError) then verdict == TransientCachingError
    else FlatVerdict(isa, config, default, ex, INPUT_CACHE, verdict)
  }

  /** The class of a re-raised failure is the configured one, and there is only one configured. */
  lemma VerdictIsConfigured(isa: SubclassRelation, config: seq<Scoped>, grouped: GroupedMap, default: Class,
                            ex: Class, verdict: Class)
    requires IsGrouping(grouped, config)
    ensures CacheVerdict(isa, config, default, ex, verdict) <==> verdict == ResolveExcType(isa, grouped, default, ex)
  {
    MapErrorIff(isa, config, grouped, default, ex, INPUT_CACHE, verdict);
  }

  /** A run is retried exactly when its failure is transient. */
  function IsTransient(isa: SubclassRelation, exception: Option<Class>): Option<bool> {
    match exception
    case None => None
    case Some(ex) =>
      if isa(ex, TransientNexusError) then Some(true)
      else if isa(ex, FatalNexusError) then Some(false)
      else Some(false)
  }

  /** Remapping an already remapped failure leaves it alone. */
  ghost predicate Settled(remap: Class -> Class) {
    forall c :: remap(remap(c)) == remap(c)
  }

  ghost predicate IsCachingError(c: Class) {
    c == FatalCachingError || c == TransientCachingError
  }

  ghost predicate CachingTargetsOnly(config: seq<Scoped>) {
    forall s :: s in config && s.className == INPUT_CACHE && s.entry.target.Some? ==>
      IsCachingError(s.entry.target.value)
  }

  ghost predicate HasCatchAll(config: seq<Scoped>) {
    exists s :: s in config && s.className == INPUT_CACHE && s.entry.target.Some? && s.entry.errors == []
  }

  /** With caching targets and a catch-all every verdict is one of the two caching errors, and it is settled. */
  lemma CachingMapSettles(isa: SubclassRelation, config: seq<Scoped>, grouped: GroupedMap, default: Class)
    requires ValidHierarchy(isa) && IsGrouping(grouped, config)
    requires CachingTargetsOnly(config) && HasCatchAll(config)
    ensures forall c :: IsCachingError(ResolveExcType(isa, grouped, default, c))
    ensures Settled(c => ResolveExcType(isa, grouped, default, c))
  {
    forall c
      ensures IsCachingError(ResolveExcType(isa, grouped, default, c))
    {
      if !isa(c, FatalCachingError) && !isa(c, TransientCachingError) {
        GroupedRefinesFlat(isa, config, grouped, default, c, INPUT_CACHE);
        ScanIsFirstApplying(isa, config, c, INPUT_CACHE);
        var s :| s in config && s.className == INPUT_CACHE && s.entry.target.Some? && s.entry.errors == [];
        var k :| 0 <= k < |config| && config[k] == s;
        assert Applies(isa, config[k], c, INPUT_CACHE);
        assert exists i :: FirstApplies(isa, config, c, INPUT_CACHE, i);
        var i :| FirstApplies(isa, config, c, INPUT_CACHE, i)
              && ResolveExcType(isa, grouped, default, c) == config[i].entry.target.value;
        assert config[i] in config;
      }
    }
  }

  /**
   * The classes a failure can be re-raised with: the default, the cache's configured targets, and its own two errors.
   */
  ghost function Verdicts(config: seq<Scoped>, default: Class): set<Class> {
    {default, FatalCachingError, TransientCachingError} +
    set s | s in config && s.className == INPUT_CACHE && s.entry.target.Some? :: s.entry.target.value
  }

  lemma FlatVerdictIsPossible(isa: SubclassRelation, config: seq<Scoped>, default: Class, ex: Class, verdict: Class)
    requires FlatVerdict(isa, config, default, ex, INPUT_CACHE, verdict)
    ensures verdict in Verdicts(config, default)
  {
    if FlatMapped(isa, config, ex, INPUT_CACHE, Some(verdict)) {
      var i :| FirstApplies(isa, config, ex, INPUT_CACHE, i) && config[i].entry.target == Some(verdict);
      assert config[i] in config;
    }
  }

  lemma VerdictIsPossible(isa: SubclassRelation, config: seq<Scoped>, grouped: GroupedMap, default: Class, c: Class)
    requires IsGrouping(grouped, config)
    ensures ResolveExcType(isa, grouped, default, c) in Verdicts(config, default)
  {
    var verdict := ResolveExcType(isa, grouped, default, c);
    VerdictIsConfigured(isa, config, grouped, default, c, verdict);
    if FlatVerdict(isa, config, default, c, INPUT_CACHE, verdict) {
      FlatVerdictIsPossible(isa, config, default, c, verdict);
    }
  }

  /**
   * The map is settled exactly when each of these classes that some failure is re-raised with is itself re-raised
   * unchanged.
   */
  lemma SettledIffVerdictsFixed(isa: SubclassRelation, config: seq<Scoped>, grouped: GroupedMap, default: Class)
    requires IsGrouping(grouped, config)
    ensures var r := (c: Class) => ResolveExcType(isa, grouped, default, c);
            Settled(r) <==> forall t :: t in Verdicts(config, default) && (exists c :: r(c) == t) ==> r(t) == t
  {
    forall c
      ensures ResolveExcType(isa, grouped, default, c) in Verdicts(config, default)
    {
      VerdictIsPossible(isa, config, grouped, default, c);
    }
  }

  /**
   * Without a catch-all the default can drift: the framework's own default is remapped again by any entry that matches
   * it.
   */
  lemma DefaultCanDrift(isa: SubclassRelation, ex: string) returns (config: seq<Scoped>, grouped: GroupedMap)
    requires ValidHierarchy(isa)
    requires !isa(Other(ex), FatalNexusError) && !isa(Other(ex), TransientCachingError)
    requires !isa(FatalNexusError, FatalCachingError) && !isa(FatalNexusError, TransientCachingError)
    ensures IsGrouping(grouped, config) && CachingTargetsOnly(config)
    ensures ResolveExcType(isa, grouped, FatalNexusError, Other(ex)) == FatalNexusError
    ensures ResolveExcType(isa, grouped, FatalNexusError, FatalNexusError) == TransientCachingError
  {
    var e := ErrorMap(Some(TransientCachingError), [FatalNexusError]);
    config := [Scoped(INPUT_CACHE, e)];
    grouped := map[INPUT_CACHE := [e]];
    assert config[..0] == [];
    assert EntriesOf(config, INPUT_CACHE) == [e];
    assert config[0] in config;
    assert IsGrouping(grouped, config);
    assert ScanEntries(isa, [], Other(ex)) == None;
    assert [e][1..] == [];
    assert FatalNexusError in e.errors;
    assert MapException(isa, e, FatalNexusError) == Some(TransientCachingError);
  }

  // ----- The shipped configuration -----

  const UNAVAILABLE :=
    [Other("cassandra.Timeout"), Other("cassandra.Unavailable"), Other("cassandra.ReadTimeout"),
     Other("cassandra.WriteTimeout"), Other("cassandra.OperationTimedOut"), Other("cassandra.ReadFailure"),
     Other("cassandra.CoordinationFailure")]

  const REFUSED :=
    [Other("cassandra.Unauthorized"), Other("cassandra.RequestValidationException"),
     Other("cassandra.AuthenticationFailed")]

  const CACHE_CLASS := "nexus_client_sdk.nexus.abstractions.algorithm_cache.InputCache"

  /** The list `runtime.exceptions.scoped` of the settings file that comes with the framework. */
  const SHIPPED: seq<Scoped> :=
    [Scoped(CACHE_CLASS, ErrorMap(Some(TransientCachingError), UNAVAILABLE)),
     Scoped(CACHE_CLASS, ErrorMap(Some(FatalCachingError), REFUSED)),
     Scoped(CACHE_CLASS, ErrorMap(Some(FatalCachingError), []))]

  /** A list to retry, a list to report, and a catch-all that reports. */
  function CacheEntries(retried: seq<Class>, reported: seq<Class>): seq<Scoped> {
    [Scoped(INPUT_CACHE, ErrorMap(Some(TransientCachingError), retried)),
     Scoped(INPUT_CACHE, ErrorMap(Some(FatalCachingError), reported)),
     Scoped(INPUT_CACHE, ErrorMap(Some(FatalCachingError), []))]
  }

  /** Such a list retries exactly what its first entry lists. */
  lemma FirstListDecides(isa: SubclassRelation, retried: seq<Class>, reported: seq<Class>, ex: Class)
    requires retried != []
    ensures FlatVerdict(isa, CacheEntries(retried, reported), FatalNexusError, ex, INPUT_CACHE,
                        if exists e :: e in retried && isa(ex, e) then TransientCachingError else FatalCachingError)
  {
    var config := CacheEntries(retried, reported);
    if exists e :: e in retried && isa(ex, e) {
      assert FirstApplies(isa, config, ex, INPUT_CACHE, 0);
    } else if Applies(isa, config[1], ex, INPUT_CACHE) {
      assert FirstApplies(isa, config, ex, INPUT_CACHE, 1);
    } else {
      assert FirstApplies(isa, config, ex, INPUT_CACHE, 2);
    }
  }

  lemma EntriesSettle(isa: SubclassRelation, retried: seq<Class>, reported: seq<Class>, grouped: GroupedMap)
    requires ValidHierarchy(isa) && IsGrouping(grouped, CacheEntries(retried, reported))
    ensures Settled(c => ResolveExcType(isa, grouped, FatalNexusError, c))
  {
    var config := CacheEntries(retried, reported);
    assert config[2] in config;
    CachingMapSettles(isa, config, grouped, FatalNexusError);
  }

  /**
   * Out of the box a failed input makes the run retry exactly when its database was unavailable or its own error was
   * transient already; everything else is fatal, and either verdict is settled.
   */
  lemma ShippedVerdict(isa: SubclassRelation, grouped: GroupedMap, ex: Class)
    requires ValidHierarchy(isa) && IsGrouping(grouped, SHIPPED)
    ensures ResolveExcType(isa, grouped, FatalNexusError, ex) ==
            if !isa(ex, FatalCachingError) &&
               (isa(ex, TransientCachingError) || exists e :: e in UNAVAILABLE && isa(ex, e))
            then TransientCachingError else FatalCachingError
    ensures Settled(c => ResolveExcType(isa, grouped, FatalNexusError, c))
  {
    ShippedEntries();
    EntriesSettle(isa, UNAVAILABLE, REFUSED, grouped);
    FirstListDecides(isa, UNAVAILABLE, REFUSED, ex);
    var listed := exists e :: e in UNAVAILABLE && isa(ex, e);
    MapErrorIff(isa, CacheEntries(UNAVAILABLE, REFUSED), grouped, FatalNexusError, ex, INPUT_CACHE,
                if listed then TransientCachingError else FatalCachingError);
  }

  lemma ShippedEntries()
    ensures SHIPPED == CacheEntries(UNAVAILABLE, REFUSED) && UNAVAILABLE != []
  {
  }
}

/** Loading of the environment map with its texture cache.  A request first
    looks the background up in the cache; only on a miss does it ask the
    loader, whose success callback installs the texture and caches it and
    whose error callback only logs.  The loader itself is not modelled: it
    is a count of requests issued and of requests still in flight. */
module Environment {

  /** The cache key of the environment map. */
  const BackgroundKey: string := "background"

  /** Renderer exposure in tenths: before the map has loaded, and after. */
  const InitialExposure: nat := 10
  const LoadedExposure: nat := 1

  datatype Option<T> = None | Some(value: T)

  datatype Mapping = UVMapping | EquirectangularReflection

  datatype Texture = Texture(id: nat, mapping: Mapping)

  datatype LoaderState = LoaderState(
    cache: map<string, Texture>,
    background: Option<Texture>,
    environment: Option<Texture>,
    exposure: nat,
    loadsIssued: nat,   // requests handed to the loader so far
    inFlight: nat)      // of those, the ones whose callback has not run yet

  function Initial(): LoaderState {
    LoaderState(map[], None, None, InitialExposure, 0, 0)
  }

  /** A call of the loading routine. */
  function Load(s: LoaderState): LoaderState {
    if BackgroundKey in s.cache then
      s.(background := Some(s.cache[BackgroundKey]), environment := Some(s.cache[BackgroundKey]))
    else
      s.(loadsIssued := s.loadsIssued + 1, inFlight := s.inFlight + 1)
  }

  /** The loader's success callback with the decoded `texture`. */
  function Loaded(s: LoaderState, texture: Texture): LoaderState
    requires s.inFlight > 0
  {
    var t := texture.(mapping := EquirectangularReflection);
    s.(exposure := LoadedExposure, background := Some(t), environment := Some(t),
       cache := s.cache[BackgroundKey := t], inFlight := s.inFlight - 1)
  }

  /** The loader's error callback: the failure is logged, nothing else changes. */
  function Failed(s: LoaderState): LoaderState
    requires s.inFlight > 0
  {
    s.(inFlight := s.inFlight - 1)
  }

  class EnvironmentLoader {
    var textureCache: map<string, Texture>
    var background: Option<Texture>
    var environment: Option<Texture>
    var exposure: nat
    var loadsIssued: nat
    var inFlight: nat

    function Snapshot(): LoaderState
      reads this
    {
      LoaderState(textureCache, background, environment, exposure, loadsIssued, inFlight)
    }

    constructor ()
      ensures Snapshot() == Initial()
    {
      textureCache := map[];
      background := None;
      environment := None;
      exposure := InitialExposure;
      loadsIssued := 0;
      inFlight := 0;
    }

    /** The loading routine: `requested` tells whether the loader was asked. */
    method LoadEnvironmentMap() returns (requested: bool)
      modifies this
      ensures Snapshot() == Load(old(Snapshot()))
      ensures requested <==> BackgroundKey !in old(textureCache)
      ensures textureCache == old(textureCache)
    {
      if BackgroundKey in textureCache {
        var texture := textureCache[BackgroundKey];
        background := Some(texture);
        environment := Some(texture);
        return false;
      }
      loadsIssued := loadsIssued + 1;
      inFlight := inFlight + 1;
      return true;
    }

    /** The success callback of a request in flight. */
    method OnLoad(texture: Texture)
      requires inFlight > 0
      modifies this
      ensures Snapshot() == Loaded(old(Snapshot()), texture)
      ensures background == environment == Some(textureCache[BackgroundKey])
    {
      var t := texture.(mapping := EquirectangularReflection);
      exposure := LoadedExposure;
      background := Some(t);
      environment := Some(t);
      textureCache := textureCache[BackgroundKey := t];
      inFlight := inFlight - 1;
    }

    /** The error callback of a request in flight. */
    method OnError()
      requires inFlight > 0
      modifies this
      ensures Snapshot() == Failed(old(Snapshot()))
    {
      inFlight := inFlight - 1;
    }
  }

  // ---------------------------------------------------------------------
  // One call at a time

  /** A cached background is installed as both scene background and
      environment, and the loader is not asked. */
  lemma CachedLoadShortCircuits(s: LoaderState)
    requires BackgroundKey in s.cache
    ensures Load(s).background == Load(s).environment == Some(s.cache[BackgroundKey])
    ensures Load(s).cache == s.cache
    ensures Load(s).loadsIssued == s.loadsIssued && Load(s).inFlight == s.inFlight
  {
  }

  /** Without a cached background the call issues exactly one request and
      changes nothing the scene shows. */
  lemma UncachedLoadRequests(s: LoaderState)
    requires BackgroundKey !in s.cache
    ensures Load(s).loadsIssued == s.loadsIssued + 1 && Load(s).inFlight == s.inFlight + 1
    ensures Load(s).cache == s.cache && Load(s).background == s.background
    ensures Load(s).environment == s.environment && Load(s).exposure == s.exposure
  {
  }

  // ---------------------------------------------------------------------
  // Runs

  datatype Event = Request | Success(texture: Texture) | Failure

  predicate Enabled(s: LoaderState, e: Event) {
    e.Request? || s.inFlight > 0
  }

  function Step(s: LoaderState, e: Event): LoaderState
    requires Enabled(s, e)
  {
    match e
    case Request => Load(s)
    case Success(texture) => Loaded(s, texture)
    case Failure => Failed(s)
  }

  predicate Legal(s: LoaderState, evs: seq<Event>)
    decreases |evs|
  {
    evs == [] || (Enabled(s, evs[0]) && Legal(Step(s, evs[0]), evs[1..]))
  }

  function Run(s: LoaderState, evs: seq<Event>): LoaderState
    requires Legal(s, evs)
    decreases |evs|
  {
    if evs == [] then s else Run(Step(s, evs[0]), evs[1..])
  }

  /** The cache is written by the success callback and by nothing else. */
  lemma {:induction false} CacheWrittenOnlyOnSuccess(s: LoaderState, evs: seq<Event>)
    requires Legal(s, evs)
    requires forall i :: 0 <= i < |evs| ==> !evs[i].Success?
    ensures Run(s, evs).cache == s.cache
    decreases |evs|
  {
    if evs != [] {
      CacheWrittenOnlyOnSuccess(Step(s, evs[0]), evs[1..]);
    }
  }

  /** Once the background is cached and no request is in flight, the cache
      never changes again, no further request reaches the loader, and every
      later call installs the cached texture. */
  lemma {:induction false} SettledCacheIsStable(s: LoaderState, evs: seq<Event>)
    requires Legal(s, evs)
    requires BackgroundKey in s.cache && s.inFlight == 0
    ensures Run(s, evs).cache == s.cache
    ensures Run(s, evs).loadsIssued == s.loadsIssued && Run(s, evs).inFlight == 0
    ensures evs != [] ==> Run(s, evs).background == Run(s, evs).environment == Some(s.cache[BackgroundKey])
    decreases |evs|
  {
    if evs != [] {
      assert evs[0] == Request;
      SettledCacheIsStable(Step(s, evs[0]), evs[1..]);
    }
  }

  /** Loading, then loading again after the first request succeeded, asks
      the loader once and installs the texture it delivered. */
  lemma SecondLoadUsesCache(texture: Texture)
    ensures Legal(Initial(), [Request, Success(texture), Request])
    ensures var r := Run(Initial(), [Request, Success(texture), Request]);
      && r.loadsIssued == 1
      && r.background == r.environment == Some(texture.(mapping := EquirectangularReflection))
      && r.exposure == LoadedExposure
  {
    var s1 := Step(Initial(), Request);
    var s2 := Step(s1, Success(texture));
    assert [Request, Success(texture), Request][1..] == [Success(texture), Request];
    assert [Success(texture), Request][1..] == [Request];
    assert Run(s2, [Request]) == Load(s2) by {
      assert [Request][1..] == [];
    }
  }

  /** Two calls before the first request completes both reach the loader:
      the cache only short-circuits requests made after a success. */
  lemma OverlappingLoadsBothRequest()
    ensures Legal(Initial(), [Request, Request])
    ensures Run(Initial(), [Request, Request]).loadsIssued == 2
  {
    assert [Request, Request][1..] == [Request];
    assert [Request][1..] == [];
  }
}

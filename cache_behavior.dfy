/** The caching pipeline behavior (Application/Pipeline/CacheBehavior.cs).

    The shared cache store (ICacheService over IMemoryCache) is a class whose
    `store` field maps each key to the value kept there (`None` for a stored
    null) and the lifetime it was stored with. `next` is the rest of the
    pipeline; its outcome is a parameter, and `nextCalled` reports whether the
    behavior called it. */
module CacheBehavior {
  import opened Wrappers
  import Mediator

  /** `TimeSpan.FromMinutes(10)`, the lifetime of every entry the behavior stores. */
  const CacheLifetimeMinutes: nat := 10

  datatype CacheEntry<V> = CacheEntry(value: Option<V>, lifetimeMinutes: nat)

  /** The calls the behavior makes on the cache service, in order. */
  datatype CacheCall<V> = Get(key: string) | Set(key: string, value: Option<V>, lifetimeMinutes: nat)

  /** `GetAsync<T>(key)`: the stored value, or null when the key is absent. */
  function Lookup<V>(store: map<string, CacheEntry<V>>, key: string): Option<V>
  {
    if key in store then store[key].value else None
  }

  /** The result of one `Handle` call: the response, whether `next` ran, the
      store afterwards, and the calls made on the cache service. */
  datatype Step<V> = Step(
    response: Outcome<Option<V>>,
    nextCalled: bool,
    store: map<string, CacheEntry<V>>,
    calls: seq<CacheCall<V>>)

  /** One `Handle` call: look the key up; a non-null value is returned at once;
      otherwise `next` runs, and only if it returns is its response stored under
      the same key for ten minutes. */
  function HandleSpec<V>(store: map<string, CacheEntry<V>>, key: string, next: Outcome<Option<V>>): (s: Step<V>)
    ensures |s.calls| > 0 && s.calls[0] == Get(key)
    ensures Lookup(store, key).Some? ==>
      s == Step(Ok(Lookup(store, key)), false, store, [Get(key)])
    ensures Lookup(store, key).None? ==> s.nextCalled && s.response == next
    ensures Lookup(store, key).None? && next.Ok? ==>
      s.store == store[key := CacheEntry(next.value, CacheLifetimeMinutes)]
      && s.calls == [Get(key), Set(key, next.value, CacheLifetimeMinutes)]
    ensures next.Thrown? ==> s.store == store && s.calls == [Get(key)]
  {
    var cached := Lookup(store, key);
    if cached.Some? then Step(Ok(cached), false, store, [Get(key)])
    else match next
      case Thrown(x) => Step(Thrown(x), true, store, [Get(key)])
      case Ok(r) => Step(Ok(r), true, store[key := CacheEntry(r, CacheLifetimeMinutes)],
                         [Get(key), Set(key, r, CacheLifetimeMinutes)])
  }

  /** ICacheService, as CacheService implements it over IMemoryCache (expiry is not modelled). */
  class CacheService<V> {
    var store: map<string, CacheEntry<V>>
    ghost var calls: seq<CacheCall<V>>

    constructor ()
      ensures store == map[] && calls == []
    {
      store := map[];
      calls := [];
    }

    method GetAsync(key: string) returns (value: Option<V>)
      modifies this`calls
      ensures value == Lookup(store, key)
      ensures calls == old(calls) + [Get(key)]
    {
      value := if key in store then store[key].value else None;
      calls := calls + [Get(key)];
    }

    method SetAsync(key: string, value: Option<V>, lifetimeMinutes: nat)
      modifies this
      ensures store == old(store)[key := CacheEntry(value, lifetimeMinutes)]
      ensures calls == old(calls) + [Set(key, value, lifetimeMinutes)]
    {
      store := store[key := CacheEntry(value, lifetimeMinutes)];
      calls := calls + [Set(key, value, lifetimeMinutes)];
    }
  }

  /** CacheBehavior<TRequest, TResponse> with the cache service it was constructed with. */
  class CacheBehavior<V> {
    const cacheService: CacheService<V>

    constructor (cacheService: CacheService<V>)
      ensures this.cacheService == cacheService
    {
      this.cacheService := cacheService;
    }

    /** CacheBehavior.Handle for a request whose `CacheKey` is `cacheKey`. */
    method Handle(cacheKey: string, next: Outcome<Option<V>>) returns (response: Outcome<Option<V>>, nextCalled: bool)
      modifies cacheService
      ensures var s := HandleSpec(old(cacheService.store), cacheKey, next);
        && response == s.response && nextCalled == s.nextCalled
        && cacheService.store == s.store && cacheService.calls == old(cacheService.calls) + s.calls
    {
      var cachedResponse := cacheService.GetAsync(cacheKey);
      if cachedResponse.Some? {
        return Ok(cachedResponse), false;
      }
      nextCalled := true;
      match next {
        case Thrown(x) =>
          response := Thrown(x);
        case Ok(r) =>
          cacheService.SetAsync(cacheKey, r, CacheLifetimeMinutes);
          response := Ok(r);
      }
    }
  }

  /** A miss that stores the response makes an immediately repeated request
      with the same key a hit that returns that response without calling `next`. */
  lemma MissThenHit<V>(store: map<string, CacheEntry<V>>, key: string, v: V, later: Outcome<Option<V>>)
    requires Lookup(store, key).None?
    ensures var first := HandleSpec(store, key, Ok(Some(v)));
      var second := HandleSpec(first.store, key, later);
      && first.response == Ok(Some(v)) && first.nextCalled
      && second.response == Ok(Some(v)) && !second.nextCalled && second.store == first.store
  {
    var first := HandleSpec(store, key, Ok(Some(v)));
    assert Lookup(first.store, key) == Some(v);
  }

  /** A null stored under the key behaves exactly as an absent key, except that
      it stays in the store when `next` fails. */
  lemma NullIsMiss<V>(store: map<string, CacheEntry<V>>, key: string, next: Outcome<Option<V>>)
    requires key in store && store[key].value.None?
    ensures var withNull := HandleSpec(store, key, next);
      var without := HandleSpec(store - {key}, key, next);
      && withNull.response == without.response && withNull.nextCalled == without.nextCalled
      && withNull.calls == without.calls
      && (next.Ok? ==> withNull.store == without.store)
  {
    var without := HandleSpec(store - {key}, key, next);
    assert Lookup(store - {key}, key).None?;
    if next.Ok? {
      assert store[key := CacheEntry(next.value, CacheLifetimeMinutes)]
          == (store - {key})[key := CacheEntry(next.value, CacheLifetimeMinutes)];
    }
  }

  /** The behavior as a pipeline stage over a snapshot of the store: a hit
      returns the cached value, a miss proceeds and passes on what `next` gave. */
  function AsPipelineBehavior<Req, V>(store: map<string, CacheEntry<V>>, cacheKey: Req -> string)
    : Mediator.PipelineBehavior<Req, Option<V>>
  {
    Mediator.PipelineBehavior(
      "CacheBehavior",
      (r: Req, t: Mediator.CancellationToken) =>
        if Lookup(store, cacheKey(r)).Some? then Mediator.Return(Lookup(store, cacheKey(r))) else Mediator.Proceed,
      (r: Req, o: Outcome<Option<V>>) => o)
  }

  /** With the cache behavior outermost, a request whose key holds a value gets
      that value back, and neither the handler nor any inner behavior runs. */
  lemma HitSkipsHandler<Req, V>(
    store: map<string, CacheEntry<V>>, cacheKey: Req -> string,
    inner: seq<Mediator.PipelineBehavior<Req, Option<V>>>, handler: Mediator.RequestHandler<Req, Option<V>>,
    request: Req, token: Mediator.CancellationToken)
    requires Lookup(store, cacheKey(request)).Some?
    ensures var e := Mediator.Invoke(Mediator.Compose([AsPipelineBehavior(store, cacheKey)] + inner, handler), request, token);
      && e.outcome == Ok(Lookup(store, cacheKey(request)))
      && Mediator.Entered(e.trace) == ["CacheBehavior"]
      && Mediator.HandledCount(e.trace) == 0
  {
    var bs := [AsPipelineBehavior(store, cacheKey)] + inner;
    Mediator.ShortCircuit(bs, handler, request, token, 0);
    assert bs[..1] == [AsPipelineBehavior(store, cacheKey)];
    assert Mediator.Names(bs[..1]) == ["CacheBehavior"];
  }

  /** The unit tests: a cached "cached-value" is returned without calling
      `next` or writing; on a miss "handler-value" is returned and stored
      under "test-key". */
  lemma CacheTestScenarios()
    ensures HandleSpec(map["test-key" := CacheEntry(Some("cached-value"), 5)], "test-key", Ok(Some("handler-value")))
         == Step(Ok(Some("cached-value")), false, map["test-key" := CacheEntry(Some("cached-value"), 5)], [Get("test-key")])
    ensures HandleSpec(map[], "test-key", Ok(Some("handler-value")))
         == Step(Ok(Some("handler-value")), true,
                 map["test-key" := CacheEntry(Some("handler-value"), CacheLifetimeMinutes)],
                 [Get("test-key"), Set("test-key", Some("handler-value"), CacheLifetimeMinutes)])
  {
  }
}

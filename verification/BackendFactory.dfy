/** The backend factory in its own form: a class whose methods update the cached fields, each proved
    against the sequential specification, and the controller that invalidates it. */
module BackendFactory {
  import opened Wrappers
  import opened PathBuilder
  import opened MultiEngine
  import opened FactoryCache

  class Factory {
    var backend: Option<Loaded>
    var pathBuilder: Option<Builder>
    var config: Option<Loaded>
    var engineBackends: Option<Engines>
    const fromEnv: Result<Config>
    var loads: nat
    ghost var created: nat
    ghost var closed: nat
    ghost var invalidatedAt: nat

    ghost function CacheState(): State
      reads this
    {
      State(Cache(backend, pathBuilder, config, engineBackends), loads, created, closed, invalidatedAt)
    }

    constructor (fromEnv: Result<Config>)
      ensures CacheState() == FRESH && this.fromEnv == fromEnv
    {
      this.fromEnv := fromEnv;
      backend, pathBuilder, config, engineBackends := None, None, None, None;
      loads, created, closed, invalidatedAt := 0, 0, 0, 0;
    }

    method LoadConfig(read: Read) returns (r: Result<Loaded>)
      modifies this`loads
      ensures var c := Load(read, fromEnv);
              if c.Ok? then r == Ok(Loaded(c.value, old(loads))) && loads == old(loads) + 1
              else r.Err? && loads == old(loads)
    {
      var c := fromEnv;
      if read.Found? {
        c := Ok(LoadConfigFromCRD(read.cr));
      }
      if c.Err? {
        return Err(c.error);
      }
      loads := loads + 1;
      return Ok(Loaded(c.value, loads - 1));
    }

    method CreateBackend(l: Loaded, connects: bool) returns (r: Option<Loaded>)
      modifies this`created
      ensures r == if Creatable(l.config) && connects then Some(l) else None
      ensures created == old(created) + if r.Some? then 1 else 0
    {
      if l.config.backend != "vault" || l.config.vault.None? || !connects {
        return None;
      }
      created := created + 1;
      return Some(l);
    }

    method GetBackend(read: Read, connects: bool) returns (r: Answer)
      modifies this
      ensures (CacheState(), r) == Apply(old(CacheState()), Op.GetBackend(read, connects), fromEnv)
    {
      if backend.Some? {
        return BackendFrom(backend.value.config);
      }
      var l := LoadConfig(read);
      if l.Err? {
        return Failed;
      }
      var b := CreateBackend(l.value, connects);
      if b.None? {
        return Failed;
      }
      backend := b;
      config := Some(l.value);
      return BackendFrom(l.value.config);
    }

    /** The fill rule of every other getter: load only if nothing is cached. */
    method CachedConfig(read: Read) returns (ok: bool)
      modifies this`config, this`loads
      ensures (CacheState(), config) == EnsureConfig(old(CacheState()), read, fromEnv)
      ensures ok == config.Some?
    {
      if config.None? {
        var l := LoadConfig(read);
        if l.Err? {
          return false;
        }
        config := Some(l.value);
      }
      return true;
    }

    method GetPathBuilder(read: Read) returns (r: Answer)
      modifies this
      ensures (CacheState(), r) == Apply(old(CacheState()), Op.GetPathBuilder(read), fromEnv)
    {
      if pathBuilder.Some? {
        return BuilderOf(pathBuilder.value.template);
      }
      var ok := CachedConfig(read);
      if !ok {
        return Failed;
      }
      var t := NewPathBuilder(config.value.config.pathTemplate);
      if t.Err? {
        return Failed;
      }
      pathBuilder := Some(Builder(t.value, config.value));
      return BuilderOf(t.value);
    }

    method GetRegionLabelKey(read: Read) returns (r: Answer)
      modifies this
      ensures (CacheState(), r) == Apply(old(CacheState()), Op.GetRegionLabelKey(read), fromEnv)
    {
      var ok := CachedConfig(read);
      return if ok then Text(config.value.config.regionLabelKey) else Failed;
    }

    method GetSyncLabel(read: Read) returns (r: Answer)
      modifies this
      ensures (CacheState(), r) == Apply(old(CacheState()), Op.GetSyncLabel(read), fromEnv)
    {
      var ok := CachedConfig(read);
      return if ok then Text(config.value.config.syncLabel) else Failed;
    }

    method GetEngineBackends(read: Read, live: Read, connects: nat -> bool, labels: Labels) returns (r: Answer)
      modifies this
      ensures (CacheState(), r) == Apply(old(CacheState()), Op.GetEngineBackends(read, live, connects, labels), fromEnv)
      ensures Valid(old(CacheState())) && engineBackends.Some? && r.EngineList? ==>
                HandsOut(engineBackends.value, labels, r.engines)
    {
      ghost var st, op := CacheState(), Op.GetEngineBackends(read, live, connects, labels);
      if Valid(st) && Apply(st, op, fromEnv).0.cache.engineBackends.Some? && Apply(st, op, fromEnv).1 != Failed {
        EnginesHandedOut(st, op, fromEnv);
      }
      if engineBackends.Some? {
        var matched := FilterEngines(engineBackends.value.all, labels);
        return EngineList(matched);
      }
      var ok := CachedConfig(read);
      if !ok {
        return Failed;
      }
      if config.value.config.vault.None? || !live.Found? {
        return EngineList([]);
      }
      var engines := [];
      if live.cr.vaultConfig.Some? {
        engines := live.cr.vaultConfig.value.secretEngines;
      }
      assert engines == ConfiguredEngines(live);
      if |engines| == 0 {
        return EngineList([]);
      }
      var parsed := ParseSecretEngineConfig(engines, config.value.config.vault.value, connects);
      if parsed.Err? {
        return Failed;
      }
      engineBackends := Some(Engines(parsed.value, config.value, live, 0));
      var matched := FilterEngines(parsed.value, labels);
      return EngineList(matched);
    }

    method CloseBackend(closes: bool) returns (ok: bool)
      modifies this`backend, this`closed
      ensures ok == (old(backend).None? || closes)
      ensures CacheState() == if ok then WithoutBackend(old(CacheState())) else old(CacheState())
    {
      if backend.Some? {
        if !closes {
          return false;
        }
        closed := closed + 1;
        backend := None;
      }
      return true;
    }

    method InvalidateCache(closes: bool, failingEngine: Option<nat>) returns (r: Answer)
      modifies this
      ensures (CacheState(), r) == Apply(old(CacheState()), Op.InvalidateCache(closes, failingEngine), fromEnv)
    {
      var ok := CloseBackend(closes);
      if !ok {
        return Failed;
      }
      if engineBackends.Some? {
        for i := 0 to |engineBackends.value.all|
          invariant CacheState() == MarkClosed(WithoutBackend(old(CacheState())), i)
          invariant old(engineBackends).Some? && engineBackends.Some?
          invariant engineBackends.value.all == old(engineBackends).value.all
          invariant failingEngine.Some? ==>
                      i <= failingEngine.value || failingEngine.value >= |engineBackends.value.all|
        {
          if failingEngine == Some(i) {
            return Failed;
          }
          if engineBackends.value.closed < i + 1 {
            engineBackends := Some(engineBackends.value.(closed := i + 1));
          }
        }
      }
      engineBackends := None;
      config := None;
      pathBuilder := None;
      invalidatedAt := loads;
      return Done;
    }

    method Close(closes: bool) returns (r: Answer)
      modifies this
      ensures (CacheState(), r) == Apply(old(CacheState()), Op.Close(closes), fromEnv)
    {
      var ok := CloseBackend(closes);
      return if ok then Done else Failed;
    }

    /** The configuration controller: a changed or deleted resource invalidates the cache, and a read
        that fails in another way leaves it alone and is returned for a retry. */
    method ReconcileConfig(get: Read, closes: bool, failingEngine: Option<nat>) returns (r: Answer)
      modifies this
      ensures get.ReadFailed? ==> r == Failed && CacheState() == old(CacheState())
      ensures !get.ReadFailed? ==>
                (CacheState(), r) == Apply(old(CacheState()), Op.InvalidateCache(closes, failingEngine), fromEnv)
      ensures r == Done ==> CacheState().cache == Cache(None, None, None, None)
    {
      if get.ReadFailed? {
        return Failed;
      }
      r := InvalidateCache(closes, failingEngine);
    }
  }

  method ParseSecretEngineConfig(engines: seq<SecretEngineConfig>, base: VaultConfig, connects: nat -> bool)
    returns (r: Result<seq<Engine>>)
    ensures r.Ok? <==> forall i :: 0 <= i < |engines| ==> EngineWorks(engines, connects, i)
    ensures r.Ok? ==> BuiltFrom(r.value, engines, base)
    ensures r.Ok? <==> ParseEngines(engines, base, connects).Ok?
    ensures r.Ok? ==> r == ParseEngines(engines, base, connects)
  {
    var parsed: seq<Engine> := [];
    for i := 0 to |engines|
      invariant ParseEngines(engines[..i], base, connects) == Ok(parsed)
    {
      assert engines[..i + 1][..i] == engines[..i];
      var t := NewPathBuilder(TemplateOrDefault(engines[i].pathTemplate));
      if !connects(i) || t.Err? {
        assert !EngineWorks(engines, connects, i);
        return Err("failed to create engine " + engines[i].name);
      }
      parsed := parsed + [EngineOf(engines[i], base, t.value)];
    }
    assert engines[..|engines|] == engines;
    return Ok(parsed);
  }
}

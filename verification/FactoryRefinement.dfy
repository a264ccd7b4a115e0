/** The cache against a computation without one: when it agrees with the resource, what a failed read of
    the resource does to it, and what the getters answer. */
module FactoryRefinement {
  import opened Wrappers
  import opened PathBuilder
  import opened MultiEngine
  import opened FactoryCache

  /** The answer computed from the resource as it is now, without any cache, when connecting works. */
  function Uncached(op: Op, cr: Option<SecretBackendConfig>, fromEnv: Result<Config>): Answer {
    var c := Load(ReadOf(cr), fromEnv);
    match op
    case GetBackend(_, _) => if c.Ok? && Creatable(c.value) then BackendFrom(c.value) else Failed
    case GetPathBuilder(_) =>
      if c.Ok? && NewPathBuilder(c.value.pathTemplate).Ok? then BuilderOf(NewPathBuilder(c.value.pathTemplate).value)
      else Failed
    case GetRegionLabelKey(_) => if c.Ok? then Text(c.value.regionLabelKey) else Failed
    case GetSyncLabel(_) => if c.Ok? then Text(c.value.syncLabel) else Failed
    case GetEngineBackends(_, _, _, labels) =>
      (match AllEngines(cr, fromEnv)
       case Err(_) => Failed
       case Ok(all) => EngineList(FilterEnginesByLabels(all, labels)))
    case HasMultiEngineConfig(_) => Flag(ConfiguredEngines(ReadOf(cr)) != [])
    case InvalidateCache(_, _) => Done
    case Close(_) => Done
  }

  /** The engines of a list with a configuration as their base. */
  function EnginesOver(c: Config, list: seq<SecretEngineConfig>, connects: nat -> bool): Result<seq<Engine>> {
    if c.vault.None? || list == [] then Ok([]) else ParseEngines(list, c.vault.value, connects)
  }

  /** The unfiltered engine list for the resource as it is now. */
  function AllEngines(cr: Option<SecretBackendConfig>, fromEnv: Result<Config>): Result<seq<Engine>> {
    match Load(ReadOf(cr), fromEnv)
    case Err(e) => Err(e)
    case Ok(c) => EnginesOver(c, ConfiguredEngines(ReadOf(cr)), ALWAYS)
  }

  predicate Getter(op: Op) {
    !op.InvalidateCache? && !op.Close?
  }

  // ---------------------------------------------------------------- which reads a call makes

  /** The call reads the resource to load a configuration. */
  predicate Loads(st: State, op: Op) {
    match op
    case GetBackend(_, _) => st.cache.backend.None?
    case GetPathBuilder(_) => st.cache.pathBuilder.None? && st.cache.config.None?
    case GetRegionLabelKey(_) => st.cache.config.None?
    case GetSyncLabel(_) => st.cache.config.None?
    case GetEngineBackends(_, _, _, _) => st.cache.engineBackends.None? && st.cache.config.None?
    case _ => false
  }

  /** The call reads the resource for the list of engines. */
  predicate Lists(st: State, op: Op, fromEnv: Result<Config>) {
    match op
    case GetEngineBackends(read, _, _, _) =>
      var l := EnsureConfig(st, read, fromEnv).1;
      st.cache.engineBackends.None? && l.Some? && l.value.config.vault.Some?
    case HasMultiEngineConfig(_) => true
    case _ => false
  }

  /** Each read that the call makes shows the resource or fails. Connections may fail, too. */
  predicate Sees(st: State, op: Op, cr: Option<SecretBackendConfig>, fromEnv: Result<Config>) {
    && (Loads(st, op) ==> op.read == ReadOf(cr) || op.read == ReadFailed)
    && (Lists(st, op, fromEnv) ==> op.live == ReadOf(cr) || op.live == ReadFailed)
  }

  /** No read that the call makes fails. */
  predicate ReadsWork(st: State, op: Op, fromEnv: Result<Config>) {
    (Loads(st, op) ==> op.read != ReadFailed) && (Lists(st, op, fromEnv) ==> op.live != ReadFailed)
  }

  ghost predicate Connects(op: Op) {
    (op.GetBackend? ==> op.connects) && (op.GetEngineBackends? ==> forall i :: op.engineConnects(i))
  }

  /** The load fails, and what is taken from the environment in its place, and cached, is not what the
      resource gives. */
  predicate Misled(st: State, op: Op, cr: Option<SecretBackendConfig>, fromEnv: Result<Config>) {
    && Loads(st, op) && op.read == ReadFailed && cr.Some? && fromEnv.Ok?
    && fromEnv.value != LoadConfigFromCRD(cr.value)
    && (op.GetBackend? ==> Creatable(fromEnv.value) && op.connects)
  }

  // ---------------------------------------------------------------- a cache that agrees with the resource

  /** Everything cached is what the current resource gives. */
  ghost predicate Coherent(st: State, cr: Option<SecretBackendConfig>, fromEnv: Result<Config>) {
    var c := Load(ReadOf(cr), fromEnv);
    && (st.cache.config.Some? ==> c == Ok(st.cache.config.value.config))
    && (st.cache.backend.Some? ==> c == Ok(st.cache.backend.value.config) && Creatable(c.value))
    && (st.cache.pathBuilder.Some? ==>
          c.Ok? && NewPathBuilder(c.value.pathTemplate) == Ok(st.cache.pathBuilder.value.template))
    && (st.cache.engineBackends.Some? ==> AllEngines(cr, fromEnv) == Ok(st.cache.engineBackends.value.all))
  }

  lemma ConnectingEngines(engines: seq<SecretEngineConfig>, base: VaultConfig, connects: nat -> bool)
    requires forall i :: connects(i)
    ensures ParseEngines(engines, base, connects).Ok? <==> ParseEngines(engines, base, ALWAYS).Ok?
  {
    assert forall i :: 0 <= i < |engines| ==> EngineWorks(engines, connects, i) == EngineWorks(engines, ALWAYS, i);
  }

  /** What a list gives when some connections may fail: the engines it gives otherwise, or a failure. */
  lemma EnginesOrFailure(c: Config, list: seq<SecretEngineConfig>, connects: nat -> bool)
    ensures EnginesOver(c, list, connects).Ok? ==> EnginesOver(c, list, connects) == EnginesOver(c, list, ALWAYS)
    ensures (forall i :: connects(i)) ==> (EnginesOver(c, list, connects).Ok? <==> EnginesOver(c, list, ALWAYS).Ok?)
  {
    if c.vault.Some? {
      if ParseEngines(list, c.vault.value, connects).Ok? {
        CreatedEngines(list, c.vault.value, connects);
      }
      if forall i :: connects(i) {
        ConnectingEngines(list, c.vault.value, connects);
      }
    }
  }

  /** From a cache that agrees with the resource, whatever reads and connections fail: it goes on agreeing
      exactly unless a failed load caches another configuration; and a getter whose reads work answers what
      an uncached computation would, or fails because it cannot connect. */
  lemma CoherentAnswers(st: State, op: Op, cr: Option<SecretBackendConfig>, fromEnv: Result<Config>)
    requires Coherent(st, cr, fromEnv) && Sees(st, op, cr, fromEnv)
    ensures Coherent(Apply(st, op, fromEnv).0, cr, fromEnv) <==> !Misled(st, op, cr, fromEnv)
    ensures Getter(op) && ReadsWork(st, op, fromEnv) ==>
              || Apply(st, op, fromEnv).1 == Uncached(op, cr, fromEnv)
              || (Apply(st, op, fromEnv).1 == Failed && !Connects(op))
  {
    if op.GetEngineBackends? {
      CoherentEngines(st, op, cr, fromEnv);
    } else if op.InvalidateCache? {
      CoherentInvalidation(st, op, cr, fromEnv);
    }
  }

  lemma CoherentInvalidation(st: State, op: Op, cr: Option<SecretBackendConfig>, fromEnv: Result<Config>)
    requires Coherent(st, cr, fromEnv) && op.InvalidateCache?
    ensures Coherent(Apply(st, op, fromEnv).0, cr, fromEnv)
  {
  }

  lemma CoherentEngines(st: State, op: Op, cr: Option<SecretBackendConfig>, fromEnv: Result<Config>)
    requires Coherent(st, cr, fromEnv) && Sees(st, op, cr, fromEnv) && op.GetEngineBackends?
    ensures Coherent(Apply(st, op, fromEnv).0, cr, fromEnv) <==> !Misled(st, op, cr, fromEnv)
    ensures ReadsWork(st, op, fromEnv) ==>
              || Apply(st, op, fromEnv).1 == Uncached(op, cr, fromEnv)
              || (Apply(st, op, fromEnv).1 == Failed && !Connects(op))
  {
    var l := EnsureConfig(st, op.read, fromEnv).1;
    if l.Some? {
      EnginesOrFailure(l.value.config, ConfiguredEngines(op.live), op.engineConnects);
    }
  }

  // ---------------------------------------------------------------- sequences of calls

  /** A change of the resource, or a call. */
  datatype Act = ChangeCR(cr: Option<SecretBackendConfig>) | Do(op: Op)

  /** The factory, the resource, and whether since the last successful invalidation the resource changed
      or a call was misled. */
  datatype Scene = Scene(st: State, cr: Option<SecretBackendConfig>, stale: bool)

  function Next(s: Scene, a: Act, fromEnv: Result<Config>): Scene {
    match a
    case ChangeCR(cr) => Scene(s.st, cr, true)
    case Do(op) =>
      var (st', answer) := Apply(s.st, op, fromEnv);
      Scene(st', s.cr, (s.stale || Misled(s.st, op, s.cr, fromEnv)) && !(op.InvalidateCache? && answer == Done))
  }

  function Play(cr: Option<SecretBackendConfig>, acts: seq<Act>, fromEnv: Result<Config>): Scene {
    if acts == [] then Scene(FRESH, cr, false)
    else Next(Play(cr, acts[..|acts| - 1], fromEnv), acts[|acts| - 1], fromEnv)
  }

  /** Reads show the resource or fail, and a getter is only called once a change, and a call that was
      misled, has been followed by a successful invalidation. */
  ghost predicate Disciplined(cr: Option<SecretBackendConfig>, acts: seq<Act>, fromEnv: Result<Config>) {
    forall i :: 0 <= i < |acts| && acts[i].Do? ==>
      var before := Play(cr, acts[..i], fromEnv);
      Sees(before.st, acts[i].op, before.cr, fromEnv) && (Getter(acts[i].op) ==> !before.stale)
  }

  /** Refinement: over any disciplined sequence, with failing reads, connections, invalidations and closes
      in it, every getter whose own reads work answers what an uncached computation from the current
      resource would, or fails because it cannot connect. */
  lemma CacheRefinesUncached(cr: Option<SecretBackendConfig>, acts: seq<Act>, fromEnv: Result<Config>, i: nat)
    requires Disciplined(cr, acts, fromEnv) && i < |acts| && acts[i].Do? && Getter(acts[i].op)
    requires ReadsWork(Play(cr, acts[..i], fromEnv).st, acts[i].op, fromEnv)
    ensures var before := Play(cr, acts[..i], fromEnv);
            var answer := Apply(before.st, acts[i].op, fromEnv).1;
            || answer == Uncached(acts[i].op, before.cr, fromEnv)
            || (answer == Failed && !Connects(acts[i].op))
  {
    PlayCoherent(cr, acts, fromEnv, i);
    CoherentAnswers(Play(cr, acts[..i], fromEnv).st, acts[i].op, Play(cr, acts[..i], fromEnv).cr, fromEnv);
  }

  lemma {:induction false} PlayCoherent(
      cr: Option<SecretBackendConfig>, acts: seq<Act>, fromEnv: Result<Config>, i: nat)
    requires Disciplined(cr, acts, fromEnv) && i <= |acts|
    ensures var s := Play(cr, acts[..i], fromEnv);
            !s.stale ==> Coherent(s.st, s.cr, fromEnv)
  {
    if i > 0 {
      PlayCoherent(cr, acts, fromEnv, i - 1);
      assert acts[..i][..i - 1] == acts[..i - 1];
      var before := Play(cr, acts[..i - 1], fromEnv);
      if acts[i - 1].Do? && !before.stale {
        CoherentAnswers(before.st, acts[i - 1].op, before.cr, fromEnv);
      }
    }
  }

  /** From a cache that agrees with the resource, if its engines can be created, and the reads and
      connections of the call work: after the engines were asked for, they are cached if and only if the
      multi-engine check answers true, and then the answer is the filtered list of all of them, and
      otherwise an empty one. */
  lemma EnginesIffMultiEngine(st: State, op: Op, cr: Option<SecretBackendConfig>, fromEnv: Result<Config>)
    requires Valid(st) && Coherent(st, cr, fromEnv) && Sees(st, op, cr, fromEnv) && op.GetEngineBackends?
    requires AllEngines(cr, fromEnv).Ok? && ReadsWork(st, op, fromEnv) && Connects(op)
    ensures var (st', answer) := Apply(st, op, fromEnv);
            && (st'.cache.engineBackends.Some? <==>
                  Apply(st', HasMultiEngineConfig(ReadOf(cr)), fromEnv).1 == Flag(true))
            && answer == EngineList(
                 if st'.cache.engineBackends.Some? then
                   FilterEnginesByLabels(st'.cache.engineBackends.value.all, op.labels)
                 else [])
  {
    CoherentAnswers(st, op, cr, fromEnv);
  }

  /** Without an invalidation after the change the cache answers for the old resource: a cached
      region key is returned whatever the resource says now. */
  lemma StaleWithoutInvalidation(cr: SecretBackendConfig, cr': SecretBackendConfig, fromEnv: Result<Config>)
    ensures var acts := [Do(GetRegionLabelKey(Found(cr))), ChangeCR(Some(cr'))];
            var s := Play(Some(cr), acts, fromEnv);
            Apply(s.st, GetRegionLabelKey(Found(cr')), fromEnv).1 ==
              Uncached(GetRegionLabelKey(Found(cr')), Some(cr'), fromEnv) <==>
              OrDefault(cr.regionLabelKey, "region") == OrDefault(cr'.regionLabelKey, "region")
  {
    var acts := [Do(GetRegionLabelKey(Found(cr))), ChangeCR(Some(cr'))];
    assert acts[..1] == [acts[0]] && acts[..1][..0] == [];
    assert Play(Some(cr), acts[..1], fromEnv) == Next(Scene(FRESH, Some(cr), false), acts[0], fromEnv);
  }

  /** One failed read is enough to answer for the environment from then on: it is cached, and the sync
      label that a later call gives, although it could read the resource, is right exactly if the
      environment and the resource agree on it. */
  lemma FallbackSticks(cr: SecretBackendConfig, env: Config)
    ensures var st := Apply(FRESH, GetSyncLabel(ReadFailed), Ok(env)).0;
            && Apply(st, GetSyncLabel(Found(cr)), Ok(env)).1 == Text(env.syncLabel)
            && (Text(env.syncLabel) == Uncached(GetSyncLabel(Found(cr)), Some(cr), Ok(env)) <==>
                  env.syncLabel == cr.syncLabel)
  {
  }

  /** A failed read hides the engines: the check answers false, and reports no error. */
  lemma FailedReadHidesEngines(st: State, cr: SecretBackendConfig, fromEnv: Result<Config>)
    ensures Apply(st, HasMultiEngineConfig(ReadFailed), fromEnv) == (st, Flag(false))
    ensures Uncached(HasMultiEngineConfig(Found(cr)), Some(cr), fromEnv) == Flag(false) <==>
              ConfiguredEngines(Found(cr)) == []
  {
  }
}

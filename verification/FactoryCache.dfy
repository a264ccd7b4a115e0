/** The backend factory as a sequential object: four lazily filled fields with different fill rules,
    and the calls that fill and clear them. Every outcome of the environment (reading the custom
    resource, connecting, closing) is a parameter of the call. */
module FactoryCache {
  import opened Wrappers
  import opened PathBuilder
  import opened MultiEngine

  datatype VaultConfig = VaultConfig(
    address: string, authMethod: string, kubernetesAuthRole: string, kubernetesAuthPath: string, token: string,
    mountPath: string, skipVerify: bool, caCert: string)

  datatype Config = Config(
    backend: string, vault: Option<VaultConfig>, pathTemplate: TemplateText, regionLabelKey: string, syncLabel: string)

  datatype SecretEngineConfig = SecretEngineConfig(
    name: string, mountPath: string, pathTemplate: TemplateText, syncLabel: string)

  datatype KubernetesAuth = KubernetesAuth(role: string, path: string)

  datatype TLSConfig = TLSConfig(skipVerify: bool, caCert: string)

  datatype VaultSpec = VaultSpec(
    address: string, authMethod: string, kubernetesAuth: Option<KubernetesAuth>, mountPath: string,
    tls: Option<TLSConfig>, secretEngines: seq<SecretEngineConfig>)

  /** The custom resource. */
  datatype SecretBackendConfig = SecretBackendConfig(
    backend: string, vaultConfig: Option<VaultSpec>, pathTemplate: TemplateText, regionLabelKey: string,
    syncLabel: string)

  /** One read of the custom resource. */
  datatype Read = Found(cr: SecretBackendConfig) | NotFound | ReadFailed

  function OrDefault(s: string, default: string): string {
    if s == "" then default else s
  }

  function TemplateOrDefault(t: TemplateText): TemplateText {
    if t.Blank? then Parses(DEFAULT_TEMPLATE) else t
  }

  function LoadVaultConfig(v: VaultSpec): VaultConfig {
    VaultConfig(
      v.address, OrDefault(v.authMethod, "kubernetes"),
      if v.kubernetesAuth.Some? then v.kubernetesAuth.value.role else "",
      if v.kubernetesAuth.Some? then OrDefault(v.kubernetesAuth.value.path, "kubernetes") else "",
      "", OrDefault(v.mountPath, "secret"),
      if v.tls.Some? then v.tls.value.skipVerify else false,
      if v.tls.Some? then v.tls.value.caCert else "")
  }

  function LoadConfigFromCRD(cr: SecretBackendConfig): Config {
    Config(
      cr.backend, if cr.vaultConfig.Some? then Some(LoadVaultConfig(cr.vaultConfig.value)) else None,
      TemplateOrDefault(cr.pathTemplate), OrDefault(cr.regionLabelKey, "region"), cr.syncLabel)
  }

  /** Any failed read falls back to the environment variables, whose configuration is `fromEnv`. */
  function Load(read: Read, fromEnv: Result<Config>): Result<Config> {
    if read.Found? then Ok(LoadConfigFromCRD(read.cr)) else fromEnv
  }

  /** Whether a default backend can be created at all; connecting may still fail. */
  predicate Creatable(c: Config) {
    c.backend == "vault" && c.vault.Some?
  }

  type Engine = EngineBackend<VaultConfig>

  /** Every engine connects. */
  const ALWAYS: nat -> bool := (i: nat) => true

  function EngineOf(e: SecretEngineConfig, base: VaultConfig, t: Template): Engine {
    var (key, value) := ParseSyncLabel(e.syncLabel);
    EngineBackend(base.(mountPath := e.mountPath), e.name, t, e.syncLabel, key, value)
  }

  /** Whether engine `i` connects and its template parses. */
  predicate EngineWorks(engines: seq<SecretEngineConfig>, connects: nat -> bool, i: nat)
    requires i < |engines|
  {
    connects(i) && NewPathBuilder(TemplateOrDefault(engines[i].pathTemplate)).Ok?
  }

  /** The engine matches exactly the labels that its specification selects, as documented. */
  ghost predicate MatchesAsDocumented(e: Engine, syncLabel: string) {
    forall labels: Labels :: e.MatchesLabels(labels) <==> Documented(syncLabel, labels)
  }

  /** The engine is what its configuration says: the base configuration with the mount path of the engine,
      its name, its own template or the default one, and its labels. */
  ghost predicate BuiltAs(e: Engine, engine: SecretEngineConfig, base: VaultConfig) {
    && e.backend == VaultConfig(
         base.address, base.authMethod, base.kubernetesAuthRole, base.kubernetesAuthPath, base.token,
         engine.mountPath, base.skipVerify, base.caCert)
    && e.name == engine.name
    && (match engine.pathTemplate
        case Blank =>
          e.pathBuilder == [Lit("bmc/"), Var(Region), Lit("/"), Var(Hostname), Lit("/"), Var(Username)]
        case Parses(t) => e.pathBuilder == t
        case Malformed => false)
    && e.syncLabel == engine.syncLabel && MatchesAsDocumented(e, engine.syncLabel)
  }

  lemma EngineIsBuilt(engine: SecretEngineConfig, base: VaultConfig, t: Template)
    requires NewPathBuilder(TemplateOrDefault(engine.pathTemplate)) == Ok(t)
    ensures BuiltAs(EngineOf(engine, base, t), engine, base)
  {
    var e := EngineOf(engine, base, t);
    forall labels: Labels ensures e.MatchesLabels(labels) <==> Documented(engine.syncLabel, labels) {
      SelectsAsDocumented(engine.syncLabel, labels);
    }
  }

  /** Engine by engine, in configured order. */
  ghost predicate BuiltFrom(all: seq<Engine>, engines: seq<SecretEngineConfig>, base: VaultConfig) {
    |all| == |engines| && forall i :: 0 <= i < |engines| ==> BuiltAs(all[i], engines[i], base)
  }

  /** All engines in configured order, or the first failure to connect or to parse a template. */
  function ParseEngines(
      engines: seq<SecretEngineConfig>, base: VaultConfig, connects: nat -> bool): (r: Result<seq<Engine>>)
    ensures r.Ok? <==> forall i :: 0 <= i < |engines| ==> EngineWorks(engines, connects, i)
    ensures r.Ok? ==> BuiltFrom(r.value, engines, base)
  {
    if engines == [] then Ok([])
    else
      var n := |engines| - 1;
      var before := ParseEngines(engines[..n], base, connects);
      assert forall i :: 0 <= i < n ==> engines[..n][i] == engines[i];
      assert forall i :: 0 <= i < n ==> EngineWorks(engines[..n], connects, i) == EngineWorks(engines, connects, i);
      assert EngineWorks(engines, connects, n) ==> connects(n);
      if before.Err? then before
      else if !connects(n) then Err("failed to create backend for engine " + engines[n].name)
      else
        match NewPathBuilder(TemplateOrDefault(engines[n].pathTemplate))
        case Err(_) => Err("failed to create path builder for engine " + engines[n].name)
        case Ok(t) =>
          EngineIsBuilt(engines[n], base, t);
          assert forall i :: 0 <= i < n ==> BuiltAs(before.value[i], engines[..n][i], base);
          Ok(before.value + [EngineOf(engines[n], base, t)])
  }

  // ---------------------------------------------------------------- the cached fields

  /** A configuration and the number of the load that produced it (an auxiliary stamp). */
  datatype Loaded = Loaded(config: Config, stamp: nat)

  datatype Builder = Builder(template: Template, from: Loaded)

  /** The cached engines, with the read of the resource that listed them, and how many of them, from the
      first on, have been closed since (auxiliary): an invalidation that fails to close an engine has
      closed those before it and leaves all of them cached. */
  datatype Engines = Engines(all: seq<Engine>, from: Loaded, live: Read, closed: nat)

  datatype Cache = Cache(
    backend: Option<Loaded>, pathBuilder: Option<Builder>, config: Option<Loaded>, engineBackends: Option<Engines>)

  /** The cache with auxiliary counters: loads so far, default backends created and closed, and the
      number of loads at the last successful invalidation. */
  datatype State = State(cache: Cache, loads: nat, created: nat, closed: nat, invalidatedAt: nat)

  const FRESH := State(Cache(None, None, None, None), 0, 0, 0, 0)

  datatype Op =
    | GetBackend(read: Read, connects: bool)
    | GetPathBuilder(read: Read)
    | GetRegionLabelKey(read: Read)
    | GetSyncLabel(read: Read)
    | GetEngineBackends(read: Read, live: Read, engineConnects: nat -> bool, labels: Labels)
    | HasMultiEngineConfig(live: Read)
    | InvalidateCache(closes: bool, failingEngine: Option<nat>)
    | Close(closes: bool)

  datatype Answer =
    | BackendFrom(config: Config) | BuilderOf(template: Template) | Text(s: string) | EngineList(engines: seq<Engine>)
    | Flag(b: bool) | Done | Failed

  /** The cached configuration, or a newly loaded one that is then cached. */
  function EnsureConfig(st: State, read: Read, fromEnv: Result<Config>): (r: (State, Option<Loaded>))
    ensures r.1 == r.0.cache.config
  {
    if st.cache.config.Some? then (st, st.cache.config)
    else
      match Load(read, fromEnv)
      case Err(_) => (st, None)
      case Ok(c) =>
        var l := Loaded(c, st.loads);
        (st.(cache := st.cache.(config := Some(l)), loads := st.loads + 1), Some(l))
  }

  function ConfiguredEngines(live: Read): seq<SecretEngineConfig> {
    if live.Found? && live.cr.vaultConfig.Some? then live.cr.vaultConfig.value.secretEngines else []
  }

  /** The engines that a read lists: those of the Vault section, all of them and in order. A resource without
      one, a missing resource and a failed read list none. */
  lemma EnginesListedBy(live: Read)
    ensures live == NotFound || live == ReadFailed ==> ConfiguredEngines(live) == []
    ensures live.Found? && live.cr.vaultConfig == None ==> ConfiguredEngines(live) == []
    ensures forall v :: live.Found? && live.cr.vaultConfig == Some(v) ==> ConfiguredEngines(live) == v.secretEngines
  {
  }

  /** The default backend closed and forgotten, if there is one. */
  function WithoutBackend(st: State): State {
    if st.cache.backend.None? then st else st.(cache := st.cache.(backend := None), closed := st.closed + 1)
  }

  predicate EngineCloseFails(st: State, failingEngine: Option<nat>) {
    failingEngine.Some? && st.cache.engineBackends.Some? && failingEngine.value < |st.cache.engineBackends.value.all|
  }

  /** The first `n` engines closed, if any are cached. */
  function MarkClosed(st: State, n: nat): State {
    if st.cache.engineBackends.None? then st
    else
      var e := st.cache.engineBackends.value;
      st.(cache := st.cache.(engineBackends := Some(e.(closed := if e.closed < n then n else e.closed))))
  }

  function Apply(st: State, op: Op, fromEnv: Result<Config>): (State, Answer) {
    match op
    case GetBackend(read, connects) =>
      if st.cache.backend.Some? then (st, BackendFrom(st.cache.backend.value.config))
      else
        (match Load(read, fromEnv)
         case Err(_) => (st, Failed)
         case Ok(c) =>
           var l := Loaded(c, st.loads);
           if Creatable(c) && connects then
             (st.(cache := st.cache.(backend := Some(l), config := Some(l)),
                  loads := st.loads + 1, created := st.created + 1),
              BackendFrom(c))
           else (st.(loads := st.loads + 1), Failed))
    case GetPathBuilder(read) =>
      if st.cache.pathBuilder.Some? then (st, BuilderOf(st.cache.pathBuilder.value.template))
      else
        var (st', l) := EnsureConfig(st, read, fromEnv);
        if l.None? then (st', Failed)
        else
          (match NewPathBuilder(l.value.config.pathTemplate)
           case Err(_) => (st', Failed)
           case Ok(t) => (st'.(cache := st'.cache.(pathBuilder := Some(Builder(t, l.value)))), BuilderOf(t)))
    case GetRegionLabelKey(read) =>
      var (st', l) := EnsureConfig(st, read, fromEnv);
      (st', if l.None? then Failed else Text(l.value.config.regionLabelKey))
    case GetSyncLabel(read) =>
      var (st', l) := EnsureConfig(st, read, fromEnv);
      (st', if l.None? then Failed else Text(l.value.config.syncLabel))
    case GetEngineBackends(read, live, connects, labels) =>
      if st.cache.engineBackends.Some? then
        (st, EngineList(FilterEnginesByLabels(st.cache.engineBackends.value.all, labels)))
      else
        var (st', l) := EnsureConfig(st, read, fromEnv);
        if l.None? then (st', Failed)
        else if l.value.config.vault.None? || ConfiguredEngines(live) == [] then (st', EngineList([]))
        else
          (match ParseEngines(ConfiguredEngines(live), l.value.config.vault.value, connects)
           case Err(_) => (st', Failed)
           case Ok(all) =>
             (st'.(cache := st'.cache.(engineBackends := Some(Engines(all, l.value, live, 0)))),
              EngineList(FilterEnginesByLabels(all, labels))))
    case HasMultiEngineConfig(live) => (st, Flag(ConfiguredEngines(live) != []))
    case InvalidateCache(closes, failingEngine) =>
      if st.cache.backend.Some? && !closes then (st, Failed)
      else
        var st' := WithoutBackend(st);
        if EngineCloseFails(st', failingEngine) then (MarkClosed(st', failingEngine.value), Failed)
        else (st'.(cache := Cache(None, None, None, None), invalidatedAt := st'.loads), Done)
    case Close(closes) =>
      if st.cache.backend.Some? && !closes then (st, Failed) else (WithoutBackend(st), Done)
  }

  function Replay(ops: seq<Op>, fromEnv: Result<Config>): State {
    if ops == [] then FRESH else Apply(Replay(ops[..|ops| - 1], fromEnv), ops[|ops| - 1], fromEnv).0
  }

  // ---------------------------------------------------------------- what these functions mean

  /** What is loaded from the resource: its own values, with the documented defaults for those left empty;
      a read that fails in any way gives the environment's configuration. */
  lemma ConfigFromResource(cr: SecretBackendConfig, fromEnv: Result<Config>)
    ensures Load(NotFound, fromEnv) == fromEnv == Load(ReadFailed, fromEnv)
    ensures Load(Found(cr), fromEnv).Ok?
    ensures var c := Load(Found(cr), fromEnv).value;
            && c.backend == cr.backend && c.syncLabel == cr.syncLabel
            && c.regionLabelKey == (if cr.regionLabelKey == "" then "region" else cr.regionLabelKey)
            && (cr.pathTemplate == Blank ==>
                  c.pathTemplate ==
                  Parses([Lit("bmc/"), Var(Region), Lit("/"), Var(Hostname), Lit("/"), Var(Username)]))
            && (cr.pathTemplate != Blank ==> c.pathTemplate == cr.pathTemplate)
            && (c.vault.Some? <==> cr.vaultConfig.Some?)
            && (Creatable(c) <==> cr.backend == "vault" && cr.vaultConfig.Some?)
  {
  }

  lemma VaultConfigFromResource(cr: SecretBackendConfig, v: VaultSpec, fromEnv: Result<Config>)
    requires cr.vaultConfig == Some(v)
    ensures Load(Found(cr), fromEnv).Ok? && Load(Found(cr), fromEnv).value.vault.Some?
    ensures var c := Load(Found(cr), fromEnv).value.vault.value;
            && c.address == v.address && c.token == ""
            && c.authMethod == (if v.authMethod == "" then "kubernetes" else v.authMethod)
            && c.mountPath == (if v.mountPath == "" then "secret" else v.mountPath)
            && (v.kubernetesAuth.None? ==> c.kubernetesAuthRole == "" == c.kubernetesAuthPath)
            && (v.kubernetesAuth.Some? ==>
                  && c.kubernetesAuthRole == v.kubernetesAuth.value.role
                  && c.kubernetesAuthPath ==
                     (if v.kubernetesAuth.value.path == "" then "kubernetes" else v.kubernetesAuth.value.path))
            && (v.tls.None? ==> !c.skipVerify && c.caCert == "")
            && (v.tls.Some? ==> c.skipVerify == v.tls.value.skipVerify && c.caCert == v.tls.value.caCert)
  {
  }

  /** The two calls ask for the same thing, though not necessarily with the same labels. */
  predicate SameGetter(op: Op, op': Op) {
    || (op.GetBackend? && op'.GetBackend?) || (op.GetPathBuilder? && op'.GetPathBuilder?)
    || (op.GetRegionLabelKey? && op'.GetRegionLabelKey?) || (op.GetSyncLabel? && op'.GetSyncLabel?)
    || (op.GetEngineBackends? && op'.GetEngineBackends? && op.labels == op'.labels)
  }

  /** What has been answered once is cached: the same question again is answered from the cache, whatever
      the resource and the connections do by then, and changes nothing. Only an empty list of engines, for
      want of any, is not cached. */
  lemma AnsweredOnceIsCached(st: State, op: Op, op': Op, fromEnv: Result<Config>)
    requires SameGetter(op, op') && Apply(st, op, fromEnv).1 != Failed
    requires op.GetEngineBackends? ==> Apply(st, op, fromEnv).0.cache.engineBackends.Some?
    ensures Apply(Apply(st, op, fromEnv).0, op', fromEnv) == Apply(st, op, fromEnv)
  {
  }

  /** Handed out are exactly the engines of the list whose specification selects the labels, each built as
      configured. */
  ghost predicate HandsOut(e: Engines, labels: Labels, handed: seq<Engine>) {
    var list := ConfiguredEngines(e.live);
    && e.from.config.vault.Some? && |e.all| == |list|
    && (forall i :: 0 <= i < |list| ==> BuiltAs(e.all[i], list[i], e.from.config.vault.value))
    && (forall i :: 0 <= i < |list| && Documented(list[i].syncLabel, labels) ==> e.all[i] in handed)
    && (forall x :: x in handed ==>
          exists i :: 0 <= i < |list| && x == e.all[i] && Documented(list[i].syncLabel, labels))
  }

  /** What is handed out, from a new list or from the cache, in any reachable state. */
  lemma EnginesHandedOut(st: State, op: Op, fromEnv: Result<Config>)
    requires Valid(st) && op.GetEngineBackends? && Apply(st, op, fromEnv).0.cache.engineBackends.Some?
    requires Apply(st, op, fromEnv).1 != Failed
    ensures var (st', answer) := Apply(st, op, fromEnv);
            var e := st'.cache.engineBackends.value;
            && answer.EngineList? && HandsOut(e, op.labels, answer.engines)
            && (st.cache.engineBackends.None? ==> e.live == op.live)
            && (st.cache.engineBackends.Some? ==> e == st.cache.engineBackends.value)
  {
    ApplyKeepsValid(st, op, fromEnv);
    HandedOut(Apply(st, op, fromEnv).0.cache.engineBackends.value, op.labels);
  }

  lemma HandedOut(e: Engines, labels: Labels)
    requires EnginesBuilt(e)
    ensures HandsOut(e, labels, FilterEnginesByLabels(e.all, labels))
  {
    var list, handed := ConfiguredEngines(e.live), FilterEnginesByLabels(e.all, labels);
    forall i | 0 <= i < |list| ensures e.all[i].MatchesLabels(labels) <==> Documented(list[i].syncLabel, labels) {
      assert BuiltAs(e.all[i], list[i], e.from.config.vault.value);
      assert MatchesAsDocumented(e.all[i], list[i].syncLabel);
    }
    forall x | x in handed
      ensures exists i :: 0 <= i < |list| && x == e.all[i] && Documented(list[i].syncLabel, labels)
    {
      assert x in e.all && x.MatchesLabels(labels);
      var i :| 0 <= i < |e.all| && e.all[i] == x;
      assert Documented(list[i].syncLabel, labels);
    }
  }

  // ---------------------------------------------------------------- what every call keeps

  ghost predicate StampFits(st: State, l: Loaded) {
    st.invalidatedAt <= l.stamp < st.loads
  }

  /** A cached backend was built from exactly the cached configuration; any cached value implies a
      cached configuration, comes from a load after the last successful invalidation, and is what that
      configuration builds; each default backend created is closed or cached. */
  ghost predicate Valid(st: State) {
    && st.invalidatedAt <= st.loads
    && st.created == st.closed + (if st.cache.backend.Some? then 1 else 0)
    && (st.cache.backend.Some? ==> st.cache.backend == st.cache.config)
    && (st.cache.config.Some? ==> StampFits(st, st.cache.config.value))
    && (st.cache.pathBuilder.Some? ==>
          && st.cache.config.Some? && StampFits(st, st.cache.pathBuilder.value.from)
          && NewPathBuilder(st.cache.pathBuilder.value.from.config.pathTemplate) ==
            Ok(st.cache.pathBuilder.value.template))
    && (st.cache.engineBackends.Some? ==>
          && st.cache.config.Some? && StampFits(st, st.cache.engineBackends.value.from)
          && EnginesBuilt(st.cache.engineBackends.value))
  }

  /** The engines are those that the list in the resource, as it was read, and the configuration they
      stem from give; at least one of them is open. */
  ghost predicate EnginesBuilt(e: Engines) {
    && e.all != [] && e.closed < |e.all| && e.from.config.vault.Some?
    && ParseEngines(ConfiguredEngines(e.live), e.from.config.vault.value, ALWAYS) == Ok(e.all)
  }

  /** Engines that were all created are the same as if every engine connects. */
  lemma CreatedEngines(engines: seq<SecretEngineConfig>, base: VaultConfig, connects: nat -> bool)
    requires ParseEngines(engines, base, connects).Ok?
    ensures ParseEngines(engines, base, ALWAYS) == ParseEngines(engines, base, connects)
  {
    assert forall i :: 0 <= i < |engines| ==>
             EngineWorks(engines, connects, i) && EngineWorks(engines, ALWAYS, i);
  }

  lemma EnginesKeepValid(st: State, op: Op, fromEnv: Result<Config>)
    requires Valid(st) && op.GetEngineBackends?
    ensures Valid(Apply(st, op, fromEnv).0)
  {
    var l := EnsureConfig(st, op.read, fromEnv).1;
    if l.Some? && l.value.config.vault.Some? {
      var list, base := ConfiguredEngines(op.live), l.value.config.vault.value;
      if ParseEngines(list, base, op.engineConnects).Ok? {
        CreatedEngines(list, base, op.engineConnects);
      }
    }
  }

  lemma InvalidateKeepsValid(st: State, op: Op, fromEnv: Result<Config>)
    requires Valid(st) && op.InvalidateCache?
    ensures Valid(Apply(st, op, fromEnv).0)
  {
  }

  lemma ApplyKeepsValid(st: State, op: Op, fromEnv: Result<Config>)
    requires Valid(st)
    ensures Valid(Apply(st, op, fromEnv).0)
  {
    if op.GetEngineBackends? {
      EnginesKeepValid(st, op, fromEnv);
    } else if op.InvalidateCache? {
      InvalidateKeepsValid(st, op, fromEnv);
    }
  }

  /** The cached engines were listed by the read that one of the calls made. */
  ghost predicate EnginesListed(ops: seq<Op>, e: Engines) {
    exists i :: 0 <= i < |ops| && ops[i].GetEngineBackends? && ops[i].live == e.live
  }

  /** In every state reached by any calls, with any failures, the factory is valid, and its engines stem
      from a read that a call made for them. */
  lemma {:induction false} ReachableValid(ops: seq<Op>, fromEnv: Result<Config>)
    ensures Valid(Replay(ops, fromEnv))
    ensures Replay(ops, fromEnv).cache.engineBackends.Some? ==>
              EnginesListed(ops, Replay(ops, fromEnv).cache.engineBackends.value)
  {
    if ops != [] {
      var before, last := ops[..|ops| - 1], ops[|ops| - 1];
      ReachableValid(before, fromEnv);
      ApplyKeepsValid(Replay(before, fromEnv), last, fromEnv);
      var old_, new_ := Replay(before, fromEnv).cache.engineBackends, Replay(ops, fromEnv).cache.engineBackends;
      EnginesComeFrom(Replay(before, fromEnv), last, fromEnv);
      if new_.Some? && old_.Some? {
        var i :| 0 <= i < |before| && before[i].GetEngineBackends? && before[i].live == old_.value.live;
        assert ops[i] == before[i];
      }
    }
  }

  lemma EnginesComeFrom(st: State, op: Op, fromEnv: Result<Config>)
    ensures var engines := Apply(st, op, fromEnv).0.cache.engineBackends;
            engines.Some? ==>
              if st.cache.engineBackends.Some? then engines.value.live == st.cache.engineBackends.value.live
              else op.GetEngineBackends? && engines.value.live == op.live
  {
  }

  /** The cached path builder was built from the cached configuration. */
  ghost predicate BuilderCurrent(st: State) {
    st.cache.pathBuilder.Some? ==> st.cache.config == Some(st.cache.pathBuilder.value.from)
  }

  /** The call creates a default backend and takes the configuration it has just loaded over. */
  predicate Overwrites(st: State, op: Op, fromEnv: Result<Config>) {
    && op.GetBackend? && st.cache.backend.None? && op.connects
    && Load(op.read, fromEnv).Ok? && Creatable(Load(op.read, fromEnv).value)
  }

  /** The call invalidates the cache and nothing fails to close. */
  predicate Clears(st: State, op: Op) {
    op.InvalidateCache? && (st.cache.backend.Some? ==> op.closes) && !EngineCloseFails(st, op.failingEngine)
  }

  /** Exactly one kind of call makes the path builder older than the configuration: `GetBackend` that
      creates a backend while a path builder is cached. */
  lemma BuilderBecomesOld(st: State, op: Op, fromEnv: Result<Config>)
    requires Valid(st) && BuilderCurrent(st)
    ensures BuilderCurrent(Apply(st, op, fromEnv).0) <==> !(Overwrites(st, op, fromEnv) && st.cache.pathBuilder.Some?)
  {
  }

  /** The cached path builder was built from another template than the cached configuration has. */
  predicate TemplatesDiffer(st: State) {
    && st.cache.pathBuilder.Some? && st.cache.config.Some?
    && st.cache.config.value.config.pathTemplate != st.cache.pathBuilder.value.from.config.pathTemplate
  }

  /** The call creates a backend from a configuration whose template is not that of the path builder
      that is cached at that moment. */
  predicate Splits(st: State, op: Op, fromEnv: Result<Config>) {
    && Overwrites(st, op, fromEnv) && st.cache.pathBuilder.Some?
    && Load(op.read, fromEnv).value.pathTemplate != st.cache.pathBuilder.value.from.config.pathTemplate
  }

  lemma TemplatesDifferStep(st: State, op: Op, fromEnv: Result<Config>)
    requires Valid(st)
    ensures TemplatesDiffer(Apply(st, op, fromEnv).0) <==>
              if Overwrites(st, op, fromEnv) then Splits(st, op, fromEnv)
              else TemplatesDiffer(st) && !Clears(st, op)
  {
  }

  /** Call `j` leaves the cached configuration and the cached path builder apart if they are. */
  ghost predicate KeepsApart(ops: seq<Op>, j: nat, fromEnv: Result<Config>)
    requires j < |ops|
  {
    var st := Replay(ops[..j], fromEnv);
    !Overwrites(st, ops[j], fromEnv) && !Clears(st, ops[j])
  }

  /** Call `i` splits builder and configuration, and no later call replaces the configuration or clears
      the cache. */
  ghost predicate SplitsForGood(ops: seq<Op>, i: nat, fromEnv: Result<Config>)
    requires i < |ops|
  {
    Splits(Replay(ops[..i], fromEnv), ops[i], fromEnv) && forall j :: i < j < |ops| ==> KeepsApart(ops, j, fromEnv)
  }

  lemma SplitsForGoodStep(ops: seq<Op>, before: seq<Op>, i: nat, fromEnv: Result<Config>)
    requires |ops| == |before| + 1 && before == ops[..|before|] && i < |before|
    ensures SplitsForGood(ops, i, fromEnv) <==>
              SplitsForGood(before, i, fromEnv) && KeepsApart(ops, |before|, fromEnv)
  {
    forall j | 0 <= j < |before| ensures KeepsApart(before, j, fromEnv) <==> KeepsApart(ops, j, fromEnv) {
      KeepsApartBefore(ops, before, j, fromEnv);
    }
    assert before[..i] == ops[..i] && before[i] == ops[i];
  }

  lemma KeepsApartBefore(ops: seq<Op>, before: seq<Op>, j: nat, fromEnv: Result<Config>)
    requires before <= ops && j < |before|
    ensures KeepsApart(before, j, fromEnv) <==> KeepsApart(ops, j, fromEnv)
  {
    assert before[..j] == ops[..j] && before[j] == ops[j];
  }

  /** After any calls, with any failures, the cached path builder has another template than the cached
      configuration if and only if some call created a backend from a resource with another template than
      the builder cached then, and nothing after that created a backend or cleared the cache. */
  lemma {:induction false} TemplatesDifferIff(ops: seq<Op>, fromEnv: Result<Config>)
    ensures TemplatesDiffer(Replay(ops, fromEnv)) <==> exists i :: 0 <= i < |ops| && SplitsForGood(ops, i, fromEnv)
  {
    if ops != [] {
      var n := |ops| - 1;
      var before, st := ops[..n], Replay(ops[..n], fromEnv);
      TemplatesDifferIff(before, fromEnv);
      ReachableValid(before, fromEnv);
      TemplatesDifferStep(st, ops[n], fromEnv);
      forall i | 0 <= i < n
        ensures SplitsForGood(ops, i, fromEnv) <==> SplitsForGood(before, i, fromEnv) && KeepsApart(ops, n, fromEnv)
      {
        SplitsForGoodStep(ops, before, i, fromEnv);
      }
      assert SplitsForGood(ops, n, fromEnv) <==> Splits(st, ops[n], fromEnv);
    }
  }

  /** It does happen: the path builder is cached, the resource changes its template, and the backend is
      created from the new resource. */
  lemma BuilderMayBeOld(old_: SecretBackendConfig, new_: SecretBackendConfig, fromEnv: Result<Config>)
    requires Creatable(LoadConfigFromCRD(new_)) && NewPathBuilder(TemplateOrDefault(old_.pathTemplate)).Ok?
    requires TemplateOrDefault(old_.pathTemplate) != TemplateOrDefault(new_.pathTemplate)
    ensures var st := Replay([GetPathBuilder(Found(old_)), GetBackend(Found(new_), true)], fromEnv);
            && st.cache.config.Some? && st.cache.pathBuilder.Some?
            && st.cache.config.value.config.pathTemplate != st.cache.pathBuilder.value.from.config.pathTemplate
  {
    var ops := [GetPathBuilder(Found(old_)), GetBackend(Found(new_), true)];
    assert ops[..1] == [ops[0]] && ops[..1][..0] == [];
    assert Replay(ops[..1], fromEnv) == Apply(FRESH, ops[0], fromEnv).0;
  }

  // ---------------------------------------------------------------- engines that are closed and still cached

  /** The call invalidates the cache, closes engine `j` and then fails to close a later one. */
  predicate ClosesAndFails(st: State, op: Op, j: nat) {
    && op.InvalidateCache? && (st.cache.backend.Some? ==> op.closes)
    && EngineCloseFails(st, op.failingEngine) && j < op.failingEngine.value
  }

  predicate CachedClosed(st: State, j: nat) {
    st.cache.engineBackends.Some? && j < st.cache.engineBackends.value.closed
  }

  lemma CachedClosedStep(st: State, op: Op, j: nat, fromEnv: Result<Config>)
    ensures CachedClosed(Apply(st, op, fromEnv).0, j) <==>
              ClosesAndFails(st, op, j) || (CachedClosed(st, j) && !Clears(st, op))
  {
  }

  /** Call `i` closes engine `j` and fails later on, and no call after that clears the cache. */
  ghost predicate ClosedForGood(ops: seq<Op>, i: nat, j: nat, fromEnv: Result<Config>)
    requires i < |ops|
  {
    && ClosesAndFails(Replay(ops[..i], fromEnv), ops[i], j)
    && forall k :: i < k < |ops| ==> !ClearsAt(ops, k, fromEnv)
  }

  ghost predicate ClearsAt(ops: seq<Op>, k: nat, fromEnv: Result<Config>)
    requires k < |ops|
  {
    Clears(Replay(ops[..k], fromEnv), ops[k])
  }

  lemma ClosedForGoodStep(ops: seq<Op>, before: seq<Op>, i: nat, j: nat, fromEnv: Result<Config>)
    requires |ops| == |before| + 1 && before == ops[..|before|] && i < |before|
    ensures ClosedForGood(ops, i, j, fromEnv) <==>
              ClosedForGood(before, i, j, fromEnv) && !ClearsAt(ops, |before|, fromEnv)
  {
    forall k | 0 <= k < |before|
      ensures before[..k] == ops[..k] && (ClearsAt(before, k, fromEnv) <==> ClearsAt(ops, k, fromEnv))
    {
      assert before[..k] == ops[..k];
    }
  }

  /** After any calls, with any failures, engine `j` of the cached list is closed, and handed out none
      the less, if and only if some invalidation closed it, failed to close a later engine, and was not
      followed by one that succeeded. */
  lemma {:induction false} CachedClosedIff(ops: seq<Op>, j: nat, fromEnv: Result<Config>)
    ensures CachedClosed(Replay(ops, fromEnv), j) <==>
              exists i :: 0 <= i < |ops| && ClosedForGood(ops, i, j, fromEnv)
  {
    if ops != [] {
      var n := |ops| - 1;
      var before := ops[..n];
      CachedClosedIff(before, j, fromEnv);
      CachedClosedStep(Replay(before, fromEnv), ops[n], j, fromEnv);
      forall i | 0 <= i < n
        ensures ClosedForGood(ops, i, j, fromEnv) <==>
                ClosedForGood(before, i, j, fromEnv) && !ClearsAt(ops, n, fromEnv)
      {
        ClosedForGoodStep(ops, before, i, j, fromEnv);
      }
      assert ClosedForGood(ops, n, j, fromEnv) <==> ClosesAndFails(Replay(before, fromEnv), ops[n], j);
    }
  }

  /** A call for engines hands a closed engine out exactly if one is cached that the labels match. */
  lemma ServesClosedIff(ops: seq<Op>, op: Op, fromEnv: Result<Config>)
    requires op.GetEngineBackends? && Replay(ops, fromEnv).cache.engineBackends.Some?
    ensures var st := Replay(ops, fromEnv);
            var e, answer := st.cache.engineBackends.value, Apply(st, op, fromEnv).1;
            && answer.EngineList?
            && forall j :: 0 <= j < |e.all| && CachedClosed(st, j) ==>
                 (e.all[j] in answer.engines <==> e.all[j].MatchesLabels(op.labels))
  {
  }

  function ReadOf(cr: Option<SecretBackendConfig>): Read {
    if cr.Some? then Found(cr.value) else NotFound
  }
}

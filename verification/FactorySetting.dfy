/** The factory behind a reconcile call: exactly when what its getters answer, while the resource stays
    the same, comes from one `Setting`, so that the theorems about settings apply to it. */
module FactorySetting {
  import opened Wrappers
  import opened PathBuilder
  import opened MultiEngine
  import opened FactoryCache
  import opened FactoryRefinement
  import O = Operator
  import OT = OperatorTheorems

  /** A store is named by what a client needs to reach it. Within one configuration the engines differ
      from the default backend, and from each other, in the mount path only. */
  type StoreId = VaultConfig

  const NOWHERE := VaultConfig("", "", "", "", "", "", false, "")

  /** What the current resource gives; where it gives nothing, the getter fails and any value will do. */
  function SettingOf(cr: Option<SecretBackendConfig>, fromEnv: Result<Config>): OT.Setting<StoreId> {
    var c := Load(ReadOf(cr), fromEnv);
    OT.Setting(
      if c.Ok? then c.value.syncLabel else "",
      ConfiguredEngines(ReadOf(cr)) != [],
      if c.Ok? && c.value.vault.Some? then c.value.vault.value else NOWHERE,
      if c.Ok? && NewPathBuilder(c.value.pathTemplate).Ok? then NewPathBuilder(c.value.pathTemplate).value else [],
      if AllEngines(cr, fromEnv).Ok? then AllEngines(cr, fromEnv).value else [],
      if c.Ok? then c.value.regionLabelKey else "")
  }

  // ---------------------------------------------------------------- an answer as the controller gets it

  function AsText(a: Answer): Result<string> {
    if a.Text? then Ok(a.s) else Err("failed to load configuration")
  }

  function AsFlag(a: Answer): Result<bool> {
    if a.Flag? then Ok(a.b) else Err("failed to check multi-engine configuration")
  }

  function AsBackend(a: Answer): Result<StoreId> {
    if a.BackendFrom? && a.config.vault.Some? then Ok(a.config.vault.value) else Err("failed to create backend")
  }

  function AsTemplate(a: Answer): Result<Template> {
    if a.BuilderOf? then Ok(a.template) else Err("failed to create path builder")
  }

  function AsEngines(a: Answer): Result<seq<Engine>> {
    if a.EngineList? then Ok(a.engines) else Err("failed to create engines")
  }

  // ---------------------------------------------------------------- when an answer leaves the setting

  /** The answer is that of the setting, or a failure. */
  ghost predicate Fits(op: Op, a: Answer, given: OT.Setting<StoreId>) {
    match op
    case GetBackend(_, _) => AsBackend(a).Ok? ==> AsBackend(a).value == given.backend
    case GetPathBuilder(_) => AsTemplate(a).Ok? ==> AsTemplate(a).value == given.pathBuilder
    case GetRegionLabelKey(_) => AsText(a).Ok? ==> AsText(a).value == given.key
    case GetSyncLabel(_) => AsText(a).Ok? ==> AsText(a).value == given.syncLabel
    case GetEngineBackends(_, _, _, labels) =>
      AsEngines(a).Ok? ==> AsEngines(a).value == FilterEnginesByLabels(given.engines, labels)
    case HasMultiEngineConfig(_) => AsFlag(a).Ok? ==> AsFlag(a).value == given.multi
    case InvalidateCache(_, _) => true
    case Close(_) => true
  }

  /** The call needs a configuration, cannot read the resource, and takes the environment's. */
  predicate FallsBack(st: State, op: Op, fromEnv: Result<Config>) {
    Loads(st, op) && op.read == ReadFailed && fromEnv.Ok?
  }

  /** What makes an answer leave the setting, told by what the call finds: it falls back on an environment
      that differs in what is asked; or, without falling back, it cannot read the list of engines although
      some engine in it matches; or the multi-engine check cannot read a resource that lists engines. */
  ghost predicate Leaves(
      st: State, op: Op, cr: Option<SecretBackendConfig>, fromEnv: Result<Config>)
  {
    var given := SettingOf(cr, fromEnv);
    match op
    case GetBackend(_, connects) =>
      && FallsBack(st, op, fromEnv) && connects && Creatable(fromEnv.value)
      && fromEnv.value.vault.value != given.backend
    case GetPathBuilder(_) =>
      && FallsBack(st, op, fromEnv) && NewPathBuilder(fromEnv.value.pathTemplate).Ok?
      && NewPathBuilder(fromEnv.value.pathTemplate).value != given.pathBuilder
    case GetRegionLabelKey(_) => FallsBack(st, op, fromEnv) && fromEnv.value.regionLabelKey != given.key
    case GetSyncLabel(_) => FallsBack(st, op, fromEnv) && fromEnv.value.syncLabel != given.syncLabel
    case GetEngineBackends(_, live, connects, labels) =>
      if FallsBack(st, op, fromEnv) then
        var r := EnginesOver(fromEnv.value, ConfiguredEngines(live), connects);
        r.Ok? && FilterEnginesByLabels(r.value, labels) != FilterEnginesByLabels(given.engines, labels)
      else
        Lists(st, op, fromEnv) && live == ReadFailed && FilterEnginesByLabels(given.engines, labels) != []
    case HasMultiEngineConfig(live) => live == ReadFailed && given.multi
    case InvalidateCache(_, _) => false
    case Close(_) => false
  }

  /** From a cache that agrees with the resource, whatever reads and connections fail, an answer leaves
      the setting exactly in these cases. */
  lemma LeavesIff(st: State, op: Op, cr: Option<SecretBackendConfig>, fromEnv: Result<Config>)
    requires Coherent(st, cr, fromEnv) && Sees(st, op, cr, fromEnv)
    ensures Fits(op, Apply(st, op, fromEnv).1, SettingOf(cr, fromEnv)) <==> !Leaves(st, op, cr, fromEnv)
  {
    if op.GetEngineBackends? {
      EnginesLeaveIff(st, op, cr, fromEnv);
    }
  }

  lemma EnginesLeaveIff(st: State, op: Op, cr: Option<SecretBackendConfig>, fromEnv: Result<Config>)
    requires Coherent(st, cr, fromEnv) && Sees(st, op, cr, fromEnv) && op.GetEngineBackends?
    ensures Fits(op, Apply(st, op, fromEnv).1, SettingOf(cr, fromEnv)) <==> !Leaves(st, op, cr, fromEnv)
  {
    var l := EnsureConfig(st, op.read, fromEnv).1;
    if l.Some? {
      EnginesOrFailure(l.value.config, ConfiguredEngines(op.live), op.engineConnects);
    }
  }

  // ---------------------------------------------------------------- the getters of one reconcile call

  /** A getter call, by its place in a sequence of calls and edits. */
  datatype Question = Question(op: Op, at: nat)

  /** One thing for each getter. */
  datatype PerGetter<T> = PerGetter(syncLabel: T, multi: T, backend: T, pathBuilder: T, regionLabelKey: T, engines: T) {
    function All(): (xs: seq<T>)
      ensures |xs| == 6
    {
      [syncLabel, multi, backend, pathBuilder, regionLabelKey, engines]
    }
  }

  /** What a reconcile call asked the factory; it need not ask everything. */
  type Asked = PerGetter<Option<Question>>

  /** The question stands in the sequence, and the resource is `cr` there. */
  ghost predicate Posed(
      cr0: Option<SecretBackendConfig>, acts: seq<Act>, fromEnv: Result<Config>, cr: Option<SecretBackendConfig>,
      q: Option<Question>)
  {
    q.Some? ==>
      && q.value.at < |acts| && acts[q.value.at] == Do(q.value.op) && Getter(q.value.op)
      && Play(cr0, acts[..q.value.at], fromEnv).cr == cr
  }

  /** Every question is of its kind, and the engines are asked for with the labels. */
  ghost predicate WellPosed(q: Asked, labels: Labels) {
    && (q.syncLabel.Some? ==> q.syncLabel.value.op.GetSyncLabel?)
    && (q.multi.Some? ==> q.multi.value.op.HasMultiEngineConfig?)
    && (q.backend.Some? ==> q.backend.value.op.GetBackend?)
    && (q.pathBuilder.Some? ==> q.pathBuilder.value.op.GetPathBuilder?)
    && (q.regionLabelKey.Some? ==> q.regionLabelKey.value.op.GetRegionLabelKey?)
    && (q.engines.Some? ==> q.engines.value.op.GetEngineBackends? && q.engines.value.op.labels == labels)
  }

  /** The state that the factory was in when it was asked. */
  ghost function StateAt(
      cr0: Option<SecretBackendConfig>, acts: seq<Act>, fromEnv: Result<Config>, at: nat): State
    requires at <= |acts|
  {
    Play(cr0, acts[..at], fromEnv).st
  }

  /** The answer of the factory; what was not asked counts as failed. */
  ghost function AnswerTo(
      cr0: Option<SecretBackendConfig>, acts: seq<Act>, fromEnv: Result<Config>, q: Option<Question>): Answer
  {
    if q.None? || q.value.at > |acts| then Failed
    else Apply(StateAt(cr0, acts, fromEnv, q.value.at), q.value.op, fromEnv).1
  }

  ghost predicate QuestionLeaves(
      cr0: Option<SecretBackendConfig>, acts: seq<Act>, fromEnv: Result<Config>, cr: Option<SecretBackendConfig>,
      q: Option<Question>)
  {
    q.Some? && q.value.at <= |acts| && Leaves(StateAt(cr0, acts, fromEnv, q.value.at), q.value.op, cr, fromEnv)
  }

  ghost predicate AnswerFits(q: Option<Question>, a: Answer, given: OT.Setting<StoreId>) {
    if q.None? then a == Failed else Fits(q.value.op, a, given)
  }

  lemma QuestionFits(
      cr0: Option<SecretBackendConfig>, acts: seq<Act>, fromEnv: Result<Config>, cr: Option<SecretBackendConfig>,
      q: Option<Question>)
    requires Disciplined(cr0, acts, fromEnv) && Posed(cr0, acts, fromEnv, cr, q)
    ensures AnswerFits(q, AnswerTo(cr0, acts, fromEnv, q), SettingOf(cr, fromEnv)) <==>
              !QuestionLeaves(cr0, acts, fromEnv, cr, q)
  {
    if q.Some? {
      PlayCoherent(cr0, acts, fromEnv, q.value.at);
      LeavesIff(StateAt(cr0, acts, fromEnv, q.value.at), q.value.op, cr, fromEnv);
    }
  }

  ghost function AnswersTo(
      cr0: Option<SecretBackendConfig>, acts: seq<Act>, fromEnv: Result<Config>, q: Asked): PerGetter<Answer>
  {
    PerGetter(
      AnswerTo(cr0, acts, fromEnv, q.syncLabel), AnswerTo(cr0, acts, fromEnv, q.multi),
      AnswerTo(cr0, acts, fromEnv, q.backend), AnswerTo(cr0, acts, fromEnv, q.pathBuilder),
      AnswerTo(cr0, acts, fromEnv, q.regionLabelKey), AnswerTo(cr0, acts, fromEnv, q.engines))
  }

  /** Both succeed with the same value, or both fail. */
  ghost predicate Same<T>(r: Result<T>, r': Result<T>) {
    r.Ok? == r'.Ok? && (r.Ok? ==> r.value == r'.value)
  }

  /** What the controller gets are these answers. */
  ghost predicate Passes(env: O.Env<StoreId>, a: PerGetter<Answer>) {
    && Same(env.syncLabel, AsText(a.syncLabel)) && Same(env.hasMultiEngine, AsFlag(a.multi))
    && Same(env.backend, AsBackend(a.backend)) && Same(env.pathBuilder, AsTemplate(a.pathBuilder))
    && Same(env.regionLabelKey, AsText(a.regionLabelKey)) && Same(env.engines, AsEngines(a.engines))
  }

  /** A disciplined sequence of calls, with failing reads and connections in it: what a reconcile call gets
      while the resource stays the same comes from the one setting that the resource gives, or fails,
      if and only if none of its questions leaves the setting. */
  lemma AnswersAreOneSetting(
      cr0: Option<SecretBackendConfig>, acts: seq<Act>, fromEnv: Result<Config>, cr: Option<SecretBackendConfig>,
      labels: Labels, q: Asked, env: O.Env<StoreId>)
    requires Disciplined(cr0, acts, fromEnv) && WellPosed(q, labels)
    requires forall k :: 0 <= k < 6 ==> Posed(cr0, acts, fromEnv, cr, q.All()[k])
    requires Passes(env, AnswersTo(cr0, acts, fromEnv, q))
    ensures OT.AnswersFrom(env, SettingOf(cr, fromEnv), labels) <==>
              forall k :: 0 <= k < 6 ==> !QuestionLeaves(cr0, acts, fromEnv, cr, q.All()[k])
  {
    var a, given := AnswersTo(cr0, acts, fromEnv, q), SettingOf(cr, fromEnv);
    forall k | 0 <= k < 6
      ensures FitsAt(q, a, given, k) <==> !QuestionLeaves(cr0, acts, fromEnv, cr, q.All()[k])
    {
      EachFits(cr0, acts, fromEnv, cr, q, k);
    }
    FitsIffFrom(env, q, a, labels, given);
  }

  /** If at most the multi-engine check leaves the setting, what a reconcile call gets comes from the
      setting routed as the check says, or fails; and conversely. */
  lemma OnlyTheCheckLeaves(
      cr0: Option<SecretBackendConfig>, acts: seq<Act>, fromEnv: Result<Config>, cr: Option<SecretBackendConfig>,
      labels: Labels, q: Asked, env: O.Env<StoreId>)
    requires Disciplined(cr0, acts, fromEnv) && WellPosed(q, labels)
    requires forall k :: 0 <= k < 6 ==> Posed(cr0, acts, fromEnv, cr, q.All()[k])
    requires Passes(env, AnswersTo(cr0, acts, fromEnv, q))
    ensures OT.AnswersFrom(env, OT.Routed(SettingOf(cr, fromEnv), env), labels) <==>
              forall k :: 0 <= k < 6 && k != 1 ==> !QuestionLeaves(cr0, acts, fromEnv, cr, q.All()[k])
    ensures QuestionLeaves(cr0, acts, fromEnv, cr, q.multi) <==> OT.Misrouted(SettingOf(cr, fromEnv), env)
  {
    var a, given := AnswersTo(cr0, acts, fromEnv, q), SettingOf(cr, fromEnv);
    var routed := OT.Routed(given, env);
    forall k | 0 <= k < 6 && k != 1
      ensures FitsAt(q, a, routed, k) <==> !QuestionLeaves(cr0, acts, fromEnv, cr, q.All()[k])
    {
      EachFits(cr0, acts, fromEnv, cr, q, k);
      OtherKindFits(q, a, labels, given, env, k);
    }
    assert Posed(cr0, acts, fromEnv, cr, q.All()[1]);
    CheckFits(cr0, acts, fromEnv, cr, q.multi, env);
    assert FitsAt(q, a, routed, 1);
    FitsIffFrom(env, q, a, labels, routed);
  }

  lemma CheckFits(
      cr0: Option<SecretBackendConfig>, acts: seq<Act>, fromEnv: Result<Config>, cr: Option<SecretBackendConfig>,
      q: Option<Question>, env: O.Env<StoreId>)
    requires Disciplined(cr0, acts, fromEnv) && Posed(cr0, acts, fromEnv, cr, q)
    requires q.Some? ==> q.value.op.HasMultiEngineConfig?
    requires Same(env.hasMultiEngine, AsFlag(AnswerTo(cr0, acts, fromEnv, q)))
    ensures AnswerFits(q, AnswerTo(cr0, acts, fromEnv, q), OT.Routed(SettingOf(cr, fromEnv), env))
    ensures QuestionLeaves(cr0, acts, fromEnv, cr, q) <==> OT.Misrouted(SettingOf(cr, fromEnv), env)
  {
  }

  lemma OtherKindFits(
      q: Asked, a: PerGetter<Answer>, labels: Labels, given: OT.Setting<StoreId>, env: O.Env<StoreId>, k: nat)
    requires WellPosed(q, labels) && k < 6 && k != 1
    ensures FitsAt(q, a, OT.Routed(given, env), k) <==> FitsAt(q, a, given, k)
  {
    var x := q.All()[k];
    assert x.Some? ==> !x.value.op.HasMultiEngineConfig?;
  }

  ghost predicate FitsAt(q: Asked, a: PerGetter<Answer>, given: OT.Setting<StoreId>, k: nat)
    requires k < 6
  {
    AnswerFits(q.All()[k], a.All()[k], given)
  }

  lemma EachFits(
      cr0: Option<SecretBackendConfig>, acts: seq<Act>, fromEnv: Result<Config>, cr: Option<SecretBackendConfig>,
      q: Asked, k: nat)
    requires Disciplined(cr0, acts, fromEnv) && k < 6 && Posed(cr0, acts, fromEnv, cr, q.All()[k])
    ensures FitsAt(q, AnswersTo(cr0, acts, fromEnv, q), SettingOf(cr, fromEnv), k) <==>
              !QuestionLeaves(cr0, acts, fromEnv, cr, q.All()[k])
  {
    AnswerIsAt(cr0, acts, fromEnv, q, k);
    QuestionFits(cr0, acts, fromEnv, cr, q.All()[k]);
  }

  lemma AnswerIsAt(
      cr0: Option<SecretBackendConfig>, acts: seq<Act>, fromEnv: Result<Config>, q: Asked, k: nat)
    requires k < 6
    ensures AnswersTo(cr0, acts, fromEnv, q).All()[k] == AnswerTo(cr0, acts, fromEnv, q.All()[k])
  {
  }

  /** What was not asked counts as failed. */
  ghost predicate Unasked(q: Asked, a: PerGetter<Answer>) {
    && (q.syncLabel.None? ==> a.syncLabel == Failed) && (q.multi.None? ==> a.multi == Failed)
    && (q.backend.None? ==> a.backend == Failed) && (q.pathBuilder.None? ==> a.pathBuilder == Failed)
    && (q.regionLabelKey.None? ==> a.regionLabelKey == Failed) && (q.engines.None? ==> a.engines == Failed)
  }

  ghost predicate TextsFit(q: Asked, a: PerGetter<Answer>, given: OT.Setting<StoreId>) {
    && AnswerFits(q.syncLabel, a.syncLabel, given) && AnswerFits(q.multi, a.multi, given)
    && AnswerFits(q.regionLabelKey, a.regionLabelKey, given)
  }

  ghost predicate ClientsFit(q: Asked, a: PerGetter<Answer>, given: OT.Setting<StoreId>) {
    && AnswerFits(q.backend, a.backend, given) && AnswerFits(q.pathBuilder, a.pathBuilder, given)
    && AnswerFits(q.engines, a.engines, given)
  }

  lemma FittingTexts(env: O.Env<StoreId>, q: Asked, a: PerGetter<Answer>, labels: Labels, given: OT.Setting<StoreId>)
    requires Passes(env, a) && WellPosed(q, labels) && Unasked(q, a)
    ensures TextsFit(q, a, given) <==>
              && (env.syncLabel.Ok? ==> env.syncLabel.value == given.syncLabel)
              && (env.hasMultiEngine.Ok? ==> env.hasMultiEngine.value == given.multi)
              && (env.regionLabelKey.Ok? ==> env.regionLabelKey.value == given.key)
  {
    FittingText(env.syncLabel, q.syncLabel, a.syncLabel, given);
    FittingText(env.regionLabelKey, q.regionLabelKey, a.regionLabelKey, given);
    FittingFlag(env.hasMultiEngine, q.multi, a.multi, given);
  }

  lemma FittingText(r: Result<string>, q: Option<Question>, a: Answer, given: OT.Setting<StoreId>)
    requires Same(r, AsText(a)) && (q.None? ==> a == Failed)
    requires q.Some? ==> q.value.op.GetSyncLabel? || q.value.op.GetRegionLabelKey?
    ensures AnswerFits(q, a, given) <==>
              (r.Ok? ==> q.Some? && r.value == if q.value.op.GetSyncLabel? then given.syncLabel else given.key)
  {
  }

  lemma FittingFlag(r: Result<bool>, q: Option<Question>, a: Answer, given: OT.Setting<StoreId>)
    requires Same(r, AsFlag(a)) && (q.None? ==> a == Failed) && (q.Some? ==> q.value.op.HasMultiEngineConfig?)
    ensures AnswerFits(q, a, given) <==> (r.Ok? ==> r.value == given.multi)
  {
  }

  lemma FittingClients(env: O.Env<StoreId>, q: Asked, a: PerGetter<Answer>, labels: Labels, given: OT.Setting<StoreId>)
    requires Passes(env, a) && WellPosed(q, labels) && Unasked(q, a)
    ensures ClientsFit(q, a, given) <==>
              && (env.backend.Ok? ==> env.backend.value == given.backend)
              && (env.pathBuilder.Ok? ==> env.pathBuilder.value == given.pathBuilder)
              && (env.engines.Ok? ==> env.engines.value == FilterEnginesByLabels(given.engines, labels))
  {
  }

  lemma AllFitAt(q: Asked, a: PerGetter<Answer>, given: OT.Setting<StoreId>)
    ensures TextsFit(q, a, given) && ClientsFit(q, a, given) <==> forall k :: 0 <= k < 6 ==> FitsAt(q, a, given, k)
  {
    var qs, answers := q.All(), a.All();
    var fits := seq(6, k requires 0 <= k < 6 => AnswerFits(qs[k], answers[k], given));
    SixOf(fits);
    assert fits[0] == AnswerFits(q.syncLabel, a.syncLabel, given) && fits[1] == AnswerFits(q.multi, a.multi, given);
    assert forall k :: 0 <= k < 6 ==> fits[k] == FitsAt(q, a, given, k);
  }

  lemma SixOf(xs: seq<bool>)
    requires |xs| == 6
    ensures (forall k :: 0 <= k < 6 ==> xs[k]) <==> xs[0] && xs[1] && xs[2] && xs[3] && xs[4] && xs[5]
  {
  }

  lemma FitsIffFrom(env: O.Env<StoreId>, q: Asked, a: PerGetter<Answer>, labels: Labels, given: OT.Setting<StoreId>)
    requires Passes(env, a) && WellPosed(q, labels) && Unasked(q, a)
    ensures OT.AnswersFrom(env, given, labels) <==> forall k :: 0 <= k < 6 ==> FitsAt(q, a, given, k)
  {
    AllFitAt(q, a, given);
    FittingTexts(env, q, a, labels, given);
    FittingClients(env, q, a, labels, given);
  }

  /** The resource is complete: it, or the environment in its place, names a backend that can be created
      and templates that parse. */
  predicate Complete(cr: Option<SecretBackendConfig>, fromEnv: Result<Config>) {
    var c := Load(ReadOf(cr), fromEnv);
    c.Ok? && Creatable(c.value) && NewPathBuilder(c.value.pathTemplate).Ok? && AllEngines(cr, fromEnv).Ok?
  }

  predicate Succeeds(op: Op, a: Answer) {
    match op
    case GetBackend(_, _) => AsBackend(a).Ok?
    case GetPathBuilder(_) => AsTemplate(a).Ok?
    case GetRegionLabelKey(_) => AsText(a).Ok?
    case GetSyncLabel(_) => AsText(a).Ok?
    case GetEngineBackends(_, _, _, _) => AsEngines(a).Ok?
    case _ => AsFlag(a).Ok?
  }

  /** In a disciplined sequence, while the resource is complete, every getter succeeds whose own reads and
      connections work, whatever failed before. */
  lemma CompleteNeverFails(
      cr0: Option<SecretBackendConfig>, acts: seq<Act>, fromEnv: Result<Config>, cr: Option<SecretBackendConfig>,
      x: Question)
    requires Disciplined(cr0, acts, fromEnv) && Posed(cr0, acts, fromEnv, cr, Some(x)) && Complete(cr, fromEnv)
    requires ReadsWork(StateAt(cr0, acts, fromEnv, x.at), x.op, fromEnv) && Connects(x.op)
    ensures Succeeds(x.op, AnswerTo(cr0, acts, fromEnv, Some(x)))
  {
    CacheRefinesUncached(cr0, acts, fromEnv, x.at);
  }
}

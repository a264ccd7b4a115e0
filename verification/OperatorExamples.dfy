/** Concrete inputs at which the operator does less than one may expect of it. */
module OperatorExamples {
  import opened Wrappers
  import opened PathBuilder
  import opened MultiEngine
  import opened Resolver
  import opened SyncPass
  import opened Deletion
  import opened Operator
  import opened OperatorTheorems
  import T = SyncTheorems

  const TEMPLATE: Template := [Lit("bmc")]
  const ENGINE: EngineBackend<nat> := EngineBackend(1, "engine", TEMPLATE, "team", "team", "")
  const SERVER := BMC("server", None, "secret", None, None)
  const CREDS := Creds("admin", "new")
  const SECRET := BMCSecret(0, Some(map["team" := "a"]), map["username" := "admin", "password" := "new"], false, {})

  /** One labelled secret, one BMC that references it, and two empty stores. */
  const CLUSTER: World<nat> :=
    World(map["secret" := SECRET], [SERVER], map[0 := map[], 1 := map[]], map[], 1)

  /** The default backend is store 0; the only engine is on store 1. */
  const TWO_STORES: Setting<nat> := Setting("", true, 0, TEMPLATE, [ENGINE], "region")

  /** Every getter answers from the setting and nothing fails. */
  const CALM: Env<nat> := Env(
    None, Ok(""), None, None, Ok(true), Ok(0), Ok(TEMPLATE), Ok("region"),
    Ok(FilterEnginesByLabels([ENGINE], SECRET.labels)), (i: nat) => Answers(None, None, Accepted), ALL_FINE, 0,
    None, None, None, (i: nat) => Deleted)

  lemma CalmSetting()
    ensures Provides(CLUSTER.stores, TWO_STORES) && AnswersFrom(CALM, TWO_STORES, SECRET.labels)
    ensures FaultFree(CALM, true) && CleanupFaultFree(CALM)
    ensures Labelled(SECRET, "") && ExtractCredentials(SECRET.data) == Ok(CREDS)
  {
  }

  lemma EngineTarget()
    ensures (1, "bmc") in Spots(TargetsFor(TWO_STORES, SECRET, BMCsOf(CLUSTER.bmcs, "secret"), "admin"))
  {
    assert SERVER == CLUSTER.bmcs[0] && SERVER.secretRef == "secret";
    FilterOne(ENGINE, SECRET.labels);
    assert ENGINE.MatchesLabels(SECRET.labels);
    EngineOnBMC(CLUSTER, "secret", FilterEnginesByLabels([ENGINE], SECRET.labels), ENGINE, SERVER, "region", "admin");
  }

  /** After a sync, a deletion request and a cleanup the secret is gone, and the spot still holds its
      password. */
  ghost predicate LeavesBehind<S>(w: World<S>, name: string, env: Env<S>, x: Spot<S>, password: string) {
    && Available(w, env) && name in Reconcile(w, name, env).world.secrets
    && var w2 := DeleteRequested(Reconcile(w, name, env).world, name);
       && Available(w2, env)
       && var w3 := Reconcile(w2, name, env).world;
          name !in w3.secrets && Right(w3.stores, x, password)
  }

  lemma EngineTargetLeftBehind<S>(w: World<S>, st: Setting<S>, name: string, c: Creds, env: Env<S>, x: Spot<S>)
    requires Provides(w.stores, st) && st.multi && name in w.secrets && !w.secrets[name].deleting
    requires w.secrets[name].finalizers == {} && AnswersFrom(env, st, w.secrets[name].labels)
    requires Labelled(w.secrets[name], st.syncLabel) && ExtractCredentials(w.secrets[name].data) == Ok(c)
    requires FaultFree(env, true) && CleanupFaultFree(env)
    requires x in Spots(TargetsFor(st, w.secrets[name], BMCsOf(w.bmcs, name), c.username)) && x.0 != st.backend
    ensures LeavesBehind(w, name, env, x, c.password)
  {
    MultiEngineLeftovers(w, st, name, c, env, env, x);
    CallIsPass(w, st, name, c, env);
    var w2 := DeleteRequested(Reconcile(w, name, env).world, name);
    assert w2.secrets[name].finalizers == {FINALIZER};
    ReleasedIsGone(w2, st, name, env);
  }

  /** A secret without other finalizers disappears in a fault-free cleanup. */
  lemma ReleasedIsGone<S>(w: World<S>, st: Setting<S>, name: string, env: Env<S>)
    requires name in w.secrets && w.secrets[name].deleting && w.secrets[name].finalizers == {FINALIZER}
    requires Available(w, env) && AnswersFrom(env, st, w.secrets[name].labels) && CleanupFaultFree(env)
    requires Labelled(w.secrets[name], st.syncLabel)
    ensures name !in Reconcile(w, name, env).world.secrets
  {
  }

  /** Nothing fails, and yet the engine's store still holds the password of the deleted secret. */
  lemma EngineEntryLeftBehind()
    ensures LeavesBehind(CLUSTER, "secret", CALM, (1, "bmc"), "new")
  {
    CalmSetting();
    EngineTarget();
    EngineTargetLeftBehind(CLUSTER, TWO_STORES, "secret", CREDS, CALM, (1, "bmc"));
  }

  // ---------------------------------------------------------------- a multi-engine check that is wrong

  /** Every getter answers from the setting, except that the check, having failed to read the resource,
      answers false. */
  const UNSEEN: Env<nat> := CALM.(hasMultiEngine := Ok(false))

  predicate HasPasswordAt(store: Store, path: string, password: string) {
    path in store && HasPassword(store[path], password)
  }

  lemma TemplateText(v: PathVariables)
    ensures BuildPath(TEMPLATE, v) == Ok("bmc")
  {
    assert TEMPLATE[1..] == [];
    assert Text(TEMPLATE, v) == "bmc" + Text(TEMPLATE[1..], v) == "bmc" + "" == "bmc";
  }

  /** A fault-free pass over the default targets lands on the one path that the template builds, if the
      password is not there yet. */
  lemma DefaultPassLands<S>(
      stores: map<S, Store>, backend: S, bmcs: seq<BMC>, b: BMC, key: string, c: Creds, answers: nat -> Answers)
    requires backend in stores && b in bmcs && !HasPasswordAt(stores[backend], "bmc", c.password)
    requires forall i :: answers(i).FaultFree()
    ensures var ts := EngineTargets(DefaultEngine(backend, TEMPLATE), bmcs, key, c.username);
            Known(stores, ts) && T.LandsOn(stores, ts, c, answers, (backend, "bmc"))
  {
    var e := DefaultEngine(backend, TEMPLATE);
    var ts := EngineTargets(e, bmcs, key, c.username);
    EngineTargetAt(e, bmcs, key, c.username);
    var i :| 0 <= i < |bmcs| && bmcs[i] == b;
    TemplateText(VariablesOf(b, key, c.username));
    assert (backend, "bmc") in SpotOf(ts[i]);
    assert answers(i).FaultFree();
  }

  /** What a call writes to when the check answers false. */
  lemma DefaultCallTargets<S>(w: World<S>, name: string, c: Creds, env: Env<S>, backend: S, key: string)
    requires name in w.secrets && ExtractCredentials(w.secrets[name].data) == Ok(c)
    requires env.hasMultiEngine == Ok(false) && env.backend == Ok(backend)
    requires env.pathBuilder == Ok(TEMPLATE) && env.regionLabelKey == Ok(key)
    ensures CallTargets(w, name, env) ==
            EngineTargets(DefaultEngine(backend, TEMPLATE), BMCsOf(w.bmcs, name), key, c.username)
  {
    OneEngine(DefaultEngine(backend, TEMPLATE), BMCsOf(w.bmcs, name), key, c.username);
  }

  /** The call puts the password at a path of a store on which no engine is that the secret selects,
      although every getter but the check answers from the setting. */
  ghost predicate LeavesEngines<S>(
      w: World<S>, st: Setting<S>, name: string, env: Env<S>, x: Spot<S>, password: string)
  {
    && name in w.secrets && Available(w, env) && x.0 in w.stores
    && AnswersFrom(env, Routed(st, env), w.secrets[name].labels)
    && (forall e :: e in EnginesFor(st, w.secrets[name].labels) ==> e.backend != x.0)
    && x.0 in Reconcile(w, name, env).world.stores
    && Changed(w.stores, Reconcile(w, name, env).world.stores, x)
    && Right(Reconcile(w, name, env).world.stores, x, password)
  }

  /** One failed read of the resource: the password ends up in the default store, where no engine that
      the secret selects is. */
  lemma FailedCheckWritesDefault()
    ensures LeavesEngines(CLUSTER, TWO_STORES, "secret", UNSEEN, (0, "bmc"), "new")
  {
    CalmSetting();
    assert SERVER == CLUSTER.bmcs[0] && SERVER.secretRef == "secret";
    DefaultPathChanges(CLUSTER, TWO_STORES, "secret", CREDS, UNSEEN, SERVER);
  }

  lemma DefaultPathChanges<S>(w: World<S>, st: Setting<S>, name: string, c: Creds, env: Env<S>, b: BMC)
    requires Provides(w.stores, st) && name in w.secrets && !w.secrets[name].deleting
    requires ExtractCredentials(w.secrets[name].data) == Ok(c) && b in w.bmcs && b.secretRef == name
    requires st.multi && env.hasMultiEngine == Ok(false) && st.pathBuilder == TEMPLATE
    requires AnswersFrom(env, Routed(st, env), w.secrets[name].labels) && FaultFree(env, false)
    requires Labelled(w.secrets[name], st.syncLabel) && !HasPasswordAt(w.stores[st.backend], "bmc", c.password)
    requires forall e :: e in EnginesFor(st, w.secrets[name].labels) ==> e.backend != st.backend
    ensures LeavesEngines(w, st, name, env, (st.backend, "bmc"), c.password)
  {
    SettingAvailable(w, Routed(st, env), env, w.secrets[name].labels);
    DefaultCallLands(w, st, name, c, env, b);
    CallChangesIff(w, name, c, env, (st.backend, "bmc"));
  }

  lemma DefaultCallLands<S>(w: World<S>, st: Setting<S>, name: string, c: Creds, env: Env<S>, b: BMC)
    requires Provides(w.stores, st) && name in w.secrets && !w.secrets[name].deleting
    requires ExtractCredentials(w.secrets[name].data) == Ok(c) && b in w.bmcs && b.secretRef == name
    requires st.multi && env.hasMultiEngine == Ok(false) && st.pathBuilder == TEMPLATE
    requires AnswersFrom(env, Routed(st, env), w.secrets[name].labels) && FaultFree(env, false)
    requires Labelled(w.secrets[name], st.syncLabel) && !HasPasswordAt(w.stores[st.backend], "bmc", c.password)
    ensures Reaches(w, name, env) && Known(w.stores, CallTargets(w, name, env))
    ensures T.LandsOn(w.stores, CallTargets(w, name, env), c, env.answers, (st.backend, "bmc"))
  {
    DefaultPassLands(w.stores, st.backend, BMCsOf(w.bmcs, name), b, st.key, c, env.answers);
    DefaultCallTargets(w, name, c, env, st.backend, st.key);
    FaultFreeReaches(w, Routed(st, env), name, c, env);
  }

  lemma DefaultPathSpoilt<S>(
      w: World<S>, st: Setting<S>, name: string, c: Creds, env: Env<S>, b: BMC, password: string)
    requires Provides(w.stores, st) && name in w.secrets && !w.secrets[name].deleting
    requires ExtractCredentials(w.secrets[name].data) == Ok(c) && b in w.bmcs && b.secretRef == name
    requires st.multi && env.hasMultiEngine == Ok(false) && st.pathBuilder == TEMPLATE
    requires AnswersFrom(env, Routed(st, env), w.secrets[name].labels) && FaultFree(env, false)
    requires Labelled(w.secrets[name], st.syncLabel) && c.password != password
    requires Right(w.stores, (st.backend, "bmc"), password)
    ensures Available(w, env) && !Right(Reconcile(w, name, env).world.stores, (st.backend, "bmc"), password)
  {
    SettingAvailable(w, Routed(st, env), env, w.secrets[name].labels);
    DefaultCallLands(w, st, name, c, env, b);
    CallSpoilsIff(w, name, c, env, (st.backend, "bmc"), password);
  }

  const OTHER := BMCSecret(1, Some(map["team" := "b"]), map["username" := "root", "password" := "other"], false, {})
  const OTHER_SERVER := BMC("other", None, "other", None, None)
  const SHARED: EngineBackend<nat> := EngineBackend(0, "engine", TEMPLATE, "team=a", "team", "a")

  /** Two secrets: the first selects the engine, which is on the default store and holds its record; the
      second selects none. */
  const TWO_SECRETS: World<nat> := World(
    map["secret" := SECRET, "other" := OTHER], [SERVER, OTHER_SERVER], map[0 := map["bmc" := SecretData(CREDS)]],
    map[], 2)
  const ONE_STORE: Setting<nat> := Setting("", true, 0, TEMPLATE, [SHARED], "region")
  const UNSEEN_BY_OTHER: Env<nat> := UNSEEN.(engines := Ok(FilterEnginesByLabels([SHARED], OTHER.labels)))
  const NAMES := ["secret", "other"]
  const BOTH := [CREDS, Creds("root", "other")]

  lemma TwoSecretsSteady()
    ensures Steady(TWO_SECRETS, ONE_STORE, NAMES, BOTH)
  {
    assert NAMES[0] == "secret" && NAMES[1] == "other";
  }

  lemma FilterOne<S>(e: EngineBackend<S>, labels: Labels)
    ensures e.MatchesLabels(labels) ==> e in FilterEnginesByLabels([e], labels)
    ensures !e.MatchesLabels(labels) ==> FilterEnginesByLabels([e], labels) == []
  {
    assert [e][0] == e;
    var engines := FilterEnginesByLabels([e], labels);
    assert engines == [] || engines[0] in engines;
  }

  lemma OtherSelectsNone()
    ensures Steady(TWO_SECRETS, ONE_STORE, NAMES, BOTH)
    ensures PlansFor(TWO_SECRETS, ONE_STORE, NAMES, BOTH)[1].targets == []
  {
    TwoSecretsSteady();
    FilterOne(SHARED, OTHER.labels);
    assert !SHARED.MatchesLabels(OTHER.labels);
    EmptyTargets(FilterEnginesByLabels([SHARED], OTHER.labels), BMCsOf(TWO_SECRETS.bmcs, "other"), "region", "root");
  }

  lemma SharedTarget()
    ensures Steady(TWO_SECRETS, ONE_STORE, NAMES, BOTH)
    ensures (0, "bmc") in Spots(PlansFor(TWO_SECRETS, ONE_STORE, NAMES, BOTH)[0].targets)
  {
    TwoSecretsSteady();
    assert SERVER == TWO_SECRETS.bmcs[0] && SERVER.secretRef == "secret";
    FilterOne(SHARED, SECRET.labels);
    assert SHARED.MatchesLabels(SECRET.labels);
    var engines := FilterEnginesByLabels([SHARED], SECRET.labels);
    EngineOnBMC(TWO_SECRETS, "secret", engines, SHARED, SERVER, "region", "admin");
  }

  lemma EngineOnBMC<S>(
      w: World<S>, name: string, engines: seq<EngineBackend<S>>, e: EngineBackend<S>, b: BMC, key: string,
      username: string)
    requires e in engines && b in w.bmcs && b.secretRef == name && e.pathBuilder == TEMPLATE
    ensures (e.backend, "bmc") in Spots(Targets(engines, BMCsOf(w.bmcs, name), key, username))
  {
    TemplateText(VariablesOf(b, key, username));
    assert (e.backend, "bmc") in SpotOf(TargetOf(e, b, key, username));
    assert b in BMCsOf(w.bmcs, name);
    T.BuildsIsSpot(engines, BMCsOf(w.bmcs, name), key, username, (e.backend, "bmc"));
  }

  lemma EmptyPlanIsCompatible<S>(plans: seq<T.Plan<S>>)
    requires |plans| == 2 && plans[1].targets == []
    ensures T.Compatible(plans)
  {
  }

  /** The secrets are compatible; a call for secret `k`, in which every getter but the check answers from
      the setting, spoils a right path of secret `j`. */
  ghost predicate SpoilsOther<S>(
      w: World<S>, st: Setting<S>, names: seq<string>, creds: seq<Creds>, k: nat, env: Env<S>, j: nat, x: Spot<S>)
  {
    && Steady(w, st, names, creds) && k < |names| && j < |names| && Available(w, env)
    && T.Compatible(PlansFor(w, st, names, creds)) && x in Spots(PlansFor(w, st, names, creds)[j].targets)
    && AnswersFrom(env, Routed(st, env), w.secrets[names[k]].labels)
    && Right(w.stores, x, creds[j].password)
    && !Right(Reconcile(w, names[k], env).world.stores, x, creds[j].password)
  }

  /** One failed read of the resource in a call for the second secret, and the path of the first holds the
      other password. */
  lemma FailedCheckSpoilsOther()
    ensures SpoilsOther(TWO_SECRETS, ONE_STORE, NAMES, BOTH, 1, UNSEEN_BY_OTHER, 0, (0, "bmc"))
  {
    OtherSelectsNone();
    SharedTarget();
    EmptyPlanIsCompatible(PlansFor(TWO_SECRETS, ONE_STORE, NAMES, BOTH));
    OtherIsSpoilt();
    RoutedUnseen();
  }

  lemma RoutedUnseen()
    ensures AnswersFrom(UNSEEN_BY_OTHER, Routed(ONE_STORE, UNSEEN_BY_OTHER), OTHER.labels)
  {
  }

  lemma OtherIsSpoilt()
    ensures Available(TWO_SECRETS, UNSEEN_BY_OTHER) && Right(TWO_SECRETS.stores, (0, "bmc"), "new")
    ensures !Right(Reconcile(TWO_SECRETS, "other", UNSEEN_BY_OTHER).world.stores, (0, "bmc"), "new")
  {
    assert TWO_SECRETS.bmcs[1] == OTHER_SERVER;
    RoutedUnseen();
    DefaultPathSpoilt(
      TWO_SECRETS, ONE_STORE, "other", Creds("root", "other"), UNSEEN_BY_OTHER, OTHER_SERVER, "new");
  }

  /** The store has the right password under another username. */
  const OLD_USER: map<nat, Store> :=
    map[0 := map["bmc" := map["username" := Str("root"), "password" := Str("new")]]]

  /** A fault-free pass for the username "admin" leaves the old username in place. */
  lemma OldUsernameStays()
    ensures var ts := [Target(0, Ok("bmc"), "server", VariablesOf(SERVER, "region", "admin"))];
            && Known(OLD_USER, ts)
            && var r := Pass(OLD_USER, ts, CREDS, 0, CALM.answers);
               && r.entries == [EntryOf(ts[0], 0, true)]
               && r.stores[0]["bmc"] == map["username" := Str("root"), "password" := Str("new")]
  {
    var ts := [Target(0, Ok("bmc"), "server", VariablesOf(SERVER, "region", "admin"))];
    assert ts[..0] == [];
    assert HasPassword(OLD_USER[0]["bmc"], "new");
  }
}

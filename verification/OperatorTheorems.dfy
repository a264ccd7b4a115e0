/** End-to-end guarantees of the operator: what sync followed by deletion leaves behind, and what any
    sequence of calls for several secrets converges to. */
module OperatorTheorems {
  import opened Wrappers
  import opened PathBuilder
  import opened MultiEngine
  import opened Resolver
  import opened SyncPass
  import opened SyncStatus
  import opened Deletion
  import opened Operator
  import opened OperatorRuns
  import T = SyncTheorems

  /** The part of the configuration that the factory answers from. */
  datatype Setting<S> = Setting(
    syncLabel: string, multi: bool, backend: S, pathBuilder: Template, engines: seq<EngineBackend<S>>, key: string)

  function EnginesFor<S>(st: Setting<S>, labels: Labels): seq<EngineBackend<S>> {
    if st.multi then FilterEnginesByLabels(st.engines, labels) else [DefaultEngine(st.backend, st.pathBuilder)]
  }

  ghost predicate Provides<S>(stores: map<S, Store>, st: Setting<S>) {
    st.backend in stores && forall i :: 0 <= i < |st.engines| ==> st.engines[i].backend in stores
  }

  /** Every getter that answers gives what the setting says; any of them may fail instead. */
  ghost predicate AnswersFrom<S>(env: Env<S>, st: Setting<S>, labels: Labels) {
    && (env.syncLabel.Ok? ==> env.syncLabel.value == st.syncLabel)
    && (env.hasMultiEngine.Ok? ==> env.hasMultiEngine.value == st.multi)
    && (env.backend.Ok? ==> env.backend.value == st.backend)
    && (env.pathBuilder.Ok? ==> env.pathBuilder.value == st.pathBuilder)
    && (env.regionLabelKey.Ok? ==> env.regionLabelKey.value == st.key)
    && (env.engines.Ok? ==> env.engines.value == FilterEnginesByLabels(st.engines, labels))
  }

  /** Nothing that a sync asks for fails; in each mode these are different getters. */
  ghost predicate FaultFree<S>(env: Env<S>, multi: bool) {
    && env.get.None? && env.syncLabel.Ok? && env.addFinalizer.None? && env.list.None? && env.hasMultiEngine.Ok?
    && env.regionLabelKey.Ok? && (if multi then env.engines.Ok? else env.backend.Ok? && env.pathBuilder.Ok?)
    && forall i :: env.answers(i).FaultFree()
  }

  /** Nothing that a cleanup asks for fails. */
  ghost predicate CleanupFaultFree<S>(env: Env<S>) {
    && env.get.None? && env.syncLabel.Ok? && env.backend.Ok? && env.pathBuilder.Ok? && env.regionLabelKey.Ok?
    && env.list.None? && env.removeFinalizer.None?
    && forall i :: env.deletions(i).Deleted?
  }

  lemma SettingAvailable<S>(w: World<S>, st: Setting<S>, env: Env<S>, labels: Labels)
    requires Provides(w.stores, st) && AnswersFrom(env, st, labels)
    ensures Available(w, env)
    ensures forall i :: 0 <= i < |EnginesFor(st, labels)| ==> EnginesFor(st, labels)[i].backend in w.stores
  {
  }

  function TargetsFor<S>(st: Setting<S>, s: BMCSecret, bmcs: seq<BMC>, username: string): seq<Target<S>> {
    Targets(EnginesFor(st, s.labels), bmcs, st.key, username)
  }

  /** The world in which the sync part of a call runs: the finalizer is in place. */
  function WithFinalizer<S>(w: World<S>, name: string): World<S>
    requires name in w.secrets
  {
    w.(secrets := w.secrets[name := w.secrets[name].(finalizers := w.secrets[name].finalizers + {FINALIZER})])
  }

  /** A call for a secret that is not being deleted does nothing or syncs with the finalizer in place;
      a fault-free call for a labelled secret syncs. */
  lemma CallSyncs<S>(w: World<S>, st: Setting<S>, name: string, env: Env<S>)
    requires name in w.secrets && !w.secrets[name].deleting && Available(w, env)
    requires AnswersFrom(env, st, w.secrets[name].labels)
    ensures var r := Reconcile(w, name, env);
            && (r.world == w || r.world == Sync(WithFinalizer(w, name), name, env).world)
            && (FaultFree(env, st.multi) && Labelled(w.secrets[name], st.syncLabel) ==>
                  r.world == Sync(WithFinalizer(w, name), name, env).world)
  {
    var s := w.secrets[name];
    if FINALIZER in s.finalizers {
      assert s.(finalizers := s.finalizers + {FINALIZER}) == s;
      assert w.secrets[name := s] == w.secrets;
      assert WithFinalizer(w, name) == w;
    }
  }

  // ---------------------------------------------------------------- what one call changes

  /** What a call writes to, by what it is answered: nothing unless every getter on the way answers. */
  function CallTargets<S>(w: World<S>, name: string, env: Env<S>): seq<Target<S>>
    requires name in w.secrets
  {
    var c := ExtractCredentials(w.secrets[name].data);
    if c.Err? || env.hasMultiEngine.Err? then []
    else
      match Destination(env, env.hasMultiEngine.value)
      case Err(_) => []
      case Ok((engines, key)) => Targets(engines, BMCsOf(w.bmcs, name), key, c.value.username)
  }

  /** The call gets as far as its targets. */
  predicate Reaches<S>(w: World<S>, name: string, env: Env<S>)
    requires name in w.secrets
  {
    var s := w.secrets[name];
    && env.get.None? && env.syncLabel.Ok? && Labelled(s, env.syncLabel.value) && !s.deleting
    && (FINALIZER in s.finalizers || env.addFinalizer.None?)
    && env.list.None? && ExtractCredentials(s.data).Ok?
    && env.hasMultiEngine.Ok? && Destination(env, env.hasMultiEngine.value).Ok?
  }

  lemma CallTargetsKnown<S>(w: World<S>, name: string, env: Env<S>)
    requires name in w.secrets && Available(w, env)
    ensures Known(w.stores, CallTargets(w, name, env))
  {
    var c := ExtractCredentials(w.secrets[name].data);
    if c.Ok? && env.hasMultiEngine.Ok? && Destination(env, env.hasMultiEngine.value).Ok? {
      var (engines, key) := Destination(env, env.hasMultiEngine.value).value;
      TargetStores(w.stores, engines, BMCsOf(w.bmcs, name), key, c.value.username);
    }
  }

  lemma SyncPasses<S>(w: World<S>, name: string, c: Creds, env: Env<S>)
    requires name in w.secrets && Available(w, env) && ExtractCredentials(w.secrets[name].data) == Ok(c)
    requires env.list.None? && env.hasMultiEngine.Ok? && Destination(env, env.hasMultiEngine.value).Ok?
    ensures Known(w.stores, CallTargets(w, name, env))
    ensures Sync(w, name, env).world.stores ==
            Pass(w.stores, CallTargets(w, name, env), c, env.now, env.answers).stores
  {
    CallTargetsKnown(w, name, env);
    var (engines, key) := Destination(env, env.hasMultiEngine.value).value;
    var bmcs := BMCsOf(w.bmcs, name);
    if engines == [] || bmcs == [] {
      EmptyTargets(engines, bmcs, key, c.username);
    } else {
      assert Sync(w, name, env) == SyncTo(w, name, engines, bmcs, key, c, env);
      SyncToPasses(w, name, engines, bmcs, key, c, env);
    }
  }

  lemma {:induction false} EmptyTargets<S>(
      engines: seq<EngineBackend<S>>, bmcs: seq<BMC>, key: string, username: string)
    ensures engines == [] || bmcs == [] ==> Targets(engines, bmcs, key, username) == []
  {
    TargetsLength(engines, bmcs, key, username);
  }

  lemma SyncToPasses<S>(
      w: World<S>, name: string, engines: seq<EngineBackend<S>>, bmcs: seq<BMC>, key: string, c: Creds, env: Env<S>)
    requires name in w.secrets && forall i :: 0 <= i < |engines| ==> engines[i].backend in w.stores
    ensures Known(w.stores, Targets(engines, bmcs, key, c.username))
    ensures SyncTo(w, name, engines, bmcs, key, c, env).world.stores ==
            Pass(w.stores, Targets(engines, bmcs, key, c.username), c, env.now, env.answers).stores
  {
    TargetStores(w.stores, engines, bmcs, key, c.username);
  }

  /** What a call for a secret that is not being deleted does, with any answers: the pass over its targets
      if it gets that far, and otherwise nothing to the stores. */
  lemma CallPasses<S>(w: World<S>, name: string, c: Creds, env: Env<S>)
    requires name in w.secrets && !w.secrets[name].deleting && Available(w, env)
    requires ExtractCredentials(w.secrets[name].data) == Ok(c)
    ensures Known(w.stores, CallTargets(w, name, env))
    ensures var r := Reconcile(w, name, env);
            && r.world.stores ==
               (if Reaches(w, name, env) then Pass(w.stores, CallTargets(w, name, env), c, env.now, env.answers).stores
                else w.stores)
            && r.world.bmcs == w.bmcs
            && (r.world.secrets == w.secrets || r.world.secrets == WithFinalizer(w, name).secrets)
            && (Reaches(w, name, env) ==> r.world.secrets == WithFinalizer(w, name).secrets)
  {
    CallTargetsKnown(w, name, env);
    FinalizedWorld(w, name, env);
    var f := Finalize(w, name, env);
    if f.outcome.err.None? {
      SyncWrites(f.world, name, env);
      CallTargetsStay(w, f.world, name, env);
      if Reaches(w, name, env) {
        SyncPasses(f.world, name, c, env);
      } else {
        UnreachedSync(f.world, name, env);
      }
    }
  }

  lemma FinalizedWorld<S>(w: World<S>, name: string, env: Env<S>)
    requires name in w.secrets && !w.secrets[name].deleting
    ensures var f := Finalize(w, name, env);
            && f.world == (if f.outcome.err.None? then WithFinalizer(w, name) else w)
            && (f.outcome.err.None? <==> FINALIZER in w.secrets[name].finalizers || env.addFinalizer.None?)
  {
    var s := w.secrets[name];
    if FINALIZER in s.finalizers {
      assert s.(finalizers := s.finalizers + {FINALIZER}) == s;
      assert w.secrets[name := s] == w.secrets;
    }
  }

  lemma CallTargetsStay<S>(w: World<S>, w': World<S>, name: string, env: Env<S>)
    requires name in w.secrets && name in w'.secrets && w'.secrets[name].data == w.secrets[name].data
    requires w'.bmcs == w.bmcs
    ensures CallTargets(w', name, env) == CallTargets(w, name, env)
  {
  }

  lemma UnreachedSync<S>(w: World<S>, name: string, env: Env<S>)
    requires name in w.secrets && Available(w, env)
    ensures env.list.Some? || ExtractCredentials(w.secrets[name].data).Err? || env.hasMultiEngine.Err?
            || Destination(env, env.hasMultiEngine.value).Err? ==>
              Sync(w, name, env).world.stores == w.stores
  {
  }

  /** Exactly when a call changes what a path of a store holds, with any answers: it gets to its targets,
      and a write lands there, judged by what the stores held before the call. */
  lemma CallChangesIff<S>(w: World<S>, name: string, c: Creds, env: Env<S>, x: Spot<S>)
    requires name in w.secrets && !w.secrets[name].deleting && Available(w, env) && x.0 in w.stores
    requires ExtractCredentials(w.secrets[name].data) == Ok(c)
    ensures Known(w.stores, CallTargets(w, name, env)) && x.0 in Reconcile(w, name, env).world.stores
    ensures Changed(w.stores, Reconcile(w, name, env).world.stores, x) <==>
              Reaches(w, name, env) && T.LandsOn(w.stores, CallTargets(w, name, env), c, env.answers, x)
    ensures Changed(w.stores, Reconcile(w, name, env).world.stores, x) ==>
              Right(Reconcile(w, name, env).world.stores, x, c.password)
  {
    CallPasses(w, name, c, env);
    T.PassChangesIff(w.stores, CallTargets(w, name, env), c, env.now, env.answers, x);
  }

  /** Exactly when a call spoils a path that is right for some other password: the same guards. */
  lemma CallSpoilsIff<S>(w: World<S>, name: string, c: Creds, env: Env<S>, x: Spot<S>, password: string)
    requires name in w.secrets && !w.secrets[name].deleting && Available(w, env) && Right(w.stores, x, password)
    requires ExtractCredentials(w.secrets[name].data) == Ok(c)
    ensures Known(w.stores, CallTargets(w, name, env))
    ensures !Right(Reconcile(w, name, env).world.stores, x, password) <==>
              Reaches(w, name, env) && T.LandsOn(w.stores, CallTargets(w, name, env), c, env.answers, x)
  {
    CallPasses(w, name, c, env);
    if Reaches(w, name, env) {
      T.PassSpoilsIff(w.stores, CallTargets(w, name, env), c, env.now, env.answers, x, password);
    }
  }

  // ---------------------------------------------------------------- a multi-engine check that is wrong

  /** The check answers false although the setting lists engines: what a failed read of the resource
      makes of it. */
  predicate Misrouted<S>(st: Setting<S>, env: Env<S>) {
    st.multi && env.hasMultiEngine == Ok(false)
  }

  /** The setting that a call acts on, when only the check may be wrong. */
  function Routed<S>(st: Setting<S>, env: Env<S>): Setting<S> {
    if Misrouted(st, env) then st.(multi := false) else st
  }

  /** What the call writes to, when every getter but the check answers from the setting or fails. */
  lemma RoutedTargets<S>(w: World<S>, st: Setting<S>, name: string, c: Creds, env: Env<S>)
    requires name in w.secrets && ExtractCredentials(w.secrets[name].data) == Ok(c)
    requires AnswersFrom(env, Routed(st, env), w.secrets[name].labels)
    ensures var ts := TargetsFor(Routed(st, env), w.secrets[name], BMCsOf(w.bmcs, name), c.username);
            && (CallTargets(w, name, env) == ts || CallTargets(w, name, env) == [])
            && (env.hasMultiEngine.Ok? && Destination(env, env.hasMultiEngine.value).Ok? ==>
                  CallTargets(w, name, env) == ts)
  {
    if env.hasMultiEngine.Ok? {
      DestinationFollows(Routed(st, env), w.secrets[name].labels, env);
    }
  }

  /** What a call for a secret that is not being deleted does to the stores: the pass over its
      targets, or nothing. A fault-free call does the pass. */
  lemma CallIsPass<S>(w: World<S>, st: Setting<S>, name: string, c: Creds, env: Env<S>)
    requires Provides(w.stores, st) && name in w.secrets && !w.secrets[name].deleting
    requires AnswersFrom(env, st, w.secrets[name].labels)
    requires ExtractCredentials(w.secrets[name].data) == Ok(c)
    ensures Available(w, env)
    ensures Known(w.stores, TargetsFor(st, w.secrets[name], BMCsOf(w.bmcs, name), c.username))
    ensures var s, r := w.secrets[name], Reconcile(w, name, env);
            var p := Pass(w.stores, TargetsFor(st, s, BMCsOf(w.bmcs, name), c.username), c, env.now, env.answers);
            && (r.world.stores == w.stores || r.world.stores == p.stores)
            && (FaultFree(env, st.multi) && Labelled(s, st.syncLabel) ==>
                  r.world.stores == p.stores && r.world.secrets == WithFinalizer(w, name).secrets)
            && r.world.bmcs == w.bmcs
            && (r.world.secrets == w.secrets || r.world.secrets == WithFinalizer(w, name).secrets)
  {
    var s, bmcs := w.secrets[name], BMCsOf(w.bmcs, name);
    SettingAvailable(w, st, env, s.labels);
    TargetStores(w.stores, EnginesFor(st, s.labels), bmcs, st.key, c.username);
    CallPasses(w, name, c, env);
    RoutedTargets(w, st, name, c, env);
    FaultFreeReaches(w, st, name, c, env);
  }

  lemma FaultFreeReaches<S>(w: World<S>, st: Setting<S>, name: string, c: Creds, env: Env<S>)
    requires name in w.secrets && !w.secrets[name].deleting && AnswersFrom(env, st, w.secrets[name].labels)
    requires ExtractCredentials(w.secrets[name].data) == Ok(c)
    ensures FaultFree(env, st.multi) && Labelled(w.secrets[name], st.syncLabel) ==> Reaches(w, name, env)
  {
  }

  /** A sync either ends early or syncs to the engines of the setting. */
  lemma SyncUnfolds<S>(w: World<S>, st: Setting<S>, name: string, c: Creds, env: Env<S>)
    requires Provides(w.stores, st) && name in w.secrets && Available(w, env)
    requires AnswersFrom(env, st, w.secrets[name].labels)
    requires ExtractCredentials(w.secrets[name].data) == Ok(c)
    ensures forall i :: 0 <= i < |EnginesFor(st, w.secrets[name].labels)| ==>
              EnginesFor(st, w.secrets[name].labels)[i].backend in w.stores
    ensures var engines, bmcs := EnginesFor(st, w.secrets[name].labels), BMCsOf(w.bmcs, name);
            var r := Sync(w, name, env);
            || (engines != [] && bmcs != [] && r == SyncTo(w, name, engines, bmcs, st.key, c, env))
            || (r.world == w && r.events == [] && (FaultFree(env, st.multi) ==> engines == [] || bmcs == []))
  {
    SettingAvailable(w, st, env, w.secrets[name].labels);
    if env.hasMultiEngine.Ok? {
      DestinationFollows(st, w.secrets[name].labels, env);
    }
  }

  lemma DestinationFollows<S>(st: Setting<S>, labels: Labels, env: Env<S>)
    requires AnswersFrom(env, st, labels)
    ensures Destination(env, st.multi).Ok? ==> Destination(env, st.multi).value == (EnginesFor(st, labels), st.key)
    ensures FaultFree(env, st.multi) ==> Destination(env, st.multi).Ok?
  {
  }

  /** Engine isolation, with its one exception: whatever fails, as long as every getter but the check
      answers from the setting or fails, if a call for a secret that is not being deleted changes what a
      path of a store holds, then an engine that the secret's labels select is on that store and builds that
      path for a BMC that references the secret; in single-engine mode, and if the check is wrong, it is the
      default backend. */
  lemma CallIsolation<S>(w: World<S>, st: Setting<S>, name: string, c: Creds, env: Env<S>, x: Spot<S>)
    requires Provides(w.stores, st) && name in w.secrets && !w.secrets[name].deleting && x.0 in w.stores
    requires AnswersFrom(env, Routed(st, env), w.secrets[name].labels)
    requires ExtractCredentials(w.secrets[name].data) == Ok(c)
    ensures Available(w, env) && x.0 in Reconcile(w, name, env).world.stores
    ensures Changed(w.stores, Reconcile(w, name, env).world.stores, x) ==>
              exists e, b ::
                && (if st.multi && !Misrouted(st, env) then e in st.engines && e.MatchesLabels(w.secrets[name].labels)
                    else e == DefaultEngine(st.backend, st.pathBuilder))
                && e.backend == x.0 && b in w.bmcs && b.secretRef == name
                && BuildPath(e.pathBuilder, VariablesOf(b, st.key, c.username)) == Ok(x.1)
  {
    var given, labels, bmcs := Routed(st, env), w.secrets[name].labels, BMCsOf(w.bmcs, name);
    SettingAvailable(w, given, env, labels);
    CallChangesIff(w, name, c, env, x);
    RoutedTargets(w, st, name, c, env);
    if Changed(w.stores, Reconcile(w, name, env).world.stores, x) {
      LandsInside(w.stores, CallTargets(w, name, env), c, env.answers, x);
      var e, b := BuiltBy(EnginesFor(given, labels), bmcs, st.key, c.username, x);
      assert b in w.bmcs && b.secretRef == name;
    }
  }

  lemma LandsInside<S>(
      stores: map<S, Store>, ts: seq<Target<S>>, c: Creds, answers: nat -> Answers, x: Spot<S>)
    requires Known(stores, ts) && T.LandsOn(stores, ts, c, answers, x)
    ensures x in Spots(ts)
  {
    var i :| 0 <= i < |ts| && x in SpotOf(ts[i]) && EndingOf(stores, ts[i], c, answers(i)).Lands();
    T.SpotOfMember(ts, i, x);
  }

  lemma BuiltBy<S>(engines: seq<EngineBackend<S>>, bmcs: seq<BMC>, key: string, username: string, x: Spot<S>)
    returns (e: EngineBackend<S>, b: BMC)
    requires x in Spots(Targets(engines, bmcs, key, username))
    ensures e in engines && b in bmcs && e.backend == x.0
    ensures BuildPath(e.pathBuilder, VariablesOf(b, key, username)) == Ok(x.1)
  {
    T.SpotsOfEngines(engines, bmcs, key, username, x);
    e, b :| e in engines && b in bmcs && x in SpotOf(TargetOf(e, b, key, username));
  }

  /** Exactly when a call changes a path outside those of the engines that the secret selects, as long as
      every getter but the check answers from the setting or fails: the check answers false although the
      setting lists engines, the call gets to its targets, and a write lands on the path, which is a default
      path of the secret. */
  lemma StrayChangeIff<S>(w: World<S>, st: Setting<S>, name: string, c: Creds, env: Env<S>, x: Spot<S>)
    requires Provides(w.stores, st) && name in w.secrets && !w.secrets[name].deleting && x.0 in w.stores
    requires AnswersFrom(env, Routed(st, env), w.secrets[name].labels)
    requires ExtractCredentials(w.secrets[name].data) == Ok(c)
    requires x !in Spots(TargetsFor(st, w.secrets[name], BMCsOf(w.bmcs, name), c.username))
    ensures Available(w, env) && x.0 in Reconcile(w, name, env).world.stores
    ensures Known(w.stores, DefaultTargets(w, st, name, c.username))
    ensures Changed(w.stores, Reconcile(w, name, env).world.stores, x) <==>
              && Misrouted(st, env) && Reaches(w, name, env)
              && T.LandsOn(w.stores, DefaultTargets(w, st, name, c.username), c, env.answers, x)
  {
    SettingAvailable(w, Routed(st, env), env, w.secrets[name].labels);
    OneEngineKnown(w, st, name, c);
    CallChangesIff(w, name, c, env, x);
    RoutedTargets(w, st, name, c, env);
    if T.LandsOn(w.stores, CallTargets(w, name, env), c, env.answers, x) {
      LandsInside(w.stores, CallTargets(w, name, env), c, env.answers, x);
    }
  }

  /** The targets of the secret in single-engine mode. */
  function DefaultTargets<S>(w: World<S>, st: Setting<S>, name: string, username: string): seq<Target<S>>
    requires name in w.secrets
  {
    TargetsFor(st.(multi := false), w.secrets[name], BMCsOf(w.bmcs, name), username)
  }

  lemma OneEngineKnown<S>(w: World<S>, st: Setting<S>, name: string, c: Creds)
    requires Provides(w.stores, st) && name in w.secrets
    ensures Known(w.stores, DefaultTargets(w, st, name, c.username))
  {
    var e := DefaultEngine(st.backend, st.pathBuilder);
    TargetStores(w.stores, [e], BMCsOf(w.bmcs, name), st.key, c.username);
  }

  /** Any secret that has the configured sync label with any value but the empty one, or any secret if no
      label is configured, is synced by a fault-free call: the finalizer is put in place, every target that
      is missing or has another password gets the record, and nothing else changes. */
  lemma LabelledIsSynced<S>(w: World<S>, st: Setting<S>, name: string, c: Creds, env: Env<S>)
    requires Provides(w.stores, st) && name in w.secrets && !w.secrets[name].deleting
    requires ExtractCredentials(w.secrets[name].data) == Ok(c)
    requires AnswersFrom(env, st, w.secrets[name].labels) && FaultFree(env, st.multi)
    requires var labels := w.secrets[name].labels;
             st.syncLabel == "" ||
             (labels.Some? && st.syncLabel in labels.value && labels.value[st.syncLabel] != "")
    ensures Available(w, env)
    ensures var r, ts := Reconcile(w, name, env), TargetsFor(st, w.secrets[name], BMCsOf(w.bmcs, name), c.username);
            && r.world.secrets ==
               w.secrets[name := w.secrets[name].(finalizers := w.secrets[name].finalizers + {FINALIZER})]
            && r.world.bmcs == w.bmcs
            && r.world.stores ==
               Put(w.stores, Wrong(w.stores, Spots(ts), c.password),
                   map["username" := Str(c.username), "password" := Str(c.password)])
            && forall x :: x in Spots(ts) ==> Right(r.world.stores, x, c.password)
  {
    CallIsPass(w, st, name, c, env);
    var ts := TargetsFor(st, w.secrets[name], BMCsOf(w.bmcs, name), c.username);
    T.ClosedForm(w.stores, ts, c, env.now, env.answers);
    T.WritesCountDown(w.stores, ts, c, env.now, env.answers);
    forall x | x in Spots(ts) ensures Right(Reconcile(w, name, env).world.stores, x, c.password) {
      assert x !in Wrong(Reconcile(w, name, env).world.stores, Spots(ts), c.password);
    }
  }

  /** Where the password of a secret is after a fault-free call in single-engine mode with the default
      template: for each BMC that references the secret, at the path made of the value of its region label,
      its hostname and the username. */
  lemma SyncedWhere<S>(
      w: World<S>, st: Setting<S>, name: string, c: Creds, env: Env<S>, b: BMC, region: string, host: string)
    requires Provides(w.stores, st) && name in w.secrets && !w.secrets[name].deleting
    requires ExtractCredentials(w.secrets[name].data) == Ok(c) && Labelled(w.secrets[name], st.syncLabel)
    requires AnswersFrom(env, st, w.secrets[name].labels) && FaultFree(env, st.multi)
    requires !st.multi && st.pathBuilder == DEFAULT_TEMPLATE && b in w.bmcs && b.secretRef == name
    requires b.labels.Some? && st.key in b.labels.value && b.labels.value[st.key] == region != ""
    requires b.hostname == Some(host) && host != ""
    ensures Available(w, env)
    ensures Right(Reconcile(w, name, env).world.stores,
                  (st.backend, "bmc/" + region + "/" + host + "/" + c.username), c.password)
  {
    var e, bmcs := DefaultEngine(st.backend, st.pathBuilder), BMCsOf(w.bmcs, name);
    LabelledIsSynced(w, st, name, c, env);
    T.DefaultTargetPath(e, b, st.key, c.username, region, host);
    BMCsOfSecret(w.bmcs, name, b);
    var x := (st.backend, "bmc/" + region + "/" + host + "/" + c.username);
    assert x in SpotOf(TargetOf(e, b, st.key, c.username)) && e in [e];
    T.BuildsIsSpot([e], bmcs, st.key, c.username, x);
  }

  // ---------------------------------------------------------------- sync, then delete

  function DeleteRequested<S>(w: World<S>, name: string): World<S>
    requires name in w.secrets
  {
    w.(secrets := ApiUpdate(w.secrets, name, w.secrets[name].(deleting := true)))
  }

  /** The paths that the default template builds for the BMCs of the secret. */
  ghost function DefaultPaths<S>(w: World<S>, st: Setting<S>, name: string, username: string): set<string> {
    Elements(BuildablePaths(DeletionTargets(st.backend, st.pathBuilder, BMCsOf(w.bmcs, name), st.key, username)))
  }

  /** Fault-free sync, deletion request, fault-free cleanup, in either mode: the stores are those of
      the sync with the default paths removed from the default store. */
  lemma SyncThenCleanup<S>(w: World<S>, st: Setting<S>, name: string, c: Creds, env: Env<S>, env': Env<S>)
    requires Provides(w.stores, st) && name in w.secrets && !w.secrets[name].deleting
    requires Labelled(w.secrets[name], st.syncLabel) && ExtractCredentials(w.secrets[name].data) == Ok(c)
    requires AnswersFrom(env, st, w.secrets[name].labels) && FaultFree(env, st.multi)
    requires AnswersFrom(env', st, w.secrets[name].labels) && CleanupFaultFree(env')
    ensures Available(w, env) && name in Reconcile(w, name, env).world.secrets
    ensures Known(w.stores, TargetsFor(st, w.secrets[name], BMCsOf(w.bmcs, name), c.username))
    ensures var w1 := Reconcile(w, name, env).world;
            var w2 := DeleteRequested(w1, name);
            && Available(w2, env')
            && var w3 := Reconcile(w2, name, env').world;
               var ts := TargetsFor(st, w.secrets[name], BMCsOf(w.bmcs, name), c.username);
               var synced := Pass(w.stores, ts, c, env.now, env.answers).stores;
               && w3.stores == synced[st.backend := synced[st.backend] - DefaultPaths(w, st, name, c.username)]
               && (name in w3.secrets ==> FINALIZER !in w3.secrets[name].finalizers)
  {
    CallIsPass(w, st, name, c, env);
    var w1 := Reconcile(w, name, env).world;
    var w2 := DeleteRequested(w1, name);
    SettingAvailable(w2, st, env', w.secrets[name].labels);
    assert w2.secrets[name] == w.secrets[name].(finalizers := w2.secrets[name].finalizers, deleting := true);
    var ts := DeletionTargets(st.backend, st.pathBuilder, BMCsOf(w.bmcs, name), st.key, c.username);
    FaultFreeCleanup(w2.stores[st.backend], ts, env'.deletions);
  }

  /** Round trip in single-engine mode: sync followed by deletion leaves exactly the original stores
      minus the target paths. */
  lemma RoundTrip<S>(w: World<S>, st: Setting<S>, name: string, c: Creds, env: Env<S>, env': Env<S>)
    requires Provides(w.stores, st) && !st.multi && name in w.secrets && !w.secrets[name].deleting
    requires Labelled(w.secrets[name], st.syncLabel) && ExtractCredentials(w.secrets[name].data) == Ok(c)
    requires AnswersFrom(env, st, w.secrets[name].labels) && FaultFree(env, st.multi)
    requires AnswersFrom(env', st, w.secrets[name].labels) && CleanupFaultFree(env')
    ensures Available(w, env) && name in Reconcile(w, name, env).world.secrets
    ensures var w2 := DeleteRequested(Reconcile(w, name, env).world, name);
            && Available(w2, env')
            && Reconcile(w2, name, env').world.stores ==
               w.stores[st.backend := w.stores[st.backend] - DefaultPaths(w, st, name, c.username)]
  {
    SyncThenCleanup(w, st, name, c, env, env');
    var bmcs := BMCsOf(w.bmcs, name);
    var e := DefaultEngine(st.backend, st.pathBuilder);
    var ts := EngineTargets(e, bmcs, st.key, c.username);
    assert [e][..0] == [];
    assert Targets([e], bmcs, st.key, c.username) == [] + ts == ts;
    T.ClosedForm(w.stores, ts, c, env.now, env.answers);
    var xs := Wrong(w.stores, Spots(ts), c.password);
    forall x | x in xs ensures x.0 == st.backend && x.1 in DefaultPaths(w, st, name, c.username) {
      TargetOfDefault(e, bmcs, st.key, c.username, x);
      SpotIsBuildable(ts, x);
    }
    PutThenRemove(w.stores, st.backend, xs, DefaultPaths(w, st, name, c.username), SecretData(c));
  }

  lemma PutThenRemove<S>(stores: map<S, Store>, backend: S, xs: set<Spot<S>>, paths: set<string>, d: Data)
    requires backend in stores && forall x :: x in xs ==> x.0 == backend && x.1 in paths
    ensures var after := Put(stores, xs, d);
            after[backend := after[backend] - paths] == stores[backend := stores[backend] - paths]
  {
    var after := Put(stores, xs, d);
    forall s | s in stores && s != backend ensures after[s] == stores[s] {
      assert PathsIn(xs, s) == {};
    }
    PutStoreThenRemove(stores[backend], PathsIn(xs, backend), paths, d);
  }

  lemma SpotIsBuildable<S>(ts: seq<Target<S>>, x: Spot<S>)
    requires x in Spots(ts)
    ensures x.1 in Elements(BuildablePaths(ts))
    ensures exists i :: 0 <= i < |ts| && ts[i].store == x.0
  {
    SpotsMember(ts, x);
    BuildablePathsMember(ts, x.1);
  }

  lemma PutStoreThenRemove(store: Store, written: set<string>, removed: set<string>, d: Data)
    requires written <= removed
    ensures PutStore(store, written, d) - removed == store - removed
  {
  }

  /** In multi-engine mode the cleanup does not follow the engines: after a fault-free sync and a
      fault-free cleanup, an engine's target still holds its entry exactly unless it is also a default
      path of the default store. */
  lemma MultiEngineLeftovers<S>(
      w: World<S>, st: Setting<S>, name: string, c: Creds, env: Env<S>, env': Env<S>, x: Spot<S>)
    requires Provides(w.stores, st) && st.multi && name in w.secrets && !w.secrets[name].deleting
    requires Labelled(w.secrets[name], st.syncLabel) && ExtractCredentials(w.secrets[name].data) == Ok(c)
    requires AnswersFrom(env, st, w.secrets[name].labels) && FaultFree(env, st.multi)
    requires AnswersFrom(env', st, w.secrets[name].labels) && CleanupFaultFree(env')
    requires x in Spots(TargetsFor(st, w.secrets[name], BMCsOf(w.bmcs, name), c.username))
    ensures Available(w, env) && name in Reconcile(w, name, env).world.secrets
    ensures var w2 := DeleteRequested(Reconcile(w, name, env).world, name);
            && Available(w2, env')
            && var w3 := Reconcile(w2, name, env').world;
               && x.0 in w3.stores
               && (x.1 in w3.stores[x.0] <==> !(x.0 == st.backend && x.1 in DefaultPaths(w, st, name, c.username)))
               && (x.1 in w3.stores[x.0] ==> Right(w3.stores, x, c.password))
  {
    SyncThenCleanup(w, st, name, c, env, env');
    var ts := TargetsFor(st, w.secrets[name], BMCsOf(w.bmcs, name), c.username);
    SpotsMember(ts, x);
    T.UsernameFollows(w.stores, ts, c, env.now, env.answers, x);
  }

  /** The cleanup of one secret does not touch the target of another whose (region, hostname,
      username) values differ on some field that the separated default template mentions. */
  lemma CleanupSparesOthers<S>(
      w: World<S>, st: Setting<S>, name: string, c: Creds, env: Env<S>, bmcs': seq<BMC>, username': string,
      x: Spot<S>)
    requires Provides(w.stores, st) && name in w.secrets && w.secrets[name].deleting
    requires AnswersFrom(env, st, w.secrets[name].labels) && ExtractCredentials(w.secrets[name].data) == Ok(c)
    requires Separated(st.pathBuilder)
    requires forall b :: b in BMCsOf(w.bmcs, name) ==>
               SlashFreeButLast(st.pathBuilder, VariablesOf(b, st.key, c.username))
    requires forall b :: b in bmcs' ==> SlashFreeButLast(st.pathBuilder, VariablesOf(b, st.key, username'))
    requires forall b, b' :: b in BMCsOf(w.bmcs, name) && b' in bmcs' ==>
               exists f :: Mentions(st.pathBuilder, f)
                 && VariablesOf(b, st.key, c.username).Get(f) != VariablesOf(b', st.key, username').Get(f)
    requires x in Spots(EngineTargets(DefaultEngine(st.backend, st.pathBuilder), bmcs', st.key, username'))
    ensures Available(w, env)
    ensures x.0 == st.backend && x.0 in Reconcile(w, name, env).world.stores
    ensures var after := Reconcile(w, name, env).world.stores;
            && (x.1 in after[x.0] <==> x.1 in w.stores[x.0])
            && (x.1 in after[x.0] ==> after[x.0][x.1] == w.stores[x.0][x.1])
  {
    SettingAvailable(w, st, env, w.secrets[name].labels);
    var e, bmcs := DefaultEngine(st.backend, st.pathBuilder), BMCsOf(w.bmcs, name);
    TargetOfDefault(e, bmcs', st.key, username', x);
    T.DifferentTriplesDisjoint(e, bmcs, bmcs', st.key, c.username, username');
    CleanupTargetIsSpot(w, st, name, c, env, x);
    CleanupFrame(w, name, env, x);
  }

  lemma CleanupTargetIsSpot<S>(w: World<S>, st: Setting<S>, name: string, c: Creds, env: Env<S>, x: Spot<S>)
    requires name in w.secrets && AnswersFrom(env, st, w.secrets[name].labels)
             && ExtractCredentials(w.secrets[name].data) == Ok(c)
    ensures CleanupTarget(w, name, env, x) ==>
              var e := DefaultEngine(st.backend, st.pathBuilder);
              x in Spots(EngineTargets(e, BMCsOf(w.bmcs, name), st.key, c.username))
  {
    if CleanupTarget(w, name, env, x) {
      var e, bmcs := DefaultEngine(st.backend, st.pathBuilder), BMCsOf(w.bmcs, name);
      var b :| b in bmcs && BuildPath(st.pathBuilder, VariablesOf(b, st.key, c.username)) == Ok(x.1);
      EngineTargetAt(e, bmcs, st.key, c.username);
      var i :| 0 <= i < |bmcs| && bmcs[i] == b;
      T.SpotOfMember(EngineTargets(e, bmcs, st.key, c.username), i, x);
    }
  }

  lemma TargetOfDefault<S>(e: EngineBackend<S>, bmcs: seq<BMC>, key: string, username: string, x: Spot<S>)
    requires x in Spots(EngineTargets(e, bmcs, key, username))
    ensures x.0 == e.backend
  {
    EngineTargetAt(e, bmcs, key, username);
    SpotsMember(EngineTargets(e, bmcs, key, username), x);
  }

  // ---------------------------------------------------------------- convergence

  /** A reconcile call for the `secret`-th of some secrets. */
  datatype SecretCall<!S> = SecretCall(secret: nat, env: Env<S>)

  /** The secrets that are reconciled: live, labelled, with readable credentials. */
  ghost predicate Steady<S>(w: World<S>, st: Setting<S>, names: seq<string>, creds: seq<Creds>) {
    && Provides(w.stores, st) && |creds| == |names|
    && forall k :: 0 <= k < |names| ==>
         && names[k] in w.secrets && !w.secrets[names[k]].deleting && Labelled(w.secrets[names[k]], st.syncLabel)
         && ExtractCredentials(w.secrets[names[k]].data) == Ok(creds[k])
  }

  ghost function PlansFor<S>(w: World<S>, st: Setting<S>, names: seq<string>, creds: seq<Creds>): seq<T.Plan<S>>
    requires Steady(w, st, names, creds)
  {
    seq(|names|, k requires 0 <= k < |names| =>
      T.Plan(TargetsFor(st, w.secrets[names[k]], BMCsOf(w.bmcs, names[k]), creds[k].username), creds[k]))
  }

  /** Any calls for these secrets, with any answers. */
  ghost predicate CallsFit<S>(w: World<S>, names: seq<string>, calls: seq<SecretCall<S>>) {
    forall m :: 0 <= m < |calls| ==> calls[m].secret < |names| && Available(w, calls[m].env)
  }

  /** The secret as the spec sees it, without its finalizers. */
  ghost predicate SameButFinalizers<S>(w: World<S>, w': World<S>) {
    && w'.bmcs == w.bmcs && w'.stores.Keys == w.stores.Keys && w'.secrets.Keys == w.secrets.Keys
    && forall n :: n in w.secrets ==> w'.secrets[n] == w.secrets[n].(finalizers := w'.secrets[n].finalizers)
  }

  lemma PlansStay<S>(w: World<S>, w': World<S>, st: Setting<S>, names: seq<string>, creds: seq<Creds>)
    requires Steady(w, st, names, creds) && SameButFinalizers(w, w')
    ensures Steady(w', st, names, creds) && PlansFor(w', st, names, creds) == PlansFor(w, st, names, creds)
  {
  }

  /** The spots that a call would write to outside the paths that the setting gives its secret. */
  ghost function Strays<S>(w: World<S>, name: string, env: Env<S>, own: seq<Target<S>>): set<Spot<S>>
    requires name in w.secrets
  {
    Spots(CallTargets(w, name, env)) - Spots(own)
  }

  /** A call that is answered from the setting has no strays; if only the check is wrong, they are default
      paths of the secret. */
  lemma StraysAreDefaultPaths<S>(w: World<S>, st: Setting<S>, name: string, c: Creds, env: Env<S>)
    requires name in w.secrets && ExtractCredentials(w.secrets[name].data) == Ok(c)
    requires AnswersFrom(env, Routed(st, env), w.secrets[name].labels)
    ensures var strays := Strays(w, name, env, TargetsFor(st, w.secrets[name], BMCsOf(w.bmcs, name), c.username));
            && (!Misrouted(st, env) ==> strays == {})
            && strays <= Spots(DefaultTargets(w, st, name, c.username))
  {
    RoutedTargets(w, st, name, c, env);
  }

  /** No call strays to a path of a secret with another password. */
  ghost predicate Harmless<S>(
      w: World<S>, st: Setting<S>, names: seq<string>, creds: seq<Creds>, calls: seq<SecretCall<S>>)
    requires Steady(w, st, names, creds) && CallsFit(w, names, calls)
  {
    forall m :: 0 <= m < |calls| ==> HarmlessCall(w, st, names, creds, calls[m].secret, calls[m].env)
  }

  ghost predicate HarmlessCall<S>(
      w: World<S>, st: Setting<S>, names: seq<string>, creds: seq<Creds>, k: nat, env: Env<S>)
    requires Steady(w, st, names, creds) && k < |names|
  {
    var plans := PlansFor(w, st, names, creds);
    forall j :: 0 <= j < |names| && creds[j].password != creds[k].password ==>
      Strays(w, names[k], env, plans[k].targets) !! Spots(plans[j].targets)
  }

  lemma CallKeepsSteady<S>(w: World<S>, st: Setting<S>, names: seq<string>, creds: seq<Creds>, k: nat, env: Env<S>)
    requires Steady(w, st, names, creds) && k < |names| && Available(w, env)
    ensures SameButFinalizers(w, Reconcile(w, names[k], env).world)
  {
    CallPasses(w, names[k], creds[k], env);
  }

  /** Calls keep the world steady, so the next one can be taken. */
  ghost function RunCalls<S>(
      w: World<S>, st: Setting<S>, names: seq<string>, creds: seq<Creds>, calls: seq<SecretCall<S>>): (w': World<S>)
    requires Steady(w, st, names, creds) && CallsFit(w, names, calls)
    ensures SameButFinalizers(w, w')
  {
    if calls == [] then w
    else
      var n := |calls| - 1;
      var before := RunCalls(w, st, names, creds, calls[..n]);
      PlansStay(w, before, st, names, creds);
      assert Available(before, calls[n].env) && calls[n].secret < |names|;
      CallKeepsSteady(before, st, names, creds, calls[n].secret, calls[n].env);
      Reconcile(before, names[calls[n].secret], calls[n].env).world
  }

  /** With compatible secrets, a harmless call makes no path wrong, for any secret. */
  lemma CallKeepsRight<S>(
      w: World<S>, st: Setting<S>, names: seq<string>, creds: seq<Creds>, k: nat, env: Env<S>, j: nat)
    requires Steady(w, st, names, creds) && k < |names| && j < |names| && Available(w, env)
    requires T.Compatible(PlansFor(w, st, names, creds)) && HarmlessCall(w, st, names, creds, k, env)
    ensures var p := PlansFor(w, st, names, creds)[j];
            T.WrongOf(Reconcile(w, names[k], env).world.stores, p) <= T.WrongOf(w.stores, p)
  {
    var plans := PlansFor(w, st, names, creds);
    CallPasses(w, names[k], creds[k], env);
    if Reaches(w, names[k], env) {
      T.PassKeepsRight(w.stores, CallTargets(w, names[k], env), creds[k], env.now, env.answers, plans[j]);
    }
  }

  /** A fault-free call that is answered from the setting makes every path of its secret right. */
  lemma CallMakesRight<S>(w: World<S>, st: Setting<S>, names: seq<string>, creds: seq<Creds>, k: nat, env: Env<S>)
    requires Steady(w, st, names, creds) && k < |names|
    requires AnswersFrom(env, st, w.secrets[names[k]].labels) && FaultFree(env, st.multi)
    ensures Available(w, env)
    ensures T.WrongOf(Reconcile(w, names[k], env).world.stores, PlansFor(w, st, names, creds)[k]) == {}
  {
    CallIsPass(w, st, names[k], creds[k], env);
    T.PassMakesRight(w.stores, PlansFor(w, st, names, creds)[k], env.now, env.answers);
  }

  ghost predicate GoodCall<S>(w: World<S>, st: Setting<S>, name: string, env: Env<S>)
    requires name in w.secrets
  {
    AnswersFrom(env, st, w.secrets[name].labels) && FaultFree(env, st.multi)
  }

  ghost predicate HadGoodCall<S>(
      w: World<S>, st: Setting<S>, names: seq<string>, calls: seq<SecretCall<S>>, k: nat)
    requires k < |names| && names[k] in w.secrets
  {
    exists m :: 0 <= m < |calls| && calls[m].secret == k && GoodCall(w, st, names[k], calls[m].env)
  }

  lemma HarmlessStays<S>(
      w: World<S>, w': World<S>, st: Setting<S>, names: seq<string>, creds: seq<Creds>, k: nat, env: Env<S>)
    requires Steady(w, st, names, creds) && SameButFinalizers(w, w') && k < |names|
    requires HarmlessCall(w, st, names, creds, k, env)
    ensures Steady(w', st, names, creds) && HarmlessCall(w', st, names, creds, k, env)
  {
    PlansStay(w, w', st, names, creds);
    CallTargetsStay(w, w', names[k], env);
  }

  ghost function WrongAfter<S>(
      w: World<S>, st: Setting<S>, names: seq<string>, creds: seq<Creds>, calls: seq<SecretCall<S>>, j: nat)
    : set<Spot<S>>
    requires Steady(w, st, names, creds) && CallsFit(w, names, calls) && j < |names|
  {
    T.WrongOf(RunCalls(w, st, names, creds, calls).stores, PlansFor(w, st, names, creds)[j])
  }

  /** Calls that stray to no path of a secret with another password, where no two such secrets share one. */
  ghost predicate Benign<S>(
      w: World<S>, st: Setting<S>, names: seq<string>, creds: seq<Creds>, calls: seq<SecretCall<S>>)
  {
    && Steady(w, st, names, creds) && CallsFit(w, names, calls)
    && T.Compatible(PlansFor(w, st, names, creds)) && Harmless(w, st, names, creds, calls)
  }

  lemma BenignPrefix<S>(
      w: World<S>, st: Setting<S>, names: seq<string>, creds: seq<Creds>, calls: seq<SecretCall<S>>)
    requires Benign(w, st, names, creds, calls) && calls != []
    ensures Benign(w, st, names, creds, calls[..|calls| - 1])
  {
    var before := calls[..|calls| - 1];
    forall m | 0 <= m < |before| ensures HarmlessCall(w, st, names, creds, before[m].secret, before[m].env) {
      assert HarmlessCall(w, st, names, creds, calls[m].secret, calls[m].env);
    }
  }

  /** The last of some calls keeps what is right. */
  lemma LastCallKeeps<S>(
      w: World<S>, st: Setting<S>, names: seq<string>, creds: seq<Creds>, calls: seq<SecretCall<S>>, j: nat)
    requires Benign(w, st, names, creds, calls) && calls != [] && j < |names|
    ensures CallsFit(w, names, calls[..|calls| - 1])
    ensures WrongAfter(w, st, names, creds, calls, j) <= WrongAfter(w, st, names, creds, calls[..|calls| - 1], j)
  {
    var n := |calls| - 1;
    var before, last := RunCalls(w, st, names, creds, calls[..n]), calls[n];
    PlansStay(w, before, st, names, creds);
    assert HarmlessCall(w, st, names, creds, last.secret, last.env);
    HarmlessStays(w, before, st, names, creds, last.secret, last.env);
    CallKeepsRight(before, st, names, creds, last.secret, last.env, j);
  }

  lemma NoneWrongStays<S>(
      w: World<S>, st: Setting<S>, names: seq<string>, creds: seq<Creds>, calls: seq<SecretCall<S>>, k: nat)
    requires Benign(w, st, names, creds, calls) && calls != [] && k < |names|
    requires CallsFit(w, names, calls[..|calls| - 1])
    requires WrongAfter(w, st, names, creds, calls[..|calls| - 1], k) == {}
    ensures WrongAfter(w, st, names, creds, calls, k) == {}
  {
    LastCallKeeps(w, st, names, creds, calls, k);
  }

  /** If the last call is a good one, it makes its secret right. */
  lemma LastCallServes<S>(
      w: World<S>, st: Setting<S>, names: seq<string>, creds: seq<Creds>, calls: seq<SecretCall<S>>, m: nat)
    requires Benign(w, st, names, creds, calls) && m == |calls| - 1
    requires GoodCall(w, st, names[calls[m].secret], calls[m].env)
    ensures WrongAfter(w, st, names, creds, calls, calls[m].secret) == {}
  {
    var before, last := RunCalls(w, st, names, creds, calls[..m]), calls[m];
    PlansStay(w, before, st, names, creds);
    CallMakesRight(before, st, names, creds, last.secret, last.env);
  }

  /** Whatever the calls are answered, the setting's answers or not, as long as none of them strays to a
      path of a secret with another password: if no two secrets with different passwords share a path of a
      store, no sequence of calls makes more paths wrong. */
  lemma {:induction false} OperatorNeverWorsens<S>(
      w: World<S>, st: Setting<S>, names: seq<string>, creds: seq<Creds>, calls: seq<SecretCall<S>>)
    requires Steady(w, st, names, creds) && CallsFit(w, names, calls) && T.Compatible(PlansFor(w, st, names, creds))
    requires Harmless(w, st, names, creds, calls)
    ensures T.TotalWrong(RunCalls(w, st, names, creds, calls).stores, PlansFor(w, st, names, creds)) <=
            T.TotalWrong(w.stores, PlansFor(w, st, names, creds))
  {
    if calls != [] {
      var n, plans := |calls| - 1, PlansFor(w, st, names, creds);
      BenignPrefix(w, st, names, creds, calls);
      OperatorNeverWorsens(w, st, names, creds, calls[..n]);
      var before, after := RunCalls(w, st, names, creds, calls[..n]), RunCalls(w, st, names, creds, calls);
      forall j | 0 <= j < |plans| ensures T.WrongOf(after.stores, plans[j]) <= T.WrongOf(before.stores, plans[j]) {
        LastCallKeeps(w, st, names, creds, calls, j);
        assert T.WrongOf(after.stores, plans[j]) == WrongAfter(w, st, names, creds, calls, j);
      }
      T.FewerWrong(before.stores, after.stores, plans);
    }
  }

  /** What a good call has made right stays right. */
  lemma {:induction false} ServedStaysRight<S>(
      w: World<S>, st: Setting<S>, names: seq<string>, creds: seq<Creds>, calls: seq<SecretCall<S>>, m: nat)
    requires Benign(w, st, names, creds, calls) && m < |calls|
    requires GoodCall(w, st, names[calls[m].secret], calls[m].env)
    ensures WrongAfter(w, st, names, creds, calls, calls[m].secret) == {}
  {
    var n := |calls| - 1;
    if m == n {
      LastCallServes(w, st, names, creds, calls, m);
    } else {
      BenignPrefix(w, st, names, creds, calls);
      var before := calls[..n];
      assert before[m] == calls[m];
      ServedStaysRight(w, st, names, creds, before, m);
      NoneWrongStays(w, st, names, creds, calls, calls[m].secret);
    }
  }

  /** Convergence of the operator, whatever the order of the calls and whatever they are answered, as long
      as none of them strays to a path of a secret with another password: once every secret has had one
      fault-free call that was answered from the setting, no path is wrong if and only if no two secrets
      with different passwords share a path of a store. */
  lemma OperatorConverges<S>(
      w: World<S>, st: Setting<S>, names: seq<string>, creds: seq<Creds>, calls: seq<SecretCall<S>>)
    requires Steady(w, st, names, creds) && CallsFit(w, names, calls) && Harmless(w, st, names, creds, calls)
    requires forall k :: 0 <= k < |names| ==> HadGoodCall(w, st, names, calls, k)
    ensures T.TotalWrong(RunCalls(w, st, names, creds, calls).stores, PlansFor(w, st, names, creds)) == 0 <==>
            T.Compatible(PlansFor(w, st, names, creds))
  {
    var plans, after := PlansFor(w, st, names, creds), RunCalls(w, st, names, creds, calls);
    if T.Compatible(plans) {
      forall k | 0 <= k < |plans| ensures T.WrongOf(after.stores, plans[k]) == {} {
        assert HadGoodCall(w, st, names, calls, k);
        var m :| 0 <= m < |calls| && calls[m].secret == k && GoodCall(w, st, names[k], calls[m].env);
        ServedStaysRight(w, st, names, creds, calls, m);
        assert T.WrongOf(after.stores, plans[k]) == WrongAfter(w, st, names, creds, calls, k);
      }
      T.NoneWrong(after.stores, plans);
    } else {
      T.ConflictStaysWrong(after.stores, plans);
    }
  }

  /** What makes target paths disjoint in single-engine mode: a separated template with a field on which
      every two BMCs and usernames of different secrets differ. */
  lemma DifferentTriplesPlansDisjoint<S>(w: World<S>, st: Setting<S>, names: seq<string>, creds: seq<Creds>)
    requires Steady(w, st, names, creds) && !st.multi && Separated(st.pathBuilder)
    requires forall k, b :: 0 <= k < |names| && b in BMCsOf(w.bmcs, names[k]) ==>
               SlashFreeButLast(st.pathBuilder, VariablesOf(b, st.key, creds[k].username))
    requires forall j, k, b, b' ::
               0 <= j < k < |names| && b in BMCsOf(w.bmcs, names[j]) && b' in BMCsOf(w.bmcs, names[k]) ==>
               exists f :: Mentions(st.pathBuilder, f)
                           && VariablesOf(b, st.key, creds[j].username).Get(f) !=
                              VariablesOf(b', st.key, creds[k].username).Get(f)
    ensures T.Disjoint(PlansFor(w, st, names, creds)) && T.Compatible(PlansFor(w, st, names, creds))
  {
    var e := DefaultEngine(st.backend, st.pathBuilder);
    forall k | 0 <= k < |names|
      ensures PlansFor(w, st, names, creds)[k].targets ==
              EngineTargets(e, BMCsOf(w.bmcs, names[k]), st.key, creds[k].username)
    {
      OneEngine(e, BMCsOf(w.bmcs, names[k]), st.key, creds[k].username);
    }
    forall j, k | 0 <= j < k < |names|
      ensures Spots(PlansFor(w, st, names, creds)[j].targets) !! Spots(PlansFor(w, st, names, creds)[k].targets)
    {
      T.DifferentTriplesDisjoint(
        e, BMCsOf(w.bmcs, names[j]), BMCsOf(w.bmcs, names[k]), st.key, creds[j].username, creds[k].username);
    }
  }

  lemma OneEngine<S>(e: EngineBackend<S>, bmcs: seq<BMC>, key: string, username: string)
    ensures Targets([e], bmcs, key, username) == EngineTargets(e, bmcs, key, username)
  {
    assert [e][..0] == [];
    var ts := EngineTargets(e, bmcs, key, username);
    assert [] + ts == ts;
  }

  // ---------------------------------------------------------------- status

  lemma SameVerdictKeepsConditions(conditions: seq<Condition>, c: Condition, c': Condition)
    requires c.kind == c'.kind && c.status == c'.status && c.reason == c'.reason
    ensures WithCondition(WithCondition(conditions, c), c') == WithCondition(conditions, c)
  {
    var once := WithCondition(conditions, c);
    WithConditionAt(conditions, c);
    var i := IndexOf(conditions, c.kind);
    assert once[..i] == conditions[..i];
    IndexOfAt(once, c.kind, i);
    WithConditionAt(once, c');
  }

  const ALL_FINE := StatusAnswers(None, None, None, None)

  /** The status objects are the same, up to the times of their entries and of the latest sync. */
  ghost predicate SameReport(before: map<string, StatusObject>, after: map<string, StatusObject>) {
    && after.Keys == before.Keys
    && forall n :: n in before ==>
         var st, st' := before[n].status, after[n].status;
         && (st'.totalPaths, st'.successfulPaths, st'.failedPaths) ==
           (st.totalPaths, st.successfulPaths, st.failedPaths)
         && st'.conditions == st.conditions
  }

  /** A second fault-free call right after a fault-free one, with whatever setting and secret, writes
      nothing, and leaves the secrets, the stores, all counts and all conditions as they are. */
  lemma SecondCallIdle<S>(w: World<S>, st: Setting<S>, name: string, env: Env<S>, env': Env<S>)
    requires Provides(w.stores, st) && name in w.secrets && !w.secrets[name].deleting
    requires AnswersFrom(env, st, w.secrets[name].labels) && FaultFree(env, st.multi)
    requires AnswersFrom(env', st, w.secrets[name].labels) && FaultFree(env', st.multi)
    requires env.status == env'.status == ALL_FINE
    ensures Available(w, env) && Available(Reconcile(w, name, env).world, env')
    ensures var r := Reconcile(w, name, env);
            var r' := Reconcile(r.world, name, env');
            && r'.events == []
            && r'.world.secrets == r.world.secrets && r'.world.stores == r.world.stores && r'.world.bmcs == r.world.bmcs
            && SameReport(r.world.statuses, r'.world.statuses)
  {
    SettingAvailable(w, st, env, w.secrets[name].labels);
    var r := Reconcile(w, name, env);
    ReconcileKeepsStores(w, name, env);
    SettingAvailable(r.world, st, env', w.secrets[name].labels);
    if Labelled(w.secrets[name], st.syncLabel) {
      CallSyncs(w, st, name, env);
      var w1 := WithFinalizer(w, name);
      SyncWrites(w1, name, env);
      FinalizedCallSyncs(r.world, st, name, env');
      SecondSyncIdle(w1, st, name, env, env');
    }
  }

  lemma ReconcileKeepsStores<S>(w: World<S>, name: string, env: Env<S>)
    requires Available(w, env)
    ensures Reconcile(w, name, env).world.stores.Keys == w.stores.Keys
  {
    StepKeepsStores(w, Call(name, env));
  }

  lemma FinalizedCallSyncs<S>(w: World<S>, st: Setting<S>, name: string, env: Env<S>)
    requires name in w.secrets && !w.secrets[name].deleting && FINALIZER in w.secrets[name].finalizers
             && Available(w, env)
    requires AnswersFrom(env, st, w.secrets[name].labels) && FaultFree(env, st.multi)
    requires Labelled(w.secrets[name], st.syncLabel)
    ensures Reconcile(w, name, env) == Sync(w, name, env)
  {
  }

  lemma SecondSyncIdle<S>(w: World<S>, st: Setting<S>, name: string, env: Env<S>, env': Env<S>)
    requires Provides(w.stores, st) && name in w.secrets && Available(w, env)
    requires AnswersFrom(env, st, w.secrets[name].labels) && FaultFree(env, st.multi)
    requires AnswersFrom(env', st, w.secrets[name].labels) && FaultFree(env', st.multi)
    requires env.status == env'.status == ALL_FINE
    requires var w1 := Sync(w, name, env).world; Available(w1, env') && Provides(w1.stores, st)
    ensures var w1 := Sync(w, name, env).world;
            name in w1.secrets
            && var r' := Sync(w1, name, env');
               && r'.events == []
               && r'.world.secrets == w1.secrets && r'.world.stores == w1.stores && r'.world.bmcs == w1.bmcs
               && SameReport(w1.statuses, r'.world.statuses)
  {
    SyncWrites(w, name, env);
    var w1, c := Sync(w, name, env).world, ExtractCredentials(w.secrets[name].data);
    SyncWrites(w1, name, env');
    if c.Ok? {
      var engines, bmcs := EnginesFor(st, w.secrets[name].labels), BMCsOf(w.bmcs, name);
      SyncUnfolds(w, st, name, c.value, env);
      SyncUnfolds(w1, st, name, c.value, env');
      if engines != [] && bmcs != [] {
        SecondSyncToIdle(w, name, engines, bmcs, st.key, c.value, env, env');
      }
    }
  }

  lemma SecondSyncToIdle<S>(
      w: World<S>, name: string, engines: seq<EngineBackend<S>>, bmcs: seq<BMC>, key: string, c: Creds, env: Env<S>,
      env': Env<S>)
    requires name in w.secrets && (forall i :: 0 <= i < |engines| ==> engines[i].backend in w.stores)
    requires (forall i :: env.answers(i).FaultFree()) && (forall i :: env'.answers(i).FaultFree())
    requires env.hasMultiEngine == env'.hasMultiEngine && env.status == env'.status == ALL_FINE
    ensures var r := SyncTo(w, name, engines, bmcs, key, c, env);
            var r' := SyncTo(r.world, name, engines, bmcs, key, c, env');
            r'.events == [] && r'.world.stores == r.world.stores && SameReport(r.world.statuses, r'.world.statuses)
  {
    var ts := Targets(engines, bmcs, key, c.username);
    TargetStores(w.stores, engines, bmcs, key, c.username);
    var p := Pass(w.stores, ts, c, env.now, env.answers);
    TargetStores(p.stores, engines, bmcs, key, c.username);
    T.SecondPassIdle(w.stores, ts, c, env.now, env'.now, env.answers, env'.answers);
    PassCounts(w.stores, ts, c, env.now, env.answers);
    PassCounts(p.stores, ts, c, env'.now, env'.answers);
    var p' := Pass(p.stores, ts, c, env'.now, env'.answers);
    var total := if env.hasMultiEngine == Ok(true) then |p.entries| else |bmcs|;
    UpdateTwice(w.statuses, name, Update(p.entries, total, p.syncSuccess, p.syncErrors, env.now),
                Update(p'.entries, total, p'.syncSuccess, p'.syncErrors, env'.now));
  }

  lemma UpdateTwice(statuses: map<string, StatusObject>, name: string, u: Update, u': Update)
    requires (u.total, u.successful, u.failed) == (u'.total, u'.successful, u'.failed)
    ensures var once := UpdateSyncStatus(statuses, name, u, ALL_FINE).0;
            SameReport(once, UpdateSyncStatus(once, name, u', ALL_FINE).0)
  {
    var before := if StatusName(name) in statuses then statuses[StatusName(name)]
                  else StatusObject(name, 1, EMPTY_STATUS);
    SameVerdictKeepsConditions(
      before.status.conditions, ConditionFor(u, before.generation), ConditionFor(u', before.generation));
  }
}

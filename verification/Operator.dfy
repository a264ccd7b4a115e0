/** The operator as a state machine: what one reconcile call does to the API objects and to the
    stores, for every answer the API, the factory and the backends may give. */
module Operator {
  import opened Wrappers
  import opened PathBuilder
  import opened MultiEngine
  import opened Resolver
  import opened SyncPass
  import opened SyncStatus
  import opened Deletion

  const FINALIZER := "bmcsecret.metal.ironcore.dev/backend-cleanup"
  const REQUEUE_AFTER_NORMAL: nat := 300
  const REQUEUE_AFTER_ERROR: nat := 30

  datatype BMCSecret = BMCSecret(
    uid: nat, labels: Labels, data: map<string, string>, deleting: bool, finalizers: set<string>)

  datatype World<S> = World(
    secrets: map<string, BMCSecret>, bmcs: seq<BMC>, stores: map<S, Store>, statuses: map<string, StatusObject>,
    nextUid: nat)

  /** Everything one reconcile call is answered: API errors, the factory's getters, and the answers
      of the backends. `engines` is the list already filtered for the secret's labels. */
  datatype Env<!S> = Env(
    get: Option<string>, syncLabel: Result<string>, addFinalizer: Option<string>, list: Option<string>,
    hasMultiEngine: Result<bool>, backend: Result<S>, pathBuilder: Result<Template>, regionLabelKey: Result<string>,
    engines: Result<seq<EngineBackend<S>>>, answers: nat -> Answers, status: StatusAnswers, now: int,
    statusGet: Option<string>, statusDelete: Option<string>, removeFinalizer: Option<string>,
    deletions: nat -> DeleteAnswer)

  datatype Outcome = Outcome(requeueAfter: nat, err: Option<string>)

  const DONE := Outcome(0, None)

  /** What is recorded of a call, in order: the finalizer was persisted, a record reached a spot, a
      delete took effect at a spot, the finalizer was removed. */
  datatype Event<S> =
    | Finalized(uid: nat)
    | Wrote(uid: nat, x: Spot<S>)
    | Removed(uid: nat, x: Spot<S>)
    | Released(uid: nat)
  {
    /** The event is about a store. */
    predicate Touches() {
      Wrote? || Removed?
    }
  }

  datatype Reply<S> = Reply(world: World<S>, events: seq<Event<S>>, outcome: Outcome)

  ghost predicate Available<S>(w: World<S>, env: Env<S>) {
    && (env.backend.Ok? ==> env.backend.value in w.stores)
    && (env.engines.Ok? ==> forall i :: 0 <= i < |env.engines.value| ==> env.engines.value[i].backend in w.stores)
  }

  /** No sync label is configured, or the secret has it with a non-empty value. */
  predicate Labelled(s: BMCSecret, syncLabel: string) {
    syncLabel == "" || (s.labels.Some? && syncLabel in s.labels.value && s.labels.value[syncLabel] != "")
  }

  /** An API update: an object that is being deleted and has no finalizer left disappears. */
  function ApiUpdate(secrets: map<string, BMCSecret>, name: string, s: BMCSecret): map<string, BMCSecret> {
    if s.deleting && s.finalizers == {} then secrets - {name} else secrets[name := s]
  }

  function WriteEvents<S>(uid: nat, landed: seq<Spot<S>>): (events: seq<Event<S>>)
    ensures |events| == |landed| && forall i :: 0 <= i < |landed| ==> events[i] == Wrote(uid, landed[i])
  {
    seq(|landed|, i requires 0 <= i < |landed| => Wrote(uid, landed[i]))
  }

  function RemoveEvents<S>(uid: nat, backend: S, paths: seq<string>): (events: seq<Event<S>>)
    ensures |events| == |paths| && forall i :: 0 <= i < |paths| ==> events[i] == Removed(uid, (backend, paths[i]))
  {
    seq(|paths|, i requires 0 <= i < |paths| => Removed(uid, (backend, paths[i])))
  }

  /** The engines to write to and the region key, if every getter on the way answers: the default
      backend in single-engine mode, the matching engines in multi-engine mode. */
  function Destination<S>(env: Env<S>, multi: bool): Result<(seq<EngineBackend<S>>, string)> {
    if multi then
      if env.regionLabelKey.Err? then Err(env.regionLabelKey.error)
      else if env.engines.Err? then Err(env.engines.error)
      else Ok((env.engines.value, env.regionLabelKey.value))
    else
      if env.backend.Err? then Err(env.backend.error)
      else if env.pathBuilder.Err? then Err(env.pathBuilder.error)
      else if env.regionLabelKey.Err? then Err(env.regionLabelKey.error)
      else Ok(([DefaultEngine(env.backend.value, env.pathBuilder.value)], env.regionLabelKey.value))
  }

  /** The sync of a secret whose finalizer is in place. */
  function Sync<S>(w: World<S>, name: string, env: Env<S>): Reply<S>
    requires name in w.secrets && Available(w, env)
  {
    var s, bmcs := w.secrets[name], BMCsOf(w.bmcs, name);
    if env.list.Some? then Reply(w, [], Outcome(REQUEUE_AFTER_ERROR, env.list))
    else if bmcs == [] then Reply(w, [], Outcome(REQUEUE_AFTER_NORMAL, None))
    else
      match ExtractCredentials(s.data)
      case Err(e) => Reply(w, [], Outcome(REQUEUE_AFTER_ERROR, Some(e)))
      case Ok(c) =>
        if env.hasMultiEngine.Err? then Reply(w, [], Outcome(REQUEUE_AFTER_ERROR, Some(env.hasMultiEngine.error)))
        else
          match Destination(env, env.hasMultiEngine.value)
          case Err(e) => Reply(w, [], Outcome(REQUEUE_AFTER_ERROR, Some(e)))
          case Ok((engines, key)) =>
            if engines == [] then Reply(w, [], Outcome(REQUEUE_AFTER_NORMAL, None))
            else SyncTo(w, name, engines, bmcs, key, c, env)
  }

  function SyncTo<S>(
      w: World<S>, name: string, engines: seq<EngineBackend<S>>, bmcs: seq<BMC>, key: string, c: Creds,
      env: Env<S>): Reply<S>
    requires name in w.secrets
    requires forall i :: 0 <= i < |engines| ==> engines[i].backend in w.stores
  {
    var ts := Targets(engines, bmcs, key, c.username);
    TargetStores(w.stores, engines, bmcs, key, c.username);
    var r := Pass(w.stores, ts, c, env.now, env.answers);
    var total := if env.hasMultiEngine == Ok(true) then |r.entries| else |bmcs|;
    var update := Update(r.entries, total, r.syncSuccess, r.syncErrors, env.now);
    Reply(
      w.(stores := r.stores, statuses := UpdateSyncStatus(w.statuses, name, update, env.status).0),
      WriteEvents(w.secrets[name].uid, r.landed),
      Outcome(REQUEUE_AFTER_NORMAL, None))
  }

  /** Removes the finalizer. */
  function Release<S>(w: World<S>, name: string, env: Env<S>): Reply<S>
    requires name in w.secrets
  {
    var s := w.secrets[name];
    if env.removeFinalizer.Some? then Reply(w, [], Outcome(0, env.removeFinalizer))
    else
      var secrets := ApiUpdate(w.secrets, name, s.(finalizers := s.finalizers - {FINALIZER}));
      Reply(w.(secrets := secrets), [Released(s.uid)], DONE)
  }

  /** Every lookup on the way to the cleanup loop succeeds. */
  predicate LookupsSucceed<S>(s: BMCSecret, env: Env<S>) {
    env.backend.Ok? && env.pathBuilder.Ok? && env.regionLabelKey.Ok? && ExtractCredentials(s.data).Ok? && env.list.None?
  }

  /** The targets of the cleanup loop. */
  function CleanupTargets<S>(w: World<S>, name: string, env: Env<S>): seq<Target<S>>
    requires name in w.secrets && LookupsSucceed(w.secrets[name], env)
  {
    DeletionTargets(env.backend.value, env.pathBuilder.value, BMCsOf(w.bmcs, name), env.regionLabelKey.value,
                    ExtractCredentials(w.secrets[name].data).value.username)
  }

  /** What the cleanup loop does to the default store. */
  function CleanupPass<S>(w: World<S>, name: string, env: Env<S>): DeleteState
    requires name in w.secrets && Available(w, env) && LookupsSucceed(w.secrets[name], env)
  {
    DeletePass(w.stores[env.backend.value], CleanupTargets(w, name, env), env.deletions)
  }

  /** The stores after the cleanup of a secret; they are left alone when some lookup fails. */
  function CleanedStores<S>(w: World<S>, name: string, env: Env<S>): (stores: map<S, Store>)
    requires name in w.secrets && Available(w, env)
    ensures stores.Keys == w.stores.Keys
  {
    if LookupsSucceed(w.secrets[name], env) then w.stores[env.backend.value := CleanupPass(w, name, env).store]
    else w.stores
  }

  /** The deletes of the cleanup that took effect. */
  function CleanupEvents<S>(w: World<S>, name: string, env: Env<S>): seq<Event<S>>
    requires name in w.secrets && Available(w, env)
  {
    if LookupsSucceed(w.secrets[name], env) then
      RemoveEvents(w.secrets[name].uid, env.backend.value, CleanupPass(w, name, env).removed)
    else []
  }

  /** The deletes that the cleanup asks a backend for, whether or not they succeed. */
  ghost function CleanupCalls<S>(w: World<S>, name: string, env: Env<S>, backend: S): seq<string>
    requires name in w.secrets && Available(w, env)
  {
    if LookupsSucceed(w.secrets[name], env) && env.backend.value == backend then CleanupPass(w, name, env).tried else []
  }

  /** The status objects after the attempt to delete the one of the secret. */
  function WithoutStatus<S>(w: World<S>, name: string, env: Env<S>): map<string, StatusObject> {
    if env.statusGet.None? && env.statusDelete.None? then w.statuses - {StatusName(name)} else w.statuses
  }

  /** The cleanup of a secret that is being deleted. */
  function HandleDeletion<S>(w: World<S>, name: string, env: Env<S>): Reply<S>
    requires name in w.secrets && Available(w, env)
  {
    if FINALIZER !in w.secrets[name].finalizers then Reply(w, [], DONE)
    else
      var w' := w.(statuses := WithoutStatus(w, name, env), stores := CleanedStores(w, name, env));
      var r := Release(w', name, env);
      r.(events := CleanupEvents(w, name, env) + r.events)
  }

  /** The finalizer put in place, if it is missing. */
  function Finalize<S>(w: World<S>, name: string, env: Env<S>): Reply<S>
    requires name in w.secrets
  {
    var s := w.secrets[name];
    if FINALIZER in s.finalizers then Reply(w, [], DONE)
    else if env.addFinalizer.Some? then Reply(w, [], Outcome(0, env.addFinalizer))
    else
      var secrets := ApiUpdate(w.secrets, name, s.(finalizers := s.finalizers + {FINALIZER}));
      Reply(w.(secrets := secrets), [Finalized(s.uid)], DONE)
  }

  function Reconcile<S>(w: World<S>, name: string, env: Env<S>): Reply<S>
    requires Available(w, env)
  {
    if env.get.Some? then Reply(w, [], Outcome(0, env.get))
    else if name !in w.secrets then Reply(w, [], DONE)
    else
      var s := w.secrets[name];
      if env.syncLabel.Err? then Reply(w, [], Outcome(REQUEUE_AFTER_ERROR, Some(env.syncLabel.error)))
      else if !Labelled(s, env.syncLabel.value) then Reply(w, [], DONE)
      else if s.deleting then HandleDeletion(w, name, env)
      else
        var f := Finalize(w, name, env);
        if f.outcome.err.Some? then f
        else
          var r := Sync(f.world, name, env);
          r.(events := f.events + r.events)
  }
}

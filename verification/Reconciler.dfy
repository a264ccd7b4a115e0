/** The controller in its own form: methods that update the API objects and the backends step by
    step, each proved against the state machine of module Operator. The recorder that the backends
    share also takes down when a finalizer is persisted or removed, so what is proved includes the
    order in which these things, the writes and the deletes take effect. */
module Reconciler {
  import opened Wrappers
  import opened Resolver
  import opened SyncStatus
  import opened Backend
  import O = Operator

  lemma InOrder<E>(record: seq<E>, first: seq<E>, second: seq<E>)
    ensures record + first + second == record + (first + second)
  {
  }

  class BMCSecretReconciler {
    var secrets: map<string, O.BMCSecret>
    var bmcs: seq<BMC>
    var statuses: map<string, StatusObject>
    ghost var nextUid: nat
    ghost const backends: set<SecretBackend>
    const recorder: Recorder

    constructor (bmcs: seq<BMC>, ghost backends: set<SecretBackend>, recorder: Recorder)
      requires Share(backends, recorder)
      ensures this.bmcs == bmcs && this.backends == backends && this.recorder == recorder
      ensures secrets == map[] && statuses == map[] && Wired()
    {
      this.bmcs, this.backends, this.recorder := bmcs, backends, recorder;
      secrets, statuses, nextUid := map[], map[], 0;
    }

    /** Every backend writes to the recorder of the controller. */
    ghost predicate Wired() {
      Share(backends, recorder)
    }

    ghost function State(): O.World<SecretBackend>
      reads this, backends
    {
      O.World(secrets, bmcs, Snapshot(backends), statuses, nextUid)
    }

    /** An update of a secret that succeeds is recorded as the event `e`. */
    method Update(name: string, s: O.BMCSecret, fault: Option<string>, ghost e: O.Event<SecretBackend>)
      returns (err: Option<string>)
      modifies this`secrets, recorder
      ensures err == fault
      ensures secrets == if fault.Some? then old(secrets) else O.ApiUpdate(old(secrets), name, s)
      ensures recorder.events == old(recorder.events) + if fault.Some? then [] else [e]
    {
      if fault.Some? {
        return fault;
      }
      if s.deleting && s.finalizers == {} {
        secrets := secrets - {name};
      } else {
        secrets := secrets[name := s];
      }
      recorder.events := recorder.events + [e];
      return None;
    }

    method UpdateStatus(name: string, u: Update, a: StatusAnswers) returns (err: Option<string>)
      modifies this`statuses
      ensures (statuses, err) == UpdateSyncStatus(old(statuses), name, u, a)
    {
      var statusName := StatusName(name);
      if a.get.Some? {
        return a.get;
      }
      if statusName !in statuses {
        if a.create.Some? {
          return a.create;
        }
        statuses := statuses[statusName := StatusObject(name, 1, EMPTY_STATUS)];
        if a.refetch.Some? {
          return a.refetch;
        }
      }
      var fetched := statuses[statusName];
      var copy := new StatusCopy(fetched.status);
      copy.Record(u, fetched.generation);
      if a.update.Some? {
        return a.update;
      }
      statuses := statuses[statusName := fetched.(status := copy.status)];
      return None;
    }

    /** The call has done what the reply says, and recorded it in that order. */
    twostate predicate Did(r: O.Reply<SecretBackend>, outcome: O.Outcome)
      reads this, backends, recorder
    {
      State() == r.world && outcome == r.outcome && recorder.events == old(recorder.events) + r.events
    }

    method SyncSingleEngine(
        name: string, bmcsOf: seq<BMC>, c: Creds, env: O.Env<SecretBackend>) returns (outcome: O.Outcome)
      requires Wired() && name in secrets && O.Available(State(), env)
      requires env.hasMultiEngine == Ok(false) && bmcsOf != []
      modifies this`statuses, backends, recorder
      ensures var d := O.Destination(env, false);
              if d.Err? then Did(O.Reply(old(State()), [], O.Outcome(O.REQUEUE_AFTER_ERROR, Some(d.error))), outcome)
              else Did(O.SyncTo(old(State()), name, d.value.0, bmcsOf, d.value.1, c, env), outcome)
    {
      if env.backend.Err? {
        return O.Outcome(O.REQUEUE_AFTER_ERROR, Some(env.backend.error));
      }
      if env.pathBuilder.Err? {
        return O.Outcome(O.REQUEUE_AFTER_ERROR, Some(env.pathBuilder.error));
      }
      if env.regionLabelKey.Err? {
        return O.Outcome(O.REQUEUE_AFTER_ERROR, Some(env.regionLabelKey.error));
      }
      var paths, good, bad := SyncDefault(
        env.backend.value, env.pathBuilder.value, bmcsOf, env.regionLabelKey.value, c, env.now, env.answers,
        secrets[name].uid, backends);
      var _ := UpdateStatus(name, SyncStatus.Update(paths, |bmcsOf|, good, bad, env.now), env.status);
      return O.Outcome(O.REQUEUE_AFTER_NORMAL, None);
    }

    method SyncMultiEngine(
        name: string, bmcsOf: seq<BMC>, c: Creds, env: O.Env<SecretBackend>) returns (outcome: O.Outcome)
      requires Wired() && name in secrets && O.Available(State(), env)
      requires env.hasMultiEngine == Ok(true) && bmcsOf != []
      modifies this`statuses, backends, recorder
      ensures var d := O.Destination(env, true);
              if d.Err? then Did(O.Reply(old(State()), [], O.Outcome(O.REQUEUE_AFTER_ERROR, Some(d.error))), outcome)
              else if d.value.0 == [] then
                Did(O.Reply(old(State()), [], O.Outcome(O.REQUEUE_AFTER_NORMAL, None)), outcome)
              else Did(O.SyncTo(old(State()), name, d.value.0, bmcsOf, d.value.1, c, env), outcome)
    {
      if env.regionLabelKey.Err? {
        return O.Outcome(O.REQUEUE_AFTER_ERROR, Some(env.regionLabelKey.error));
      }
      if env.engines.Err? {
        return O.Outcome(O.REQUEUE_AFTER_ERROR, Some(env.engines.error));
      }
      if |env.engines.value| == 0 {
        return O.Outcome(O.REQUEUE_AFTER_NORMAL, None);
      }
      var paths, good, bad := SyncEngines(
        env.engines.value, bmcsOf, env.regionLabelKey.value, c, env.now, env.answers, secrets[name].uid, backends,
        recorder);
      var _ := UpdateStatus(name, SyncStatus.Update(paths, |paths|, good, bad, env.now), env.status);
      return O.Outcome(O.REQUEUE_AFTER_NORMAL, None);
    }

    /** Everything after the finalizer is in place. */
    method Sync(name: string, env: O.Env<SecretBackend>) returns (outcome: O.Outcome)
      requires Wired() && name in secrets && O.Available(State(), env)
      modifies this`statuses, backends, recorder
      ensures Did(O.Sync(old(State()), name, env), outcome)
    {
      var found := FindBMCsForSecret(if env.list.Some? then Err(env.list.value) else Ok(bmcs), name);
      if found.Err? {
        return O.Outcome(O.REQUEUE_AFTER_ERROR, Some(found.error));
      }
      if |found.value| == 0 {
        return O.Outcome(O.REQUEUE_AFTER_NORMAL, None);
      }
      var creds := ExtractCredentials(secrets[name].data);
      if creds.Err? {
        return O.Outcome(O.REQUEUE_AFTER_ERROR, Some(creds.error));
      }
      if env.hasMultiEngine.Err? {
        return O.Outcome(O.REQUEUE_AFTER_ERROR, Some(env.hasMultiEngine.error));
      }
      if env.hasMultiEngine.value {
        outcome := SyncMultiEngine(name, found.value, creds.value, env);
      } else {
        outcome := SyncSingleEngine(name, found.value, creds.value, env);
      }
    }

    method RemoveFinalizer(name: string, env: O.Env<SecretBackend>) returns (outcome: O.Outcome)
      requires Wired() && name in secrets
      modifies this`secrets, recorder
      ensures Did(O.Release(old(State()), name, env), outcome)
    {
      var s := secrets[name];
      var err := Update(name, s.(finalizers := s.finalizers - {O.FINALIZER}), env.removeFinalizer, O.Released(s.uid));
      return O.Outcome(0, err);
    }

    method HandleDeletion(name: string, env: O.Env<SecretBackend>) returns (outcome: O.Outcome)
      requires Wired() && name in secrets && O.Available(State(), env)
      modifies this`secrets, this`statuses, backends, recorder
      ensures Did(O.HandleDeletion(old(State()), name, env), outcome)
      ensures O.FINALIZER in old(secrets)[name].finalizers ==>
                forall b :: b in backends ==>
                  b.deleteCalls == old(b.deleteCalls) + O.CleanupCalls(old(State()), name, env, b)
    {
      if O.FINALIZER !in secrets[name].finalizers {
        return O.DONE;
      }
      ghost var record, cleaned := recorder.events, O.CleanupEvents(State(), name, env);
      DeleteStatus(name, env);
      CleanBackend(name, env);
      ghost var r := O.Release(State(), name, env);
      outcome := RemoveFinalizer(name, env);
      InOrder(record, cleaned, r.events);
    }

    method DeleteStatus(name: string, env: O.Env<SecretBackend>)
      modifies this`statuses
      ensures statuses == O.WithoutStatus(old(State()), name, env)
    {
      if env.statusGet.None? && StatusName(name) in statuses {
        if env.statusDelete.None? {
          statuses := statuses - {StatusName(name)};
        }
      } else {
        assert StatusName(name) !in statuses ==> statuses - {StatusName(name)} == statuses;
      }
    }

    /** The lookups and the cleanup loop; a failed lookup ends it without touching a backend. */
    method CleanBackend(name: string, env: O.Env<SecretBackend>)
      requires Wired() && name in secrets && O.Available(State(), env)
      modifies backends, recorder
      ensures Snapshot(backends) == O.CleanedStores(old(State()), name, env)
      ensures recorder.events == old(recorder.events) + O.CleanupEvents(old(State()), name, env)
      ensures forall b :: b in backends ==>
                && b.deleteCalls == old(b.deleteCalls) + O.CleanupCalls(old(State()), name, env, b)
                && b.writeCalls == old(b.writeCalls)
    {
      if env.backend.Err? || env.pathBuilder.Err? || env.regionLabelKey.Err? {
        return;
      }
      var creds := ExtractCredentials(secrets[name].data);
      if creds.Err? {
        return;
      }
      var found := FindBMCsForSecret(if env.list.Some? then Err(env.list.value) else Ok(bmcs), name);
      if found.Err? {
        return;
      }
      DeleteSecrets(env.backend.value, env.pathBuilder.value, found.value, env.regionLabelKey.value,
                    creds.value.username, env.deletions, secrets[name].uid, backends);
    }

    method Finalize(name: string, env: O.Env<SecretBackend>) returns (outcome: O.Outcome)
      requires Wired() && name in secrets
      modifies this`secrets, recorder
      ensures Did(O.Finalize(old(State()), name, env), outcome)
    {
      var s := secrets[name];
      if O.FINALIZER !in s.finalizers {
        var err := Update(name, s.(finalizers := s.finalizers + {O.FINALIZER}), env.addFinalizer, O.Finalized(s.uid));
        return O.Outcome(0, err);
      }
      return O.DONE;
    }

    method Reconcile(name: string, env: O.Env<SecretBackend>) returns (outcome: O.Outcome)
      requires Wired() && O.Available(State(), env)
      modifies this`secrets, this`statuses, backends, recorder
      ensures Did(O.Reconcile(old(State()), name, env), outcome)
    {
      if env.get.Some? {
        return O.Outcome(0, env.get);
      }
      if name !in secrets {
        return O.DONE;
      }
      if env.syncLabel.Err? {
        return O.Outcome(O.REQUEUE_AFTER_ERROR, Some(env.syncLabel.error));
      }
      var s := secrets[name];
      if env.syncLabel.value != "" {
        if s.labels.None? || env.syncLabel.value !in s.labels.value || s.labels.value[env.syncLabel.value] == "" {
          return O.DONE;
        }
      }
      if s.deleting {
        outcome := HandleDeletion(name, env);
        return;
      }
      ghost var f, record := O.Finalize(State(), name, env), recorder.events;
      outcome := Finalize(name, env);
      if outcome.err.Some? {
        return;
      }
      ghost var r := O.Sync(f.world, name, env);
      outcome := Sync(name, env);
      InOrder(record, f.events, r.events);
    }
  }
}

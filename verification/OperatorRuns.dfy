/** Runs of the operator: users create, edit and delete secrets and BMCs come and go, while the
    operator reconciles in any order and with any faults. */
module OperatorRuns {
  import opened Wrappers
  import opened PathBuilder
  import opened MultiEngine
  import opened Resolver
  import opened SyncPass
  import opened Deletion
  import opened Operator

  /** A user may set any finalizers when creating a secret, and may change all but the operator's
      own afterwards. */
  datatype Action<!S> =
    | Create(name: string, labels: Labels, data: map<string, string>, finalizers: set<string>)
    | Edit(name: string, labels: Labels, data: map<string, string>, others: set<string>)
    | Delete(name: string)
    | ReplaceBMCs(bmcs: seq<BMC>)
    | Call(name: string, env: Env<S>)

  ghost predicate Possible<S>(w: World<S>, a: Action<S>) {
    a.Call? ==> Available(w, a.env)
  }

  function Edited(s: BMCSecret, labels: Labels, data: map<string, string>, others: set<string>): BMCSecret {
    s.(labels := labels, data := data,
       finalizers := others - {FINALIZER} + if FINALIZER in s.finalizers then {FINALIZER} else {})
  }

  function Step<S>(w: World<S>, a: Action<S>): (r: (World<S>, seq<Event<S>>))
    requires Possible(w, a)
  {
    match a
    case Create(name, labels, data, finalizers) =>
      if name in w.secrets then (w, [])
      else
        (w.(secrets := w.secrets[name := BMCSecret(w.nextUid, labels, data, false, finalizers)],
            nextUid := w.nextUid + 1),
         if FINALIZER in finalizers then [Finalized(w.nextUid)] else [])
    case Edit(name, labels, data, others) =>
      if name !in w.secrets then (w, [])
      else (w.(secrets := ApiUpdate(w.secrets, name, Edited(w.secrets[name], labels, data, others))), [])
    case Delete(name) =>
      if name !in w.secrets then (w, [])
      else (w.(secrets := ApiUpdate(w.secrets, name, w.secrets[name].(deleting := true))), [])
    case ReplaceBMCs(bmcs) => (w.(bmcs := bmcs), [])
    case Call(name, env) =>
      var r := Reconcile(w, name, env);
      (r.world, r.events)
  }

  /** The stores that exist never change: the factory always answers with one of them. */
  ghost predicate AllPossible<S>(w: World<S>, actions: seq<Action<S>>) {
    forall i :: 0 <= i < |actions| ==> Possible(w, actions[i])
  }

  lemma SyncKeepsStores<S>(w: World<S>, name: string, env: Env<S>)
    requires name in w.secrets && Available(w, env)
    ensures Sync(w, name, env).world.stores.Keys == w.stores.Keys
  {
  }

  lemma StepKeepsStores<S>(w: World<S>, a: Action<S>)
    requires Possible(w, a)
    ensures Step(w, a).0.stores.Keys == w.stores.Keys
  {
    if a.Call? && a.name in w.secrets {
      var f := Finalize(w, a.name, a.env);
      if f.outcome.err.None? {
        SyncKeepsStores(f.world, a.name, a.env);
      }
    }
  }

  /** The world after a sequence of actions, and everything recorded on the way. */
  function Run<S>(w: World<S>, actions: seq<Action<S>>): (r: (World<S>, seq<Event<S>>))
    requires AllPossible(w, actions)
    ensures r.0.stores.Keys == w.stores.Keys
  {
    if actions == [] then (w, [])
    else
      var n := |actions| - 1;
      var before := Run(w, actions[..n]);
      StepKeepsStores(before.0, actions[n]);
      var after := Step(before.0, actions[n]);
      (after.0, before.1 + after.1)
  }

  // ---------------------------------------------------------------- one call

  ghost predicate Live(secrets: map<string, BMCSecret>, uid: nat) {
    exists n :: n in secrets && secrets[n].uid == uid && FINALIZER in secrets[n].finalizers
  }

  /** The call leaves the API objects alone and records nothing. */
  ghost predicate Quiet<S>(w: World<S>, r: Reply<S>) {
    r.events == [] && r.world.secrets == w.secrets
  }

  ghost predicate AllRemoved<S>(uid: nat, events: seq<Event<S>>) {
    forall i :: 0 <= i < |events| ==> events[i].Removed? && events[i].uid == uid
  }

  /** The call cleans up a secret that is being deleted and, after the last delete, removes its
      finalizer. */
  ghost predicate Releases<S>(w: World<S>, name: string, r: Reply<S>)
    requires name in w.secrets
  {
    var s := w.secrets[name];
    && s.deleting && FINALIZER in s.finalizers
    && r.events != [] && r.events[|r.events| - 1] == Released(s.uid) && AllRemoved(s.uid, r.events[..|r.events| - 1])
    && r.world.secrets == ApiUpdate(w.secrets, name, s.(finalizers := s.finalizers - {FINALIZER}))
  }

  /** The call cleans up a secret that is being deleted and cannot remove its finalizer. */
  ghost predicate CleansOnly<S>(w: World<S>, name: string, r: Reply<S>)
    requires name in w.secrets
  {
    var s := w.secrets[name];
    && s.deleting && FINALIZER in s.finalizers && AllRemoved(s.uid, r.events) && r.world.secrets == w.secrets
  }

  /** The events of a sync: the finalizer first, if it was missing, and then writes only. */
  ghost predicate SyncEvents<S>(s: BMCSecret, events: seq<Event<S>>) {
    && (FINALIZER in s.finalizers || (events != [] && events[0] == Finalized(s.uid)))
    && forall i :: 0 <= i < |events| ==>
         || (events[i] == Finalized(s.uid) && i == 0 && FINALIZER !in s.finalizers)
         || (events[i].Wrote? && events[i].uid == s.uid)
  }

  /** The call puts the finalizer of a live secret in place and writes only after that. */
  ghost predicate Syncs<S>(w: World<S>, name: string, r: Reply<S>)
    requires name in w.secrets
  {
    var s := w.secrets[name];
    && !s.deleting && r.world.secrets == w.secrets[name := s.(finalizers := s.finalizers + {FINALIZER})]
    && SyncEvents(s, r.events)
  }

  lemma SyncWrites<S>(w: World<S>, name: string, env: Env<S>)
    requires name in w.secrets && Available(w, env)
    ensures var r := Sync(w, name, env);
            && r.world.secrets == w.secrets && r.world.bmcs == w.bmcs && r.world.nextUid == w.nextUid
            && forall i :: 0 <= i < |r.events| ==> r.events[i].Wrote? && r.events[i].uid == w.secrets[name].uid
  {
  }

  lemma DeletionShape<S>(w: World<S>, name: string, env: Env<S>)
    requires name in w.secrets && Available(w, env) && w.secrets[name].deleting
    ensures var r := HandleDeletion(w, name, env);
            && r.world.bmcs == w.bmcs && r.world.nextUid == w.nextUid
            && (Quiet(w, r) || Releases(w, name, r) || CleansOnly(w, name, r))
  {
    if FINALIZER in w.secrets[name].finalizers {
      var cleaned := CleanupEvents(w, name, env);
      assert AllRemoved(w.secrets[name].uid, cleaned);
      if env.removeFinalizer.Some? {
        assert cleaned + [] == cleaned;
      } else {
        assert (cleaned + [Released(w.secrets[name].uid)])[..|cleaned|] == cleaned;
      }
    }
  }

  lemma SyncShape<S>(w: World<S>, name: string, env: Env<S>)
    requires name in w.secrets && Available(w, env)
    ensures var r := Finalize(w, name, env);
            && r.world.bmcs == w.bmcs && r.world.nextUid == w.nextUid
            && (r.outcome.err.None? ==>
                  && name in r.world.secrets && r.world.secrets[name].uid == w.secrets[name].uid
                  && var all := r.(events := r.events + Sync(r.world, name, env).events);
                     Available(r.world, env) && (!w.secrets[name].deleting ==> Syncs(w, name, all)))
  {
    var s, r := w.secrets[name], Finalize(w, name, env);
    if FINALIZER in s.finalizers {
      assert s.finalizers + {FINALIZER} == s.finalizers;
      assert w.secrets[name := s] == w.secrets;
    }
    if r.outcome.err.None? {
      SyncWrites(r.world, name, env);
    }
  }

  lemma LiveShape<S>(w: World<S>, name: string, env: Env<S>)
    requires name in w.secrets && Available(w, env) && !w.secrets[name].deleting
    ensures var r := Reconcile(w, name, env);
            r.world.bmcs == w.bmcs && r.world.nextUid == w.nextUid && (Quiet(w, r) || Syncs(w, name, r))
  {
    SyncShape(w, name, env);
    var f := Finalize(w, name, env);
    if f.outcome.err.None? {
      SyncWrites(f.world, name, env);
    }
  }

  /** What one call does to the API objects and records: one of four shapes. */
  lemma {:induction false} CallShape<S>(w: World<S>, name: string, env: Env<S>)
    requires Available(w, env)
    ensures var r := Reconcile(w, name, env);
            && r.world.bmcs == w.bmcs && r.world.nextUid == w.nextUid
            && (Quiet(w, r)
                || (name in w.secrets && (Releases(w, name, r) || CleansOnly(w, name, r) || Syncs(w, name, r))))
  {
    if name in w.secrets {
      if w.secrets[name].deleting {
        DeletionShape(w, name, env);
        assert Reconcile(w, name, env) == HandleDeletion(w, name, env) || Quiet(w, Reconcile(w, name, env));
      } else {
        LiveShape(w, name, env);
      }
    }
  }

  /** The spot holds something that it did not hold before. */
  ghost predicate NewAt<S>(before: map<S, Store>, after: map<S, Store>, x: Spot<S>)
    requires x.0 in before && x.0 in after
  {
    x.1 in after[x.0] && (x.1 !in before[x.0] || after[x.0][x.1] != before[x.0][x.1])
  }

  ghost predicate GoneAt<S>(before: map<S, Store>, after: map<S, Store>, x: Spot<S>)
    requires x.0 in before && x.0 in after
  {
    x.1 in before[x.0] && x.1 !in after[x.0]
  }

  /** A call that adds or changes an entry records a write there, and one that removes an entry
      records a delete. */
  lemma ChangesAreRecorded<S>(w: World<S>, name: string, env: Env<S>, x: Spot<S>)
    requires Available(w, env) && x.0 in w.stores
    ensures var r := Reconcile(w, name, env);
            && x.0 in r.world.stores
            && (NewAt(w.stores, r.world.stores, x) ==> name in w.secrets && Wrote(w.secrets[name].uid, x) in r.events)
            && (GoneAt(w.stores, r.world.stores, x) ==>
                  name in w.secrets && w.secrets[name].deleting && Removed(w.secrets[name].uid, x) in r.events)
  {
    var r := Reconcile(w, name, env);
    if name in w.secrets {
      var s := w.secrets[name];
      if s.deleting {
        CleanupOnlyRemoves(w, name, env, x);
      } else {
        var w' := if FINALIZER in s.finalizers then w
                  else w.(secrets := ApiUpdate(w.secrets, name, s.(finalizers := s.finalizers + {FINALIZER})));
        SyncIsRecorded(w', name, env, x);
      }
    }
  }

  lemma CleanupOnlyRemoves<S>(w: World<S>, name: string, env: Env<S>, x: Spot<S>)
    requires name in w.secrets && Available(w, env) && x.0 in w.stores
    ensures var after := CleanedStores(w, name, env);
            && !NewAt(w.stores, after, x)
            && (GoneAt(w.stores, after, x) ==> Removed(w.secrets[name].uid, x) in CleanupEvents(w, name, env))
  {
    if LookupsSucceed(w.secrets[name], env) {
      CleanupRemoves(w.stores[env.backend.value], CleanupTargets(w, name, env), env.deletions);
      var removed := CleanupPass(w, name, env).removed;
      if x.0 == env.backend.value && x.1 in Elements(removed) {
        var i :| 0 <= i < |removed| && removed[i] == x.1;
        assert CleanupEvents(w, name, env)[i] == Removed(w.secrets[name].uid, x);
      }
    }
  }

  lemma {:induction false} SyncIsRecorded<S>(w: World<S>, name: string, env: Env<S>, x: Spot<S>)
    requires name in w.secrets && Available(w, env) && x.0 in w.stores
    ensures var r := Sync(w, name, env);
            && x.0 in r.world.stores
            && !GoneAt(w.stores, r.world.stores, x)
            && (NewAt(w.stores, r.world.stores, x) ==> Wrote(w.secrets[name].uid, x) in r.events)
  {
    var c := ExtractCredentials(w.secrets[name].data);
    if c.Ok? && env.hasMultiEngine.Ok? && Destination(env, env.hasMultiEngine.value).Ok? {
      var (engines, key) := Destination(env, env.hasMultiEngine.value).value;
      SyncToIsRecorded(w, name, engines, BMCsOf(w.bmcs, name), key, c.value, env, x);
    }
  }

  lemma SyncToIsRecorded<S>(
      w: World<S>, name: string, engines: seq<EngineBackend<S>>, bmcs: seq<BMC>, key: string, c: Creds, env: Env<S>,
      x: Spot<S>)
    requires name in w.secrets && x.0 in w.stores
    requires forall i :: 0 <= i < |engines| ==> engines[i].backend in w.stores
    ensures var r := SyncTo(w, name, engines, bmcs, key, c, env);
            && x.0 in r.world.stores
            && !GoneAt(w.stores, r.world.stores, x)
            && (NewAt(w.stores, r.world.stores, x) ==> Wrote(w.secrets[name].uid, x) in r.events)
  {
    var ts := Targets(engines, bmcs, key, c.username);
    TargetStores(w.stores, engines, bmcs, key, c.username);
    PassLands(w.stores, ts, c, env.now, env.answers);
    var landed := Pass(w.stores, ts, c, env.now, env.answers).landed;
    PutMember(w.stores, Elements(landed), SecretData(c), x);
    if x in Elements(landed) {
      var i :| 0 <= i < |landed| && landed[i] == x;
      assert WriteEvents(w.secrets[name].uid, landed)[i] == Wrote(w.secrets[name].uid, x);
    }
  }

  // ---------------------------------------------------------------- finalizer safety

  /** Live secrets have distinct identifiers, and only identifiers given out so far are in use. */
  ghost predicate Numbered<S>(secrets: map<string, BMCSecret>, nextUid: nat, trace: seq<Event<S>>) {
    && (forall n :: n in secrets ==> secrets[n].uid < nextUid)
    && (forall n, m :: n in secrets && m in secrets && secrets[n].uid == secrets[m].uid ==> n == m)
    && (forall e :: e in trace ==> e.uid < nextUid)
  }

  /** A live secret with the finalizer had it persisted and not released; a released one is being
      deleted; and a persisted finalizer is still there unless it was released. */
  ghost predicate Tracked<S>(secrets: map<string, BMCSecret>, trace: seq<Event<S>>) {
    && (forall n :: n in secrets && FINALIZER in secrets[n].finalizers ==>
          Finalized(secrets[n].uid) in trace && Released(secrets[n].uid) !in trace)
    && (forall n :: n in secrets && Released(secrets[n].uid) in trace ==> secrets[n].deleting)
    && (forall u: nat :: Finalized(u) in trace ==> Released(u) in trace || Live(secrets, u))
  }

  ghost predicate Sound<S>(w: World<S>, trace: seq<Event<S>>) {
    Numbered(w.secrets, w.nextUid, trace) && Tracked(w.secrets, trace)
  }

  /** Every write and every delete comes after the finalizer of its secret was persisted and before it
      was removed. */
  ghost predicate Covered<S>(trace: seq<Event<S>>) {
    forall i :: 0 <= i < |trace| && trace[i].Touches() ==>
      Finalized(trace[i].uid) in trace[..i] && Released(trace[i].uid) !in trace[..i]
  }

  lemma UpdateKeepsLive(secrets: map<string, BMCSecret>, name: string, s: BMCSecret, uid: nat)
    requires name in secrets && Live(secrets, uid)
    requires s.uid == secrets[name].uid && (FINALIZER in secrets[name].finalizers ==> FINALIZER in s.finalizers)
    ensures Live(ApiUpdate(secrets, name, s), uid)
  {
    var n :| n in secrets && secrets[n].uid == uid && FINALIZER in secrets[n].finalizers;
    assert n in ApiUpdate(secrets, name, s);
  }

  /** An edit or a deletion request keeps the state sound: it does not touch the finalizer. */
  lemma UserUpdateSound<S>(w: World<S>, trace: seq<Event<S>>, name: string, s: BMCSecret)
    requires Sound(w, trace) && name in w.secrets
    requires s.uid == w.secrets[name].uid && (FINALIZER in w.secrets[name].finalizers <==> FINALIZER in s.finalizers)
    requires w.secrets[name].deleting ==> s.deleting
    ensures Sound(w.(secrets := ApiUpdate(w.secrets, name, s)), trace)
  {
    forall u: nat | Finalized(u) in trace && Released(u) !in trace
      ensures Live(ApiUpdate(w.secrets, name, s), u)
    {
      UpdateKeepsLive(w.secrets, name, s, u);
    }
  }

  lemma CreateSound<S>(w: World<S>, trace: seq<Event<S>>, a: Action<S>)
    requires Sound(w, trace) && a.Create?
    ensures Sound(Step(w, a).0, trace + Step(w, a).1)
  {
    var r := Step(w, a);
    if a.name in w.secrets {
      assert trace + r.1 == trace;
    } else {
      NewSecretSound(w, trace, a.name, BMCSecret(w.nextUid, a.labels, a.data, false, a.finalizers));
    }
  }

  lemma NewSecretSound<S>(w: World<S>, trace: seq<Event<S>>, name: string, s: BMCSecret)
    requires Sound(w, trace) && name !in w.secrets && s.uid == w.nextUid && !s.deleting
    ensures Sound(w.(secrets := w.secrets[name := s], nextUid := w.nextUid + 1),
                  trace + if FINALIZER in s.finalizers then [Finalized(s.uid)] else [])
  {
    var more := if FINALIZER in s.finalizers then [Finalized(s.uid)] else [];
    assert forall e :: e in trace + more ==> e in trace || e == Finalized(s.uid);
    assert Finalized(s.uid) !in trace && Released(s.uid) !in trace;
    NewSecretTracked(w.secrets, trace, name, s, more);
  }

  lemma NewSecretTracked<S>(
      secrets: map<string, BMCSecret>, trace: seq<Event<S>>, name: string, s: BMCSecret, more: seq<Event<S>>)
    requires Tracked(secrets, trace) && name !in secrets && !s.deleting
    requires more == if FINALIZER in s.finalizers then [Finalized(s.uid)] else []
    requires Finalized(s.uid) !in trace && Released(s.uid) !in trace
    ensures Tracked(secrets[name := s], trace + more)
  {
    var after, trace' := secrets[name := s], trace + more;
    forall u: nat | Finalized(u) in trace' && Released(u) !in trace' ensures Live(after, u) {
      if u == s.uid {
        assert after[name].uid == u;
      } else {
        var n :| n in secrets && secrets[n].uid == u && FINALIZER in secrets[n].finalizers;
        assert n in after && after[n] == secrets[n];
      }
    }
  }

  lemma ReleaseSound<S>(w: World<S>, trace: seq<Event<S>>, name: string)
    requires Sound(w, trace) && name in w.secrets && w.secrets[name].deleting && FINALIZER in w.secrets[name].finalizers
    ensures var s := w.secrets[name];
            Sound(w.(secrets := ApiUpdate(w.secrets, name, s.(finalizers := s.finalizers - {FINALIZER}))),
                  trace + [Released(s.uid)])
  {
    var s := w.secrets[name];
    var after := ApiUpdate(w.secrets, name, s.(finalizers := s.finalizers - {FINALIZER}));
    assert forall n :: n in after ==> n in w.secrets && after[n].uid == w.secrets[n].uid;
    ReleaseTracked(w.secrets, after, trace, name);
  }

  lemma ReleaseTracked<S>(
      secrets: map<string, BMCSecret>, after: map<string, BMCSecret>, trace: seq<Event<S>>, name: string)
    requires Tracked(secrets, trace) && name in secrets && secrets[name].deleting
    requires forall n, m :: n in secrets && m in secrets && secrets[n].uid == secrets[m].uid ==> n == m
    requires forall n :: n in secrets && n != name ==> n in after && after[n] == secrets[n]
    requires forall n :: n in after && n != name ==> n in secrets
    requires name in after ==>
               after[name].deleting && after[name].uid == secrets[name].uid && FINALIZER !in after[name].finalizers
    ensures Tracked(after, trace + [Released(secrets[name].uid)])
  {
    var trace' := trace + [Released(secrets[name].uid)];
    assert Released(secrets[name].uid) in trace';
    forall u: nat | Finalized(u) in trace' && Released(u) !in trace' ensures Live(after, u) {
      var n :| n in secrets && secrets[n].uid == u && FINALIZER in secrets[n].finalizers;
      assert n in after && after[n] == secrets[n];
    }
  }

  lemma SyncSound<S>(w: World<S>, trace: seq<Event<S>>, name: string, events: seq<Event<S>>)
    requires Sound(w, trace) && name in w.secrets && !w.secrets[name].deleting
    requires SyncEvents(w.secrets[name], events)
    ensures var s := w.secrets[name];
            Sound(w.(secrets := w.secrets[name := s.(finalizers := s.finalizers + {FINALIZER})]), trace + events)
  {
    var s := w.secrets[name];
    var after := w.secrets[name := s.(finalizers := s.finalizers + {FINALIZER})];
    assert forall e :: e in events ==> e.uid == s.uid && !e.Released?;
    assert forall n :: n in after ==> n in w.secrets && after[n].uid == w.secrets[n].uid;
    SyncTracked(w.secrets, after, trace, name, events);
  }

  lemma SyncTracked<S>(
      secrets: map<string, BMCSecret>, after: map<string, BMCSecret>, trace: seq<Event<S>>, name: string,
      events: seq<Event<S>>)
    requires Tracked(secrets, trace) && name in secrets && !secrets[name].deleting
    requires forall n, m :: n in secrets && m in secrets && secrets[n].uid == secrets[m].uid ==> n == m
    requires after == secrets[name := secrets[name].(finalizers := secrets[name].finalizers + {FINALIZER})]
    requires FINALIZER in secrets[name].finalizers || Finalized(secrets[name].uid) in events
    requires forall e :: e in events ==> e.uid == secrets[name].uid && !e.Released?
    ensures Tracked(after, trace + events)
  {
    var trace' := trace + events;
    assert Finalized(secrets[name].uid) in trace' && Released(secrets[name].uid) !in trace;
    forall u: nat | Finalized(u) in trace' && Released(u) !in trace' ensures Live(after, u) {
      if u == secrets[name].uid {
        assert after[name].uid == u;
      } else {
        var n :| n in secrets && secrets[n].uid == u && FINALIZER in secrets[n].finalizers;
        assert n in after && after[n] == secrets[n];
      }
    }
  }

  lemma SyncCovered<S>(trace: seq<Event<S>>, uid: nat, events: seq<Event<S>>)
    requires Covered(trace) && Released(uid) !in trace
    requires Finalized(uid) in trace || events == [] || events[0] == Finalized(uid)
    requires forall i :: 0 <= i < |events| ==>
               (events[i] == Finalized(uid) && i == 0) || (events[i].Touches() && events[i].uid == uid)
    ensures Covered(trace + events)
  {
    var all := trace + events;
    forall i | 0 <= i < |all| && all[i].Touches()
      ensures Finalized(all[i].uid) in all[..i] && Released(all[i].uid) !in all[..i]
    {
      if i < |trace| {
        assert all[..i] == trace[..i];
      } else {
        var k := i - |trace|;
        assert all[..i] == trace + events[..k];
        assert Finalized(uid) !in trace ==> events[..k][0] == Finalized(uid);
      }
    }
  }

  lemma StepSound<S>(w: World<S>, trace: seq<Event<S>>, a: Action<S>)
    requires Possible(w, a) && Sound(w, trace) && Covered(trace)
    ensures Sound(Step(w, a).0, trace + Step(w, a).1) && Covered(trace + Step(w, a).1)
  {
    var r := Step(w, a);
    match a
    case Create(name, labels, data, finalizers) =>
      CreateSound(w, trace, a);
      CoveredAppend(trace, r.1);
    case Edit(name, labels, data, others) =>
      assert trace + r.1 == trace;
      if name in w.secrets {
        UserUpdateSound(w, trace, name, Edited(w.secrets[name], labels, data, others));
      }
    case Delete(name) =>
      assert trace + r.1 == trace;
      if name in w.secrets {
        UserUpdateSound(w, trace, name, w.secrets[name].(deleting := true));
      }
    case ReplaceBMCs(bmcs) =>
      assert trace + r.1 == trace;
    case Call(name, env) =>
      CallSound(w, trace, name, env);
  }

  lemma CoveredAppend<S>(trace: seq<Event<S>>, events: seq<Event<S>>)
    requires Covered(trace) && forall i :: 0 <= i < |events| ==> !events[i].Touches()
    ensures Covered(trace + events)
  {
    var all := trace + events;
    forall i | 0 <= i < |all| && all[i].Touches()
      ensures Finalized(all[i].uid) in all[..i] && Released(all[i].uid) !in all[..i]
    {
      assert all[..i] == trace[..i];
    }
  }

  lemma CallSound<S>(w: World<S>, trace: seq<Event<S>>, name: string, env: Env<S>)
    requires Available(w, env) && Sound(w, trace) && Covered(trace)
    ensures var r := Reconcile(w, name, env);
            Sound(r.world, trace + r.events) && Covered(trace + r.events)
  {
    var r := Reconcile(w, name, env);
    CallShape(w, name, env);
    if Quiet(w, r) {
      assert trace + r.events == trace;
    } else if name in w.secrets && w.secrets[name].deleting {
      DeletionSound(w, trace, name, r);
    } else {
      SyncSound(w, trace, name, r.events);
      SyncCovered(trace, w.secrets[name].uid, r.events);
    }
  }

  /** A cleanup call keeps the state sound, whether or not it releases the secret. */
  lemma DeletionSound<S>(w: World<S>, trace: seq<Event<S>>, name: string, r: Reply<S>)
    requires Sound(w, trace) && Covered(trace) && name in w.secrets
    requires Releases(w, name, r) || CleansOnly(w, name, r)
    requires r.world.nextUid == w.nextUid
    ensures Sound(r.world, trace + r.events) && Covered(trace + r.events)
  {
    var uid := w.secrets[name].uid;
    if CleansOnly(w, name, r) {
      RemovalsSound(w, trace, uid, r.events);
      SyncCovered(trace, uid, r.events);
    } else {
      var cleaned := r.events[..|r.events| - 1];
      assert r.events == cleaned + [Released(uid)];
      assert trace + r.events == (trace + cleaned) + [Released(uid)];
      RemovalsSound(w, trace, uid, cleaned);
      SyncCovered(trace, uid, cleaned);
      ReleaseSound(w, trace + cleaned, name);
      CoveredAppend(trace + cleaned, [Released(uid)]);
    }
  }

  lemma RemovalsSound<S>(w: World<S>, trace: seq<Event<S>>, uid: nat, events: seq<Event<S>>)
    requires Sound(w, trace) && uid < w.nextUid && AllRemoved(uid, events)
    ensures Sound(w, trace + events)
  {
    var trace' := trace + events;
    assert forall e :: e in events ==> e.Removed? && e.uid == uid;
    assert forall u: nat :: Finalized(u) in trace' <==> Finalized(u) in trace;
    assert forall u: nat :: Released(u) in trace' <==> Released(u) in trace;
  }

  lemma {:induction false} RunSound<S>(w: World<S>, actions: seq<Action<S>>)
    requires AllPossible(w, actions) && w.secrets == map[]
    ensures Sound(Run(w, actions).0, Run(w, actions).1) && Covered(Run(w, actions).1)
  {
    if actions != [] {
      var n := |actions| - 1;
      RunSound(w, actions[..n]);
      var (before, trace) := Run(w, actions[..n]);
      StepSound(before, trace, actions[n]);
    }
  }

  /** Over every run from a cluster without secrets: each write to a backend, and each delete from one,
      comes after the finalizer of its secret was persisted and before it was removed; and every record
      that the operator wrote belongs to a secret that is live and finalized, or was released by the
      deletion handler. */
  lemma {:induction false} FinalizerSafety<S>(w: World<S>, actions: seq<Action<S>>)
    requires AllPossible(w, actions) && w.secrets == map[]
    ensures Covered(Run(w, actions).1)
    ensures forall e :: e in Run(w, actions).1 && e.Wrote? ==>
              Released(e.uid) in Run(w, actions).1 || Live(Run(w, actions).0.secrets, e.uid)
  {
    RunSound(w, actions);
    var (after, trace) := Run(w, actions);
    forall e | e in trace && e.Wrote? ensures Released(e.uid) in trace || Live(after.secrets, e.uid) {
      var i :| 0 <= i < |trace| && trace[i] == e;
      assert Finalized(e.uid) in trace[..i];
      assert Finalized(e.uid) in trace;
    }
  }

  /** Every entry of a store that was not there at the start in the same form was written for a secret
      that is live and finalized, or that was released; and every entry that has gone was deleted. */
  lemma {:induction false} EntriesAccounted<S>(w: World<S>, actions: seq<Action<S>>, x: Spot<S>)
    requires AllPossible(w, actions) && w.secrets == map[] && x.0 in w.stores
    ensures var (after, trace) := Run(w, actions);
            && (NewAt(w.stores, after.stores, x) ==>
                  exists uid: nat :: Wrote(uid, x) in trace && (Released(uid) in trace || Live(after.secrets, uid)))
            && (GoneAt(w.stores, after.stores, x) ==> exists uid: nat :: Removed(uid, x) in trace)
  {
    FinalizerSafety(w, actions);
    EntriesWritten(w, actions, x);
  }

  lemma {:induction false} EntriesWritten<S>(w: World<S>, actions: seq<Action<S>>, x: Spot<S>)
    requires AllPossible(w, actions) && x.0 in w.stores
    ensures var (after, trace) := Run(w, actions);
            && (NewAt(w.stores, after.stores, x) ==> exists uid: nat :: Wrote(uid, x) in trace)
            && (GoneAt(w.stores, after.stores, x) ==> exists uid: nat :: Removed(uid, x) in trace)
  {
    if actions != [] {
      var n := |actions| - 1;
      EntriesWritten(w, actions[..n], x);
      var (before, trace) := Run(w, actions[..n]);
      if actions[n].Call? {
        ChangesAreRecorded(before, actions[n].name, actions[n].env, x);
      }
    }
  }

  /** A secret with the finalizer leaves the API, or loses the finalizer, only in a call that finds it
      being deleted and records its release. */
  lemma LeavesOnlyByRelease<S>(w: World<S>, a: Action<S>, name: string)
    requires Possible(w, a) && name in w.secrets && FINALIZER in w.secrets[name].finalizers
    ensures var r := Step(w, a);
            !(name in r.0.secrets && r.0.secrets[name].uid == w.secrets[name].uid
              && FINALIZER in r.0.secrets[name].finalizers) ==>
              a.Call? && a.name == name && w.secrets[name].deleting
              && r.1 != [] && r.1[|r.1| - 1] == Released(w.secrets[name].uid)
  {
    if a.Call? {
      CallShape(w, a.name, a.env);
    }
  }

  /** Exactly which steps make an object disappear: a user's delete or edit that finds or leaves no finalizer
      on it, and a call that removes the operator's finalizer, if that is the last one. */
  lemma DisappearsIff<S>(w: World<S>, a: Action<S>, name: string)
    requires Possible(w, a) && name in w.secrets
    ensures var s := w.secrets[name];
            name !in Step(w, a).0.secrets <==>
              || (a == Delete(name) && s.finalizers == {})
              || (a.Edit? && a.name == name && s.deleting && FINALIZER !in s.finalizers && a.others <= {FINALIZER})
              || (a.Call? && a.name == name && s.deleting && s.finalizers == {FINALIZER} && a.env.get.None?
                  && a.env.syncLabel.Ok? && Labelled(s, a.env.syncLabel.value) && a.env.removeFinalizer.None?)
  {
    if a.Call? && a.name in w.secrets {
      var f := Finalize(w, a.name, a.env);
      if f.outcome.err.None? {
        SyncWrites(f.world, a.name, a.env);
      }
    }
  }

  // ---------------------------------------------------------------- deletion

  /** Deletion is never blocked and never stops early: once a call reaches the handler of a secret that
      has the finalizer, the finalizer goes away exactly if the final update succeeds, whatever else
      fails, and otherwise the secret is untouched and the error is returned for a retry. If the lookups
      succeed, every path that can be built is tried, once per BMC and in order, and exactly those whose
      delete took effect are removed; otherwise nothing is tried and no store changes. */
  lemma DeletionNeverBlocked<S>(w: World<S>, name: string, env: Env<S>)
    requires Available(w, env) && name in w.secrets && w.secrets[name].deleting
             && FINALIZER in w.secrets[name].finalizers
    requires env.get.None? && env.syncLabel.Ok? && Labelled(w.secrets[name], env.syncLabel.value)
    ensures var r := Reconcile(w, name, env);
            && r.outcome == Outcome(0, env.removeFinalizer)
            && (env.removeFinalizer.Some? ==> r.world.secrets == w.secrets)
            && (env.removeFinalizer.None? ==>
                  && (name in r.world.secrets <==> w.secrets[name].finalizers != {FINALIZER})
                  && (name in r.world.secrets ==>
                        r.world.secrets[name] ==
                        w.secrets[name].(finalizers := w.secrets[name].finalizers - {FINALIZER}))
                  && r.world.secrets - {name} == w.secrets - {name})
            && r.world.stores ==
               if LookupsSucceed(w.secrets[name], env) then
                 w.stores[env.backend.value :=
                   w.stores[env.backend.value] - RemovedPaths(CleanupTargets(w, name, env), env.deletions)]
               else w.stores
    ensures forall b :: CleanupCalls(w, name, env, b) ==
              if LookupsSucceed(w.secrets[name], env) && b == env.backend.value then
                BuildablePaths(CleanupTargets(w, name, env))
              else []
  {
    if LookupsSucceed(w.secrets[name], env) {
      CleanupRemoves(w.stores[env.backend.value], CleanupTargets(w, name, env), env.deletions);
    }
  }

  /** A secret without the configured sync label is left exactly as it is, even when it is being
      deleted and holds the finalizer. Any other value of the label than the empty one will do. */
  lemma UnlabelledKeepsFinalizer<S>(w: World<S>, name: string, env: Env<S>, syncLabel: string)
    requires Available(w, env) && name in w.secrets && env.get.None? && env.syncLabel == Ok(syncLabel)
    requires w.secrets[name].deleting && FINALIZER in w.secrets[name].finalizers
    ensures var labels := w.secrets[name].labels;
            Reconcile(w, name, env) == Reply(w, [], Outcome(0, None)) <==>
              syncLabel != "" && (labels.None? || syncLabel !in labels.value || labels.value[syncLabel] == "")
  {
  }

  /** A call does nothing at all and asks for no other one exactly if there is no such secret, or it is passed
      over for its label, or it is being deleted and does not hold the operator's finalizer. */
  lemma IdleIff<S>(w: World<S>, name: string, env: Env<S>)
    requires Available(w, env)
    ensures Reconcile(w, name, env) == Reply(w, [], Outcome(0, None)) <==>
              && env.get.None?
              && (name in w.secrets ==>
                    var s := w.secrets[name];
                    && env.syncLabel.Ok?
                    && (|| (env.syncLabel.value != ""
                            && (s.labels.None? || env.syncLabel.value !in s.labels.value
                                || s.labels.value[env.syncLabel.value] == ""))
                        || (s.deleting && "bmcsecret.metal.ironcore.dev/backend-cleanup" !in s.finalizers)))
  {
    if name in w.secrets {
      var f := Finalize(w, name, env);
      if f.outcome.err.None? {
        SyncNeverDone(f.world, name, env);
      }
    }
  }

  /** A call passes over a secret that is not being deleted exactly if a sync label is configured and the
      secret has no labels, or not this one, or an empty value of it. */
  lemma SkippedIffUnlabelled<S>(w: World<S>, name: string, env: Env<S>, syncLabel: string)
    requires Available(w, env) && name in w.secrets && env.get.None? && env.syncLabel == Ok(syncLabel)
    requires !w.secrets[name].deleting
    ensures var labels := w.secrets[name].labels;
            Reconcile(w, name, env) == Reply(w, [], Outcome(0, None)) <==>
              syncLabel != "" && (labels.None? || syncLabel !in labels.value || labels.value[syncLabel] == "")
  {
    IdleIff(w, name, env);
  }

  lemma SyncNeverDone<S>(w: World<S>, name: string, env: Env<S>)
    requires name in w.secrets && Available(w, env)
    ensures Sync(w, name, env).outcome.requeueAfter > 0
  {
  }

  // ---------------------------------------------------------------- what a call returns

  /** The first getter that fails on the way to the targets, if any. */
  function GetterError<S>(env: Env<S>): Option<string> {
    if env.hasMultiEngine.Err? then Some(env.hasMultiEngine.error)
    else if env.hasMultiEngine.value then
      (if env.regionLabelKey.Err? then Some(env.regionLabelKey.error)
       else if env.engines.Err? then Some(env.engines.error) else None)
    else if env.backend.Err? then Some(env.backend.error)
    else if env.pathBuilder.Err? then Some(env.pathBuilder.error)
    else if env.regionLabelKey.Err? then Some(env.regionLabelKey.error)
    else None
  }

  lemma SyncOutcome<S>(w: World<S>, name: string, env: Env<S>)
    requires name in w.secrets && Available(w, env)
    ensures var o, data := Sync(w, name, env).outcome, w.secrets[name].data;
            && (env.list.Some? ==> o == Outcome(30, env.list))
            && (env.list.None? && BMCsOf(w.bmcs, name) == [] ==> o == Outcome(300, None))
            && (env.list.None? && BMCsOf(w.bmcs, name) != [] && ExtractCredentials(data).Err? ==>
                  o == Outcome(30, Some(ExtractCredentials(data).error)))
            && (env.list.None? && BMCsOf(w.bmcs, name) != [] && ExtractCredentials(data).Ok? ==>
                  o == if GetterError(env).Some? then Outcome(30, GetterError(env)) else Outcome(300, None))
  {
  }

  /** What a call for a secret that is not being deleted returns: an error that a lookup gave, to be retried
      soon, or nothing and another look in five minutes. What the backends and the status calls answer
      never fails a call, and no labelled secret is ever forgotten. */
  lemma LiveOutcome<S>(w: World<S>, name: string, env: Env<S>)
    requires Available(w, env) && name in w.secrets && !w.secrets[name].deleting
    ensures var o, s := Reconcile(w, name, env).outcome, w.secrets[name];
            && (env.get.Some? ==> o == Outcome(0, env.get))
            && (env.get.None? && env.syncLabel.Err? ==> o == Outcome(30, Some(env.syncLabel.error)))
            && (env.get.None? && env.syncLabel.Ok? && Labelled(s, env.syncLabel.value) ==>
                  && (o.err.Some? || o.requeueAfter == 300)
                  && (FINALIZER !in s.finalizers && env.addFinalizer.Some? ==> o == Outcome(0, env.addFinalizer))
                  && (FINALIZER in s.finalizers || env.addFinalizer.None? ==>
                        && (o.err.Some? ==> o.requeueAfter == 30)
                        && (o.err.Some? <==>
                              env.list.Some?
                              || (BMCsOf(w.bmcs, name) != []
                                  && (ExtractCredentials(s.data).Err? || GetterError(env).Some?)))))
  {
    var f := Finalize(w, name, env);
    if f.outcome.err.None? {
      SyncOutcome(f.world, name, env);
    }
  }

  // ---------------------------------------------------------------- what a cleanup removes

  /** The status of a secret goes when its finalizer is handled, unless one of the two calls for it fails. */
  lemma DeletionRemovesStatus<S>(w: World<S>, name: string, env: Env<S>)
    requires Available(w, env) && name in w.secrets && w.secrets[name].deleting
             && FINALIZER in w.secrets[name].finalizers
    requires env.get.None? && env.syncLabel.Ok? && Labelled(w.secrets[name], env.syncLabel.value)
    ensures Reconcile(w, name, env).world.statuses ==
            if env.statusGet.None? && env.statusDelete.None? then w.statuses - {name + "-sync-status"} else w.statuses
  {
  }

  /** Exactly which entries a cleanup removes, told by the lookups and the answers to the deletes. */
  lemma CleanupRemovesIff<S>(w: World<S>, name: string, c: Creds, env: Env<S>, x: Spot<S>)
    requires Available(w, env) && name in w.secrets && w.secrets[name].deleting
             && FINALIZER in w.secrets[name].finalizers
    requires env.get.None? && env.syncLabel.Ok? && Labelled(w.secrets[name], env.syncLabel.value)
    requires ExtractCredentials(w.secrets[name].data) == Ok(c) && x.0 in w.stores && x.1 in w.stores[x.0]
    ensures var r, bmcs := Reconcile(w, name, env), BMCsOf(w.bmcs, name);
            && x.0 in r.world.stores
            && (x.1 !in r.world.stores[x.0] <==>
                  && env.backend == Ok(x.0) && env.pathBuilder.Ok? && env.regionLabelKey.Ok? && env.list.None?
                  && exists i :: 0 <= i < |bmcs| && !env.deletions(i).Kept?
                       && BuildPath(env.pathBuilder.value,
                                    VariablesOf(bmcs[i], env.regionLabelKey.value, c.username)) == Ok(x.1))
  {
    if LookupsSucceed(w.secrets[name], env) {
      var b, t, key := env.backend.value, env.pathBuilder.value, env.regionLabelKey.value;
      CleanupRemoves(w.stores[b], CleanupTargets(w, name, env), env.deletions);
      RemovedPathIff(b, t, BMCsOf(w.bmcs, name), key, c.username, env.deletions, x.1);
    }
  }

  lemma RemovedPathIff<S>(
      backend: S, t: Template, bmcs: seq<BMC>, key: string, username: string, deletions: nat -> DeleteAnswer, p: string)
    ensures p in RemovedPaths(DeletionTargets(backend, t, bmcs, key, username), deletions) <==>
              exists i :: 0 <= i < |bmcs| && !deletions(i).Kept?
                && BuildPath(t, VariablesOf(bmcs[i], key, username)) == Ok(p)
  {
    var ts := DeletionTargets(backend, t, bmcs, key, username);
    EngineTargetAt(DefaultEngine(backend, t), bmcs, key, username);
    if i :| 0 <= i < |bmcs| && !deletions(i).Kept? && BuildPath(t, VariablesOf(bmcs[i], key, username)) == Ok(p) {
      assert ts[i].path == Ok(p);
    }
    if p in RemovedPaths(ts, deletions) {
      var i :| 0 <= i < |ts| && ts[i].path.Ok? && !deletions(i).Kept? && ts[i].path.value == p;
      assert BuildPath(t, VariablesOf(bmcs[i], key, username)) == Ok(p);
    }
  }

  /** The default paths of a secret in the default store, where the lookups of a call succeed. */
  ghost predicate CleanupTarget<S>(w: World<S>, name: string, env: Env<S>, x: Spot<S>)
    requires name in w.secrets
  {
    var c := ExtractCredentials(w.secrets[name].data);
    && env.backend == Ok(x.0) && env.pathBuilder.Ok? && env.regionLabelKey.Ok? && c.Ok?
    && exists b :: b in BMCsOf(w.bmcs, name)
         && BuildPath(env.pathBuilder.value, VariablesOf(b, env.regionLabelKey.value, c.value.username)) == Ok(x.1)
  }

  /** Cleanup touches the default store only, and only by removing paths that the default template
      builds for a BMC of the secret. */
  lemma CleanupFrame<S>(w: World<S>, name: string, env: Env<S>, x: Spot<S>)
    requires Available(w, env) && name in w.secrets && w.secrets[name].deleting && x.0 in w.stores
    ensures var r := Reconcile(w, name, env);
            && x.0 in r.world.stores
            && (Changed(w.stores, r.world.stores, x) ==> x.1 !in r.world.stores[x.0] && CleanupTarget(w, name, env, x))
  {
    if FINALIZER in w.secrets[name].finalizers {
      CleanedStoresFrame(w, name, env, x);
    }
  }

  lemma CleanedStoresFrame<S>(w: World<S>, name: string, env: Env<S>, x: Spot<S>)
    requires Available(w, env) && name in w.secrets && x.0 in w.stores
    ensures Changed(w.stores, CleanedStores(w, name, env), x) ==>
              x.1 !in CleanedStores(w, name, env)[x.0] && CleanupTarget(w, name, env, x)
  {
    var c := ExtractCredentials(w.secrets[name].data);
    if LookupsSucceed(w.secrets[name], env) {
      RemovedIsTarget(w.stores[env.backend.value], env.backend.value, env.pathBuilder.value, BMCsOf(w.bmcs, name),
                      env.regionLabelKey.value, c.value.username, env.deletions, x.1);
    }
  }

  lemma RemovedIsTarget<S>(store: Store, backend: S, t: Template, bmcs: seq<BMC>, key: string, username: string,
                           deletions: nat -> DeleteAnswer, p: string)
    ensures var after := DeletePass(store, DeletionTargets(backend, t, bmcs, key, username), deletions).store;
            && (p in after ==> p in store && after[p] == store[p])
            && (p in store && p !in after ==>
                  exists b :: b in bmcs && BuildPath(t, VariablesOf(b, key, username)) == Ok(p))
  {
    var ts := DeletionTargets(backend, t, bmcs, key, username);
    CleanupRemoves(store, ts, deletions);
    EngineTargetAt(DefaultEngine(backend, t), bmcs, key, username);
    if p in RemovedPaths(ts, deletions) {
      var i :| 0 <= i < |ts| && ts[i].path.Ok? && !deletions(i).Kept? && ts[i].path.value == p;
      assert bmcs[i] in bmcs;
    }
  }
}

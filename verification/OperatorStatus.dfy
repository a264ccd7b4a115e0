/** What the status resources say over whole runs of the operator, whatever fails. */
module OperatorStatus {
  import opened Wrappers
  import opened MultiEngine
  import opened Resolver
  import opened SyncPass
  import opened SyncStatus
  import opened Operator
  import opened OperatorRuns
  import OT = OperatorTheorems
  import T = SyncTheorems

  ghost predicate Reports(before: Status, after: Status, generation: int, u: Update) {
    AddsUp(u.backendPaths, u.total, u.successful, u.failed) && after == Updated(before, generation, u)
  }

  /** How a call may leave the status object `n`: as it was, newly created and still empty, or with what
      one pass reports, whose counts add up. */
  ghost predicate StatusFollows(before: map<string, StatusObject>, after: map<string, StatusObject>, n: string) {
    n in after ==>
      var st := if n in before then before[n].status else EMPTY_STATUS;
      || (n in before && after[n] == before[n])
      || (n !in before && after[n].status == EMPTY_STATUS)
      || (exists u: Update, generation: int :: Reports(st, after[n].status, generation, u))
  }

  lemma UpdateFollows(statuses: map<string, StatusObject>, name: string, u: Update, a: StatusAnswers, n: string)
    requires AddsUp(u.backendPaths, u.total, u.successful, u.failed)
    ensures StatusFollows(statuses, UpdateSyncStatus(statuses, name, u, a).0, n)
    ensures n != StatusName(name) ==>
              (n in statuses <==> n in UpdateSyncStatus(statuses, name, u, a).0)
              && (n in statuses ==> UpdateSyncStatus(statuses, name, u, a).0[n] == statuses[n])
  {
    var after := UpdateSyncStatus(statuses, name, u, a).0;
    if n == StatusName(name) && n in after && (n !in statuses || after[n] != statuses[n])
       && after[n].status != EMPTY_STATUS
    {
      var before := if n in statuses then statuses[n] else StatusObject(name, 1, EMPTY_STATUS);
      assert Reports(before.status, after[n].status, before.generation, u);
    }
  }

  /** A sync only reports when it had a target, and then its counts add up, in both modes. */
  lemma SyncToReports<S>(
      w: World<S>, name: string, engines: seq<EngineBackend<S>>, bmcs: seq<BMC>, key: string, c: Creds, env: Env<S>,
      n: string)
    requires name in w.secrets && engines != [] && bmcs != []
    requires env.hasMultiEngine == Ok(true) || |engines| == 1
    requires forall i :: 0 <= i < |engines| ==> engines[i].backend in w.stores
    ensures StatusFollows(w.statuses, SyncTo(w, name, engines, bmcs, key, c, env).world.statuses, n)
  {
    var ts := Targets(engines, bmcs, key, c.username);
    TargetStores(w.stores, engines, bmcs, key, c.username);
    TargetsLength(engines, bmcs, key, c.username);
    PassCounts(w.stores, ts, c, env.now, env.answers);
    var k := TargetAt(engines, bmcs, key, c.username, 0, 0);
    var p := Pass(w.stores, ts, c, env.now, env.answers);
    var total := if env.hasMultiEngine == Ok(true) then |p.entries| else |bmcs|;
    UpdateFollows(w.statuses, name, Update(p.entries, total, p.syncSuccess, p.syncErrors, env.now), env.status, n);
  }

  lemma SyncReports<S>(w: World<S>, name: string, env: Env<S>, n: string)
    requires name in w.secrets && Available(w, env)
    ensures StatusFollows(w.statuses, Sync(w, name, env).world.statuses, n)
  {
    var bmcs, c := BMCsOf(w.bmcs, name), ExtractCredentials(w.secrets[name].data);
    if env.list.None? && bmcs != [] && c.Ok? && env.hasMultiEngine.Ok? {
      var d := Destination(env, env.hasMultiEngine.value);
      if d.Ok? && d.value.0 != [] {
        SyncToReports(w, name, d.value.0, bmcs, d.value.1, c.value, env, n);
      }
    }
  }

  lemma CallReports<S>(w: World<S>, name: string, env: Env<S>, n: string)
    requires Available(w, env)
    ensures StatusFollows(w.statuses, Reconcile(w, name, env).world.statuses, n)
  {
    if name in w.secrets && !w.secrets[name].deleting {
      var s := w.secrets[name];
      if FINALIZER in s.finalizers {
        SyncReports(w, name, env, n);
      } else {
        var w' := w.(secrets := ApiUpdate(w.secrets, name, s.(finalizers := s.finalizers + {FINALIZER})));
        SyncReports(w', name, env, n);
      }
    }
  }

  lemma FollowsAddsUp(before: map<string, StatusObject>, after: map<string, StatusObject>, n: string)
    requires StatusFollows(before, after, n) && n in after && (n !in before || after[n] != before[n])
    ensures CountsAddUp(after[n].status) || (n !in before && after[n].status == EMPTY_STATUS)
  {
    var st := if n in before then before[n].status else EMPTY_STATUS;
    if u: Update, generation: int :| Reports(st, after[n].status, generation, u) {
      assert CountsAddUp(after[n].status);
    }
  }

  /** What any call, with any failures, does to the status objects: it removes some, and it leaves each
      of the others as it was, newly created and empty, or with the counts of one pass, which add up and
      count at least one path. */
  lemma ReportedCountsAddUp<S>(w: World<S>, name: string, env: Env<S>, n: string)
    requires Available(w, env)
    ensures var before, after := w.statuses, Reconcile(w, name, env).world.statuses;
            n in after ==>
              || (n in before && after[n] == before[n])
              || (n !in before && after[n].status == EMPTY_STATUS)
              || CountsAddUp(after[n].status)
  {
    CallReports(w, name, env, n);
    var before, after := w.statuses, Reconcile(w, name, env).world.statuses;
    if n in after && (n !in before || after[n] != before[n]) {
      FollowsAddsUp(before, after, n);
    }
  }

  // ---------------------------------------------------------------- what a success entry promises

  /** There is one entry for each target, and a success entry names the path of its target, which holds
      the password. */
  ghost predicate EntriesHold<S>(
      stores: map<S, Store>, ts: seq<Target<S>>, entries: seq<BackendPath>, password: string)
  {
    && |entries| == |ts|
    && forall k :: 0 <= k < |ts| && entries[k].success ==>
         ts[k].path == Ok(entries[k].path) && Right(stores, (ts[k].store, entries[k].path), password)
  }

  /** The status object is as it was, newly created and empty, or its entries hold. */
  ghost predicate EntriesFollow<S>(
      before: map<string, StatusObject>, after: World<S>, n: string, ts: seq<Target<S>>, password: string)
  {
    n in after.statuses ==>
      || (n in before && after.statuses[n] == before[n])
      || (n !in before && after.statuses[n].status == EMPTY_STATUS)
      || EntriesHold(after.stores, ts, after.statuses[n].status.backendPaths, password)
  }

  lemma PassEntriesHold<S>(stores: map<S, Store>, ts: seq<Target<S>>, c: Creds, time: int, answers: nat -> Answers)
    requires Known(stores, ts)
    ensures var p := Pass(stores, ts, c, time, answers);
            EntriesHold(p.stores, ts, p.entries, c.password)
  {
    var p := Pass(stores, ts, c, time, answers);
    PassCounts(stores, ts, c, time, answers);
    forall k | 0 <= k < |ts| && p.entries[k].success
      ensures ts[k].path == Ok(p.entries[k].path) && Right(p.stores, (ts[k].store, p.entries[k].path), c.password)
    {
      T.EntryHolds(stores, ts, c, time, answers, k);
    }
  }

  lemma UpdateStoresEntries(statuses: map<string, StatusObject>, name: string, u: Update, a: StatusAnswers)
    ensures var n, after := StatusName(name), UpdateSyncStatus(statuses, name, u, a).0;
            n in after ==>
              || (n in statuses && after[n] == statuses[n])
              || (n !in statuses && after[n].status == EMPTY_STATUS)
              || after[n].status.backendPaths == u.backendPaths
  {
  }

  lemma SyncToEntries<S>(
      w: World<S>, name: string, engines: seq<EngineBackend<S>>, bmcs: seq<BMC>, key: string, c: Creds, env: Env<S>)
    requires name in w.secrets && forall i :: 0 <= i < |engines| ==> engines[i].backend in w.stores
    ensures EntriesFollow(w.statuses, SyncTo(w, name, engines, bmcs, key, c, env).world, StatusName(name),
                          Targets(engines, bmcs, key, c.username), c.password)
  {
    var ts := Targets(engines, bmcs, key, c.username);
    TargetStores(w.stores, engines, bmcs, key, c.username);
    var p := Pass(w.stores, ts, c, env.now, env.answers);
    PassEntriesHold(w.stores, ts, c, env.now, env.answers);
    var total := if env.hasMultiEngine == Ok(true) then |p.entries| else |bmcs|;
    UpdateStoresEntries(w.statuses, name, Update(p.entries, total, p.syncSuccess, p.syncErrors, env.now), env.status);
  }

  lemma SyncEntries<S>(w: World<S>, name: string, c: Creds, env: Env<S>)
    requires name in w.secrets && Available(w, env) && ExtractCredentials(w.secrets[name].data) == Ok(c)
    ensures EntriesFollow(w.statuses, Sync(w, name, env).world, StatusName(name),
                          OT.CallTargets(w, name, env), c.password)
  {
    if env.list.None? && BMCsOf(w.bmcs, name) != [] && env.hasMultiEngine.Ok? {
      var d := Destination(env, env.hasMultiEngine.value);
      if d.Ok? && d.value.0 != [] {
        SyncToEntries(w, name, d.value.0, BMCsOf(w.bmcs, name), d.value.1, c, env);
      }
    }
  }

  /** After any call, whatever fails, what its secret's status says of success is true of the stores as they
      are then: unless the call left the status alone, or only created it, entry `k` belongs to target
      `k` of the call, and if it reports success the path of this target holds the current password. */
  lemma SuccessEntriesHold<S>(w: World<S>, name: string, c: Creds, env: Env<S>)
    requires name in w.secrets && !w.secrets[name].deleting && Available(w, env)
    requires ExtractCredentials(w.secrets[name].data) == Ok(c)
    ensures EntriesFollow(w.statuses, Reconcile(w, name, env).world, StatusName(name),
                          OT.CallTargets(w, name, env), c.password)
  {
    OT.FinalizedWorld(w, name, env);
    var f := Finalize(w, name, env);
    if f.outcome.err.None? {
      OT.CallTargetsStay(w, f.world, name, env);
      SyncEntries(f.world, name, c, env);
    }
  }

  // ---------------------------------------------------------------- a call reports all its targets

  /** The API answers all calls of a status update. */
  predicate StatusAnswered(a: StatusAnswers) {
    a.get.None? && a.create.None? && a.refetch.None? && a.update.None?
  }

  /** What the pass of a call reports. */
  function ReportOf<S>(stores: map<S, Store>, ts: seq<Target<S>>, c: Creds, env: Env<S>): Update
    requires Known(stores, ts)
  {
    var p := Pass(stores, ts, c, env.now, env.answers);
    Update(p.entries, |ts|, p.syncSuccess, p.syncErrors, env.now)
  }

  lemma ReportAddsUp<S>(stores: map<S, Store>, ts: seq<Target<S>>, c: Creds, env: Env<S>)
    requires Known(stores, ts) && ts != []
    ensures var u := ReportOf(stores, ts, c, env);
            AddsUp(u.backendPaths, u.total, u.successful, u.failed)
  {
    PassCounts(stores, ts, c, env.now, env.answers);
  }

  lemma SyncToReported<S>(
      w: World<S>, name: string, engines: seq<EngineBackend<S>>, bmcs: seq<BMC>, key: string, c: Creds, env: Env<S>)
    requires name in w.secrets && forall i :: 0 <= i < |engines| ==> engines[i].backend in w.stores
    requires StatusAnswered(env.status) && (env.hasMultiEngine == Ok(true) || |engines| == 1)
    ensures Known(w.stores, Targets(engines, bmcs, key, c.username))
    ensures var after := SyncTo(w, name, engines, bmcs, key, c, env).world.statuses;
            after == UpdateSyncStatus(
              w.statuses, name, ReportOf(w.stores, Targets(engines, bmcs, key, c.username), c, env), env.status).0
  {
    var ts := Targets(engines, bmcs, key, c.username);
    TargetStores(w.stores, engines, bmcs, key, c.username);
    TargetsLength(engines, bmcs, key, c.username);
    PassCounts(w.stores, ts, c, env.now, env.answers);
  }

  lemma SyncReported<S>(w: World<S>, name: string, c: Creds, env: Env<S>)
    requires name in w.secrets && Available(w, env) && ExtractCredentials(w.secrets[name].data) == Ok(c)
    requires env.list.None? && env.hasMultiEngine.Ok? && Destination(env, env.hasMultiEngine.value).Ok?
    requires StatusAnswered(env.status) && OT.CallTargets(w, name, env) != []
    ensures Known(w.stores, OT.CallTargets(w, name, env))
    ensures Sync(w, name, env).world.statuses ==
            UpdateSyncStatus(
              w.statuses, name, ReportOf(w.stores, OT.CallTargets(w, name, env), c, env), env.status).0
  {
    var (engines, key) := Destination(env, env.hasMultiEngine.value).value;
    var bmcs := BMCsOf(w.bmcs, name);
    OT.EmptyTargets(engines, bmcs, key, c.username);
    assert Sync(w, name, env) == SyncTo(w, name, engines, bmcs, key, c, env);
    SyncToReported(w, name, engines, bmcs, key, c, env);
  }

  /** A call that gets to its targets, of which there is one at least, and whose status update is answered
      leaves the report of its pass in the resource that is named after the secret: as many entries as
      targets, counts that add up, and a Synced condition that classifies them, which is the only one if
      there was at most one, classifying what was stored. */
  lemma CallReportsTargets<S>(w: World<S>, name: string, c: Creds, env: Env<S>)
    requires name in w.secrets && !w.secrets[name].deleting && Available(w, env)
    requires ExtractCredentials(w.secrets[name].data) == Ok(c) && OT.Reaches(w, name, env)
    requires OT.CallTargets(w, name, env) != [] && StatusAnswered(env.status)
    ensures Known(w.stores, OT.CallTargets(w, name, env))
    ensures var after, n := Reconcile(w, name, env).world.statuses, name + "-sync-status";
            var u := ReportOf(w.stores, OT.CallTargets(w, name, env), c, env);
            && n in after && Reported(after[n], u) && AddsUp(u.backendPaths, u.total, u.successful, u.failed)
            && u.total == |OT.CallTargets(w, name, env)| && u.now == env.now
            && (n !in w.statuses || Consistent(w.statuses[n].status) ==> OneSynced(after[n].status))
  {
    OT.FinalizedWorld(w, name, env);
    var f := Finalize(w, name, env);
    OT.CallTargetsStay(w, f.world, name, env);
    SyncReported(f.world, name, c, env);
    var u := ReportOf(w.stores, OT.CallTargets(w, name, env), c, env);
    ReportAddsUp(w.stores, OT.CallTargets(w, name, env), c, env);
    ReportLeavesOne(w.statuses, name, u, env.status);
  }

  ghost predicate OneSynced(st: Status) {
    exists i :: 0 <= i < |st.conditions| && OnlySynced(st.conditions, i)
  }

  ghost predicate OnlySynced(conditions: seq<Condition>, i: nat) {
    forall j :: 0 <= j < |conditions| ==> (conditions[j].kind == "Synced" <==> j == i)
  }

  lemma ReportLeavesOne(statuses: map<string, StatusObject>, name: string, u: Update, a: StatusAnswers)
    requires StatusAnswered(a) && AddsUp(u.backendPaths, u.total, u.successful, u.failed)
    ensures var after, n := UpdateSyncStatus(statuses, name, u, a).0, name + "-sync-status";
            && n in after && Reported(after[n], u)
            && (n !in statuses || Consistent(statuses[n].status) ==> OneSynced(after[n].status))
  {
    UpdateReports(statuses, name, u, a);
    var n := name + "-sync-status";
    var o := if n in statuses then statuses[n] else StatusObject(name, 1, EMPTY_STATUS);
    if Consistent(o.status) {
      UpdateKeepsConsistent(o.status, o.generation, u);
      ConsistentHasOne(Updated(o.status, o.generation, u));
    }
  }

  lemma ConsistentHasOne(st: Status)
    requires Consistent(st) && IndexOf(st.conditions, "Synced") < |st.conditions|
    ensures OneSynced(st)
  {
    var i := IndexOf(st.conditions, "Synced");
    TrueMeansAllSynced(st, i);
    assert OnlySynced(st.conditions, i);
  }

  /** Each entry of that report is about the target with its number, and is a success if and only if the
      work on it ended well. */
  lemma ReportedEntry<S>(stores: map<S, Store>, ts: seq<Target<S>>, c: Creds, env: Env<S>, k: nat)
    requires Known(stores, ts) && k < |ts|
    ensures var u, t := ReportOf(stores, ts, c, env), ts[k];
            var store := Pass(stores, ts[..k], c, env.now, env.answers).stores[t.store];
            && |u.backendPaths| == |ts|
            && var e := u.backendPaths[k];
               && (e.success <==> T.Succeeds(store, t.path, c.password, env.answers(k)))
               && e.path == (if t.path.Ok? then t.path.value else "") && e.bmcName == t.bmc
               && (e.region, e.hostname, e.username) == (t.vars.region, t.vars.hostname, t.vars.username)
               && e.lastSyncTime == env.now
  {
    T.EntrySucceedsIff(stores, ts, c, env.now, env.answers, k);
  }

  // ---------------------------------------------------------------- what the condition says, over all runs

  ghost predicate AllConsistent(statuses: map<string, StatusObject>) {
    forall n :: n in statuses ==> Consistent(statuses[n].status)
  }

  lemma FollowsKeepsConsistent(before: map<string, StatusObject>, after: map<string, StatusObject>, n: string)
    requires AllConsistent(before) && StatusFollows(before, after, n) && n in after
    ensures Consistent(after[n].status)
  {
    var st := if n in before then before[n].status else EMPTY_STATUS;
    if u: Update, generation: int :| Reports(st, after[n].status, generation, u) {
      UpdateKeepsConsistent(st, generation, u);
    }
  }

  /** Over every run, with any failures: if all status resources were consistent at the start, then
      whatever a Synced condition says is what the counts stored beside it say. It is true exactly if
      every one of the listed paths succeeded, and at least one path is listed. */
  lemma {:induction false} SyncedTellsTheTruth<S>(w: World<S>, actions: seq<Action<S>>, n: string, i: nat)
    requires AllPossible(w, actions) && AllConsistent(w.statuses)
    requires n in Run(w, actions).0.statuses && i < |Run(w, actions).0.statuses[n].status.conditions|
    requires Run(w, actions).0.statuses[n].status.conditions[i].kind == SYNCED
    ensures TellsTheTruth(Run(w, actions).0.statuses[n].status, i)
  {
    RunKeepsConsistent(w, actions);
    TrueMeansAllSynced(Run(w, actions).0.statuses[n].status, i);
  }

  lemma {:induction false} RunKeepsConsistent<S>(w: World<S>, actions: seq<Action<S>>)
    requires AllPossible(w, actions) && AllConsistent(w.statuses)
    ensures AllConsistent(Run(w, actions).0.statuses)
  {
    if actions != [] {
      var n := |actions| - 1;
      RunKeepsConsistent(w, actions[..n]);
      StepKeepsConsistent(Run(w, actions[..n]).0, actions[n]);
    }
  }

  lemma StepKeepsConsistent<S>(w: World<S>, a: Action<S>)
    requires Possible(w, a) && AllConsistent(w.statuses)
    ensures AllConsistent(Step(w, a).0.statuses)
  {
    if a.Call? {
      var after := Reconcile(w, a.name, a.env).world.statuses;
      forall n | n in after ensures Consistent(after[n].status) {
        CallReports(w, a.name, a.env, n);
        FollowsKeepsConsistent(w.statuses, after, n);
      }
    }
  }
}

/** The secret backend as an object: a store of records, the log of the calls made, and calls that
    answer as the environment decides. Several engines may hold the same object. An auxiliary recorder,
    shared by all backends, keeps the order of what takes effect. */
module Backend {
  import opened Wrappers
  import opened PathBuilder
  import opened MultiEngine
  import opened Resolver
  import opened SyncPass
  import opened Deletion
  import O = Operator

  class Recorder {
    ghost var events: seq<O.Event<SecretBackend>>

    constructor ()
      ensures events == []
    {
      events := [];
    }
  }

  class SecretBackend {
    var secrets: Store
    var writeCalls: seq<(string, Data)>
    var deleteCalls: seq<string>
    var readCalls: seq<string>
    var existsCalls: seq<string>
    const recorder: Recorder

    constructor (recorder: Recorder)
      ensures secrets == map[] && writeCalls == [] && deleteCalls == [] && readCalls == [] && existsCalls == []
      ensures this.recorder == recorder
    {
      secrets, writeCalls, deleteCalls, readCalls, existsCalls := map[], [], [], [], [];
      this.recorder := recorder;
    }

    /** A write that lands is recorded for the secret `uid`. */
    method WriteSecret(path: string, data: Data, answer: WriteAnswer, ghost uid: nat) returns (err: Option<string>)
      modifies this`secrets, this`writeCalls, recorder
      ensures recorder.events == old(recorder.events) + if answer.Lost? then [] else [O.Wrote(uid, (this, path))]
      ensures writeCalls == old(writeCalls) + [(path, data)]
      ensures secrets == if answer.Lost? then old(secrets) else old(secrets)[path := data]
      ensures err.None? <==> answer.Accepted?
    {
      writeCalls := writeCalls + [(path, data)];
      if answer.Lost? {
        return Some(answer.error);
      }
      secrets := secrets[path := data];
      recorder.events := recorder.events + [O.Wrote(uid, (this, path))];
      return if answer.Landed? then Some(answer.error) else None;
    }

    method ReadSecret(path: string, fault: Option<string>) returns (r: Result<Data>)
      modifies this`readCalls
      ensures readCalls == old(readCalls) + [path]
      ensures fault.Some? ==> r == Err(fault.value)
      ensures fault.None? && path in secrets ==> r == Ok(secrets[path])
      ensures fault.None? && path !in secrets ==> r.Err?
    {
      readCalls := readCalls + [path];
      if fault.Some? {
        return Err(fault.value);
      }
      if path !in secrets {
        return Err("secret not found at " + path);
      }
      return Ok(secrets[path]);
    }

    method SecretExists(path: string, fault: Option<string>) returns (r: Result<bool>)
      modifies this`existsCalls
      ensures existsCalls == old(existsCalls) + [path]
      ensures r == if fault.Some? then Err(fault.value) else Ok(path in secrets)
    {
      existsCalls := existsCalls + [path];
      if fault.Some? {
        return Err(fault.value);
      }
      return Ok(path in secrets);
    }

    /** A delete that takes effect is recorded for the secret `uid`. */
    method DeleteSecret(path: string, answer: DeleteAnswer, ghost uid: nat) returns (err: Option<string>)
      modifies this`secrets, this`deleteCalls, recorder
      ensures recorder.events == old(recorder.events) + if answer.Kept? then [] else [O.Removed(uid, (this, path))]
      ensures deleteCalls == old(deleteCalls) + [path]
      ensures secrets == if answer.Kept? then old(secrets) else old(secrets) - {path}
      ensures err.None? <==> answer.Deleted?
    {
      deleteCalls := deleteCalls + [path];
      if answer.Kept? {
        return Some(answer.error);
      }
      secrets := secrets - {path};
      recorder.events := recorder.events + [O.Removed(uid, (this, path))];
      return if answer.Gone? then Some(answer.error) else None;
    }
  }

  /** What all the given backends hold. */
  ghost function Snapshot(bs: set<SecretBackend>): map<SecretBackend, Store>
    reads bs`secrets
  {
    map b | b in bs :: b.secrets
  }

  method NeedsUpdateOf(backend: SecretBackend, path: string, password: string, a: Answers) returns (r: Result<bool>)
    modifies backend`readCalls, backend`existsCalls
    ensures r == NeedsUpdate(backend.secrets, path, password, a)
    ensures backend.existsCalls == old(backend.existsCalls) + [path]
    ensures backend.readCalls ==
            old(backend.readCalls) + if a.exists_.None? && path in backend.secrets then [path] else []
  {
    var exists_ := backend.SecretExists(path, a.exists_);
    if exists_.Err? {
      return Err(exists_.error);
    }
    if !exists_.value {
      return Ok(true);
    }
    var current := backend.ReadSecret(path, a.read);
    if current.Err? {
      return Err(current.error);
    }
    if "password" !in current.value || current.value["password"].NotString? {
      return Ok(true);
    }
    return Ok(current.value["password"].s != password);
  }

  /** What the work on one target adds to the record. */
  function LandingEvents<S>(uid: nat, t: Target<S>, ending: Ending): seq<O.Event<S>>
    requires ending.Lands() ==> t.path.Ok?
  {
    if ending.Lands() then [O.Wrote(uid, (t.store, t.path.value))] else []
  }

  /** The body of the loop over BMCs: build, check, write, record. */
  method SyncTarget(e: EngineBackend<SecretBackend>, bmc: BMC, key: string, c: Creds, time: int, a: Answers,
                    ghost uid: nat, ghost bs: set<SecretBackend>)
    returns (entry: BackendPath, success: bool)
    requires e.backend in bs
    modifies e.backend, e.backend.recorder
    ensures var t := TargetOf(e, bmc, key, c.username);
            var ending := EndingOf(old(Snapshot(bs)), t, c, a);
            && success == ending.Success() && entry == EntryOf(t, time, success)
            && Snapshot(bs) == Effect(old(Snapshot(bs)), t, c, a)
            && e.backend.recorder.events == old(e.backend.recorder.events) + LandingEvents(uid, t, ending)
            && e.backend.writeCalls ==
               old(e.backend.writeCalls) + (if ending.Attempts() then [(t.path.value, SecretData(c))] else [])
            && e.backend.deleteCalls == old(e.backend.deleteCalls)
            && e.backend.existsCalls == old(e.backend.existsCalls) + (if t.path.Ok? then [t.path.value] else [])
            && e.backend.readCalls == old(e.backend.readCalls) +
               if t.path.Ok? && a.exists_.None? && t.path.value in old(e.backend.secrets) then [t.path.value] else []
  {
    var region := RegionOf(bmc, key);
    var hostname := HostnameOf(bmc);
    var path := Build(e.pathBuilder, PathVariables(region, hostname, c.username));
    if path.Err? {
      return BackendPath("", bmc.name, region, hostname, c.username, time, false), false;
    }
    var needsUpdate := NeedsUpdateOf(e.backend, path.value, c.password, a);
    if needsUpdate.Err? {
      return BackendPath(path.value, bmc.name, region, hostname, c.username, time, false), false;
    }
    if !needsUpdate.value {
      return BackendPath(path.value, bmc.name, region, hostname, c.username, time, true), true;
    }
    var err := e.backend.WriteSecret(path.value, SecretData(c), a.write, uid);
    if err.Some? {
      return BackendPath(path.value, bmc.name, region, hostname, c.username, time, false), false;
    }
    return BackendPath(path.value, bmc.name, region, hostname, c.username, time, true), true;
  }

  /** What a loop began with: the stores, the record, and the secret it works for. */
  datatype Start<!S> = Start(
    stores: map<S, Store>, record: seq<O.Event<S>>, uid: nat, c: Creds, time: int, answers: nat -> Answers)

  /** What a loop has built so far is the pass over the targets done, and the record has grown by what
      landed. */
  ghost predicate Matches<S>(
      start: Start<S>, now: map<S, Store>, record: seq<O.Event<S>>, done: seq<Target<S>>, entries: seq<BackendPath>,
      syncSuccess: int, syncErrors: int)
  {
    && Known(start.stores, done)
    && var r := Pass(start.stores, done, start.c, start.time, start.answers);
       && now == r.stores && entries == r.entries && |entries| == |done|
       && syncSuccess == r.syncSuccess && syncErrors == r.syncErrors
       && record == start.record + O.WriteEvents(start.uid, r.landed)
  }

  lemma MatchesOneMore<S>(
      start: Start<S>, now: map<S, Store>, record: seq<O.Event<S>>, done: seq<Target<S>>, entries: seq<BackendPath>,
      syncSuccess: int, syncErrors: int, t: Target<S>)
    requires Matches(start, now, record, done, entries, syncSuccess, syncErrors) && t.store in now
    ensures var a := start.answers(|entries|);
            var ending := EndingOf(now, t, start.c, a);
            var success := ending.Success();
            Matches(start, Effect(now, t, start.c, a), record + LandingEvents(start.uid, t, ending), done + [t],
                    entries + [EntryOf(t, start.time, success)],
                    if success then syncSuccess + 1 else syncSuccess, if success then syncErrors else syncErrors + 1)
  {
    assert (done + [t])[..|done|] == done;
    var ending := EndingOf(now, t, start.c, start.answers(|entries|));
    var landed := Pass(start.stores, done, start.c, start.time, start.answers).landed;
    var more := if ending.Lands() then [(t.store, t.path.value)] else [];
    assert O.WriteEvents(start.uid, landed + more) ==
           O.WriteEvents(start.uid, landed) + LandingEvents(start.uid, t, ending);
  }

  lemma MatchesNext<S>(
      start: Start<S>, now: map<S, Store>, record: seq<O.Event<S>>, done: seq<Target<S>>, e: EngineBackend<S>,
      bmcs: seq<BMC>, b: nat, key: string, entries: seq<BackendPath>, syncSuccess: int, syncErrors: int)
    requires b < |bmcs| && e.backend in now
    requires Matches(start, now, record, done + EngineTargets(e, bmcs[..b], key, start.c.username), entries,
                     syncSuccess, syncErrors)
    ensures var t, a := TargetOf(e, bmcs[b], key, start.c.username), start.answers(|entries|);
            var ending := EndingOf(now, t, start.c, a);
            var success := ending.Success();
            Matches(start, Effect(now, t, start.c, a), record + LandingEvents(start.uid, t, ending),
                    done + EngineTargets(e, bmcs[..b + 1], key, start.c.username),
                    entries + [EntryOf(t, start.time, success)],
                    if success then syncSuccess + 1 else syncSuccess, if success then syncErrors else syncErrors + 1)
  {
    var username := start.c.username;
    var sofar, t := done + EngineTargets(e, bmcs[..b], key, username), TargetOf(e, bmcs[b], key, username);
    MatchesOneMore(start, now, record, sofar, entries, syncSuccess, syncErrors, t);
    EngineTargetsOneMore(e, bmcs, b, key, username);
    assert sofar + [t] == done + EngineTargets(e, bmcs[..b + 1], key, username);
  }

  /** The loop over BMCs for one engine, continuing the status list and the counters. */
  method SyncEngine(
      e: EngineBackend<SecretBackend>, bmcs: seq<BMC>, key: string, c: Creds, time: int, answers: nat -> Answers,
      entries: seq<BackendPath>, good: int, bad: int, ghost bs: set<SecretBackend>,
      ghost start: Start<SecretBackend>, ghost done: seq<Target<SecretBackend>>)
    returns (backendPaths: seq<BackendPath>, syncSuccess: int, syncErrors: int)
    requires e.backend in bs && start.c == c && start.time == time && start.answers == answers
    requires Matches(start, Snapshot(bs), e.backend.recorder.events, done, entries, good, bad)
    modifies e.backend, e.backend.recorder
    ensures Matches(start, Snapshot(bs), e.backend.recorder.events, done + EngineTargets(e, bmcs, key, c.username),
                    backendPaths, syncSuccess, syncErrors)
  {
    backendPaths, syncSuccess, syncErrors := entries, good, bad;
    assert done + EngineTargets(e, bmcs[..0], key, c.username) == done;
    for b := 0 to |bmcs|
      invariant Matches(start, Snapshot(bs), e.backend.recorder.events,
                        done + EngineTargets(e, bmcs[..b], key, c.username), backendPaths, syncSuccess, syncErrors)
    {
      MatchesNext(start, Snapshot(bs), e.backend.recorder.events, done, e, bmcs, b, key, backendPaths, syncSuccess,
                  syncErrors);
      var entry, success := SyncTarget(e, bmcs[b], key, c, time, answers(|backendPaths|), start.uid, bs);
      backendPaths := backendPaths + [entry];
      if success {
        syncSuccess := syncSuccess + 1;
      } else {
        syncErrors := syncErrors + 1;
      }
    }
    assert bmcs[..|bmcs|] == bmcs;
  }

  lemma EngineTargetsOneMore<S>(e: EngineBackend<S>, bmcs: seq<BMC>, b: nat, key: string, username: string)
    requires b < |bmcs|
    ensures EngineTargets(e, bmcs[..b + 1], key, username) ==
            EngineTargets(e, bmcs[..b], key, username) + [TargetOf(e, bmcs[b], key, username)]
  {
    assert bmcs[..b + 1][..b] == bmcs[..b];
  }

  /** All backends write to the same record. */
  ghost predicate Share(bs: set<SecretBackend>, recorder: Recorder) {
    forall b :: b in bs ==> b.recorder == recorder
  }

  /** The loop over engines around the loop over BMCs. */
  method SyncEngines(engines: seq<EngineBackend<SecretBackend>>, bmcs: seq<BMC>, key: string, c: Creds, time: int,
                     answers: nat -> Answers, ghost uid: nat, ghost bs: set<SecretBackend>, ghost recorder: Recorder)
    returns (backendPaths: seq<BackendPath>, syncSuccess: int, syncErrors: int)
    requires Share(bs, recorder) && forall i :: 0 <= i < |engines| ==> engines[i].backend in bs
    modifies bs, recorder
    ensures Matches(Start(old(Snapshot(bs)), old(recorder.events), uid, c, time, answers), Snapshot(bs),
                    recorder.events, Targets(engines, bmcs, key, c.username), backendPaths, syncSuccess, syncErrors)
  {
    backendPaths, syncSuccess, syncErrors := [], 0, 0;
    ghost var start := Start(Snapshot(bs), recorder.events, uid, c, time, answers);
    for i := 0 to |engines|
      invariant Matches(start, Snapshot(bs), recorder.events, Targets(engines[..i], bmcs, key, c.username),
                        backendPaths, syncSuccess, syncErrors)
    {
      backendPaths, syncSuccess, syncErrors :=
        SyncEngine(engines[i], bmcs, key, c, time, answers, backendPaths, syncSuccess, syncErrors,
                   bs, start, Targets(engines[..i], bmcs, key, c.username));
      assert engines[..i + 1][..i] == engines[..i];
    }
    assert engines[..|engines|] == engines;
  }

  /** The single-engine loop: the loop over BMCs with the default backend. */
  method SyncDefault(backend: SecretBackend, pathBuilder: Template, bmcs: seq<BMC>, key: string, c: Creds, time: int,
                     answers: nat -> Answers, ghost uid: nat, ghost bs: set<SecretBackend>)
    returns (backendPaths: seq<BackendPath>, syncSuccess: int, syncErrors: int)
    requires backend in bs
    modifies backend, backend.recorder
    ensures Matches(Start(old(Snapshot(bs)), old(backend.recorder.events), uid, c, time, answers), Snapshot(bs),
                    backend.recorder.events, Targets([DefaultEngine(backend, pathBuilder)], bmcs, key, c.username),
                    backendPaths, syncSuccess, syncErrors)
  {
    var e := DefaultEngine(backend, pathBuilder);
    ghost var ts := EngineTargets(e, bmcs, key, c.username);
    backendPaths, syncSuccess, syncErrors :=
      SyncEngine(e, bmcs, key, c, time, answers, [], 0, 0, bs,
                 Start(Snapshot(bs), backend.recorder.events, uid, c, time, answers), []);
    assert [e][..0] == [];
    assert [] + ts == ts == Targets([e], bmcs, key, c.username);
  }

  /** The cleanup loop: every path that can be built is deleted, and a failed delete is skipped. */
  method DeleteSecrets(backend: SecretBackend, pathBuilder: Template, bmcs: seq<BMC>, key: string, username: string,
                       deletions: nat -> DeleteAnswer, ghost uid: nat, ghost bs: set<SecretBackend>)
    requires backend in bs
    modifies backend, backend.recorder
    ensures var ts := DeletionTargets(backend, pathBuilder, bmcs, key, username);
            var r := DeletePass(old(backend.secrets), ts, deletions);
            && Snapshot(bs) == old(Snapshot(bs))[backend := r.store]
            && backend.deleteCalls == old(backend.deleteCalls) + r.tried
            && backend.recorder.events == old(backend.recorder.events) + O.RemoveEvents(uid, backend, r.removed)
            && backend.writeCalls == old(backend.writeCalls)
  {
    ghost var e := DefaultEngine(backend, pathBuilder);
    ghost var before, record := backend.secrets, backend.recorder.events;
    assert DeletedSoFar(before, e, bmcs, 0, key, username, deletions) == DeleteState(before, [], []);
    for b := 0 to |bmcs|
      invariant var r := DeletedSoFar(before, e, bmcs, b, key, username, deletions);
                && backend.secrets == r.store && backend.deleteCalls == old(backend.deleteCalls) + r.tried
                && backend.recorder.events == record + O.RemoveEvents(uid, backend, r.removed)
      invariant backend.writeCalls == old(backend.writeCalls)
    {
      DeleteOneMore(before, e, bmcs, b, key, username, deletions);
      ghost var r := DeletedSoFar(before, e, bmcs, b, key, username, deletions);
      var path := Build(pathBuilder, PathVariables(RegionOf(bmcs[b], key), HostnameOf(bmcs[b]), username));
      if path.Ok? {
        var _ := backend.DeleteSecret(path.value, deletions(b), uid);
        RemoveEventsGrow(uid, backend, r.removed, path.value);
      }
    }
    assert bmcs[..|bmcs|] == bmcs;
  }

  lemma RemoveEventsGrow<S>(uid: nat, backend: S, paths: seq<string>, p: string)
    ensures O.RemoveEvents(uid, backend, paths + [p]) ==
            O.RemoveEvents(uid, backend, paths) + [O.Removed(uid, (backend, p))]
    ensures O.RemoveEvents(uid, backend, paths + []) == O.RemoveEvents(uid, backend, paths)
  {
    assert paths + [] == paths;
  }

  ghost function DeletedSoFar<S>(
      store: Store, e: EngineBackend<S>, bmcs: seq<BMC>, b: nat, key: string, username: string,
      deletions: nat -> DeleteAnswer): DeleteState
    requires b <= |bmcs|
  {
    DeletePass(store, EngineTargets(e, bmcs[..b], key, username), deletions)
  }

  lemma DeleteOneMore<S>(
      store: Store, e: EngineBackend<S>, bmcs: seq<BMC>, b: nat, key: string, username: string,
      deletions: nat -> DeleteAnswer)
    requires b < |bmcs|
    ensures var before := DeletedSoFar(store, e, bmcs, b, key, username, deletions);
            var path := TargetOf(e, bmcs[b], key, username).path;
            DeletedSoFar(store, e, bmcs, b + 1, key, username, deletions) ==
            if path.Err? then before else DeleteOne(before, path.value, deletions(b))
  {
    EngineTargetsOneMore(e, bmcs, b, key, username);
    EngineTargetAt(e, bmcs[..b], key, username);
    var ts, t := EngineTargets(e, bmcs[..b], key, username), TargetOf(e, bmcs[b], key, username);
    assert (ts + [t])[..b] == ts;
  }
}

/** What a synchronisation pass guarantees: its closed form, minimal writes, a sound status list,
    isolation between engines, and convergence of interleaved work on several secrets. */
module SyncTheorems {
  import opened Wrappers
  import opened PathBuilder
  import opened MultiEngine
  import opened Resolver
  import opened SyncPass

  // ---------------------------------------------------------------- one pass

  /** A fault-free pass is one update: every target that is missing or has the wrong password
      becomes the new record, and everything else keeps its value. */
  lemma ClosedForm<S>(stores: map<S, Store>, ts: seq<Target<S>>, c: Creds, time: int, answers: nat -> Answers)
    requires Known(stores, ts)
    requires AllFaultFree(answers, |ts|)
    ensures var r := Pass(stores, ts, c, time, answers);
            && r.stores == Put(stores, Wrong(stores, Spots(ts), c.password), SecretData(c))
            && Elements(r.landed) == Wrong(stores, Spots(ts), c.password)
            && |r.landed| == |Wrong(stores, Spots(ts), c.password)|
  {
    PassLands(stores, ts, c, time, answers);
    FaultFreeLands(stores, ts, c, time, answers);
    LandedOnAll(stores, Pass(stores, ts, c, time, answers), Spots(ts), c);
  }

  lemma LandedOnAll<S>(stores: map<S, Store>, st: PassState<S>, spots: set<Spot<S>>, c: Creds)
    requires Tracks(stores, st, spots, c)
    requires Wrong(stores, spots, c.password) <= Elements(st.landed)
    ensures Elements(st.landed) == Wrong(stores, spots, c.password)
    ensures st.stores == Put(stores, Wrong(stores, spots, c.password), SecretData(c))
    ensures |st.landed| == |Wrong(stores, spots, c.password)|
  {
    DistinctSize(st.landed);
  }

  lemma {:induction false} DistinctSize<T>(xs: seq<T>)
    requires Distinct(xs)
    ensures |Elements(xs)| == |xs|
  {
    if xs == [] {
      assert Elements(xs) == {};
    } else {
      var n := |xs| - 1;
      DistinctSize(xs[..n]);
      ElementsAppend(xs[..n], xs[n]);
      assert xs == xs[..n] + [xs[n]];
      assert xs[n] !in Elements(xs[..n]);
    }
  }

  /** Where the default template sends the credentials for a BMC. */
  lemma DefaultTargetPath<S>(e: EngineBackend<S>, b: BMC, key: string, username: string, region: string, host: string)
    requires e.pathBuilder == DEFAULT_TEMPLATE
    requires if b.labels.Some? && key in b.labels.value && b.labels.value[key] != "" then region == b.labels.value[key]
             else region == "unknown"
    requires if b.hostname.Some? && b.hostname.value != "" then host == b.hostname.value
             else if b.endpointRef.Some? && b.endpointRef.value != "" then host == b.endpointRef.value
             else host == b.name
    ensures var t := TargetOf(e, b, key, username);
            && t.store == e.backend && t.bmc == b.name && t.vars == PathVariables(region, host, username)
            && t.path == Ok("bmc/" + region + "/" + host + "/" + username)
  {
    RegionPart(b, key);
    if host != "" {
      HostPart(b, host);
    }
    DefaultPath(PathVariables(region, host, username));
  }

  /** Some engine with some BMC has the spot as its target. */
  ghost predicate Builds<S>(engines: seq<EngineBackend<S>>, bmcs: seq<BMC>, key: string, username: string, x: Spot<S>) {
    exists e, b :: e in engines && b in bmcs && x in SpotOf(TargetOf(e, b, key, username))
  }

  /** The spots of all engines with all BMCs do not depend on the order of either list. */
  lemma SpotsOfEngines<S>(engines: seq<EngineBackend<S>>, bmcs: seq<BMC>, key: string, username: string, x: Spot<S>)
    ensures x in Spots(Targets(engines, bmcs, key, username)) <==> Builds(engines, bmcs, key, username, x)
  {
    var ts := Targets(engines, bmcs, key, username);
    SpotsMember(ts, x);
    if x in Spots(ts) {
      var k :| 0 <= k < |ts| && x in SpotOf(ts[k]);
      TargetsLength(engines, bmcs, key, username);
      var i, b := SplitIndex(k, |engines|, |bmcs|);
      var _ := TargetAt(engines, bmcs, key, username, i, b);
      assert engines[i] in engines && bmcs[b] in bmcs;
    }
    if Builds(engines, bmcs, key, username, x) {
      BuildsIsSpot(engines, bmcs, key, username, x);
    }
  }

  lemma BuildsIsSpot<S>(engines: seq<EngineBackend<S>>, bmcs: seq<BMC>, key: string, username: string, x: Spot<S>)
    requires Builds(engines, bmcs, key, username, x)
    ensures x in Spots(Targets(engines, bmcs, key, username))
  {
    var e, d :| e in engines && d in bmcs && x in SpotOf(TargetOf(e, d, key, username));
    var i :| 0 <= i < |engines| && engines[i] == e;
    var b :| 0 <= b < |bmcs| && bmcs[b] == d;
    BuildsIsSpotAt(engines, bmcs, key, username, i, b, x);
  }

  lemma BuildsIsSpotAt<S>(
      engines: seq<EngineBackend<S>>, bmcs: seq<BMC>, key: string, username: string, i: nat, b: nat, x: Spot<S>)
    requires i < |engines| && b < |bmcs| && x in SpotOf(TargetOf(engines[i], bmcs[b], key, username))
    ensures x in Spots(Targets(engines, bmcs, key, username))
  {
    var ts := Targets(engines, bmcs, key, username);
    var k := TargetAt(engines, bmcs, key, username, i, b);
    SpotOfMember(ts, k, x);
  }

  lemma SpotOfMember<S>(ts: seq<Target<S>>, k: nat, x: Spot<S>)
    requires k < |ts| && x in SpotOf(ts[k])
    ensures x in Spots(ts)
  {
    SpotsMember(ts, x);
  }

  /** Reordering or repeating engines and BMCs does not change what a fault-free pass does to the
      stores, even when paths collide and engines share a store. */
  lemma OrderIndependent<S>(
    stores: map<S, Store>, engines: seq<EngineBackend<S>>, engines': seq<EngineBackend<S>>, bmcs: seq<BMC>,
    bmcs': seq<BMC>, key: string, c: Creds, time: int, answers: nat -> Answers, answers': nat -> Answers)
    requires Within(engines, engines') && Within(engines', engines)
    requires Within(bmcs, bmcs') && Within(bmcs', bmcs)
    requires forall i :: 0 <= i < |engines| ==> engines[i].backend in stores
    requires forall i :: 0 <= i < |engines'| ==> engines'[i].backend in stores
    requires AllFaultFree(answers, |engines| * |bmcs|) && AllFaultFree(answers', |engines'| * |bmcs'|)
    ensures var ts, ts' := Targets(engines, bmcs, key, c.username), Targets(engines', bmcs', key, c.username);
            && Known(stores, ts) && Known(stores, ts')
            && Pass(stores, ts, c, time, answers).stores == Pass(stores, ts', c, time, answers').stores
  {
    var ts, ts' := Targets(engines, bmcs, key, c.username), Targets(engines', bmcs', key, c.username);
    TargetStores(stores, engines, bmcs, key, c.username);
    TargetStores(stores, engines', bmcs', key, c.username);
    TargetsLength(engines, bmcs, key, c.username);
    TargetsLength(engines', bmcs', key, c.username);
    SameSpots(engines, engines', bmcs, bmcs', key, c.username);
    ClosedForm(stores, ts, c, time, answers);
    ClosedForm(stores, ts', c, time, answers');
  }

  ghost predicate Within<T>(xs: seq<T>, ys: seq<T>) {
    forall i :: 0 <= i < |xs| ==> xs[i] in ys
  }

  lemma SameSpots<S>(
    engines: seq<EngineBackend<S>>, engines': seq<EngineBackend<S>>, bmcs: seq<BMC>, bmcs': seq<BMC>, key: string,
    username: string)
    requires Within(engines, engines') && Within(engines', engines)
    requires Within(bmcs, bmcs') && Within(bmcs', bmcs)
    ensures Spots(Targets(engines, bmcs, key, username)) == Spots(Targets(engines', bmcs', key, username))
  {
    var xs, xs' := Spots(Targets(engines, bmcs, key, username)), Spots(Targets(engines', bmcs', key, username));
    forall x | x in xs ensures x in xs' {
      SpotsWithin(engines, engines', bmcs, bmcs', key, username, x);
    }
    forall x | x in xs' ensures x in xs {
      SpotsWithin(engines', engines, bmcs', bmcs, key, username, x);
    }
  }

  lemma SpotsWithin<S>(
    engines: seq<EngineBackend<S>>, engines': seq<EngineBackend<S>>, bmcs: seq<BMC>, bmcs': seq<BMC>, key: string,
    username: string, x: Spot<S>)
    requires Within(engines, engines') && Within(bmcs, bmcs')
    requires x in Spots(Targets(engines, bmcs, key, username))
    ensures x in Spots(Targets(engines', bmcs', key, username))
  {
    SpotsOfEngines(engines, bmcs, key, username, x);
    assert Builds(engines', bmcs', key, username, x);
    SpotsOfEngines(engines', bmcs', key, username, x);
  }

  /** Under any answers: no spot is landed on twice, and the number of wrong targets drops by
      exactly the number of landings. */
  lemma WritesCountDown<S>(stores: map<S, Store>, ts: seq<Target<S>>, c: Creds, time: int, answers: nat -> Answers)
    requires Known(stores, ts)
    ensures var r := Pass(stores, ts, c, time, answers);
            && Distinct(r.landed)
            && Wrong(r.stores, Spots(ts), c.password) == Wrong(stores, Spots(ts), c.password) - Elements(r.landed)
            && |Wrong(r.stores, Spots(ts), c.password)| + |r.landed| == |Wrong(stores, Spots(ts), c.password)|
  {
    var r := Pass(stores, ts, c, time, answers);
    var before, after := Wrong(stores, Spots(ts), c.password), Wrong(r.stores, Spots(ts), c.password);
    PassLands(stores, ts, c, time, answers);
    forall x | x in Spots(ts) ensures x.0 in stores {
      SpotsMember(ts, x);
    }
    forall x | x in Spots(ts) ensures x in after <==> x in before && x !in Elements(r.landed) {
      PutRight(stores, Elements(r.landed), c, x);
    }
    DistinctSize(r.landed);
    assert after == before - Elements(r.landed);
    assert before == after + Elements(r.landed);
  }

  /** After a fault-free pass a second one writes nothing and reports the same counts. */
  lemma {:induction false} SecondPassIdle<S>(
      stores: map<S, Store>, ts: seq<Target<S>>, c: Creds, time: int, time': int,
      answers: nat -> Answers, answers': nat -> Answers)
    requires Known(stores, ts)
    requires AllFaultFree(answers, |ts|) && AllFaultFree(answers', |ts|)
    ensures var r := Pass(stores, ts, c, time, answers);
            var r' := Pass(r.stores, ts, c, time', answers');
            && r'.landed == [] && r'.stores == r.stores
            && r'.syncSuccess == r.syncSuccess && r'.syncErrors == r.syncErrors
  {
    var r := Pass(stores, ts, c, time, answers);
    var r' := Pass(r.stores, ts, c, time', answers');
    ClosedForm(stores, ts, c, time, answers);
    WritesCountDown(stores, ts, c, time, answers);
    ClosedForm(r.stores, ts, c, time', answers');
    PutNothing(r.stores, SecretData(c));
    assert Wrong(r.stores, Spots(ts), c.password) == {};
    FaultFreeCounts(stores, ts, c, time, answers);
    FaultFreeCounts(r.stores, ts, c, time', answers');
  }

  function Buildables<S>(ts: seq<Target<S>>): nat {
    if ts == [] then 0 else Buildables(ts[..|ts| - 1]) + if ts[|ts| - 1].path.Ok? then 1 else 0
  }

  /** A fault-free pass fails only where the path cannot be built. */
  lemma {:induction false} FaultFreeCounts<S>(
      stores: map<S, Store>, ts: seq<Target<S>>, c: Creds, time: int, answers: nat -> Answers)
    requires Known(stores, ts)
    requires AllFaultFree(answers, |ts|)
    ensures Pass(stores, ts, c, time, answers).syncSuccess == Buildables(ts)
    ensures Pass(stores, ts, c, time, answers).syncErrors == |ts| - Buildables(ts)
  {
    if ts != [] {
      var n := |ts| - 1;
      FaultFreeCounts(stores, ts[..n], c, time, answers);
    }
  }

  /** Status soundness under any answers: entry `i * |bmcs| + b` describes engine `i` and BMC `b`,
      the counters count the entries, and every success entry's path holds the current password in
      the final stores. */
  lemma {:induction false} StatusSound<S>(
    stores: map<S, Store>, engines: seq<EngineBackend<S>>, bmcs: seq<BMC>, key: string, c: Creds, time: int,
    answers: nat -> Answers, i: nat, b: nat)
    returns (k: nat)
    requires Known(stores, Targets(engines, bmcs, key, c.username))
    requires i < |engines| && b < |bmcs|
    ensures var r := Pass(stores, Targets(engines, bmcs, key, c.username), c, time, answers);
            && |r.entries| == |engines| * |bmcs| == r.syncSuccess + r.syncErrors
            && Count(r.entries, true) == r.syncSuccess && Count(r.entries, false) == r.syncErrors
            && k == i * |bmcs| + b < |r.entries|
            && var e, t := r.entries[k], TargetOf(engines[i], bmcs[b], key, c.username);
               && e == EntryOf(t, time, e.success)
               && (e.success ==> t.path == Ok(e.path) && Right(r.stores, (engines[i].backend, e.path), c.password))
  {
    k := TargetAt(engines, bmcs, key, c.username, i, b);
    TargetsLength(engines, bmcs, key, c.username);
    PassCounts(stores, Targets(engines, bmcs, key, c.username), c, time, answers);
    EntryHolds(stores, Targets(engines, bmcs, key, c.username), c, time, answers, k);
  }

  /** The path holds a record with this password. */
  predicate Holds(store: Store, path: string, password: string) {
    path in store && "password" in store[path] && store[path]["password"] == Str(password)
  }

  /** When the work on one target ends well, told by the store and the answers: the path can be built, the
      existence check answers, what is there can be read, and it is the password or a write is accepted. */
  predicate Succeeds(store: Store, path: Result<string>, password: string, a: Answers) {
    && path.Ok? && a.exists_.None? && (path.value in store ==> a.read.None?)
    && (Holds(store, path.value, password) || a.write == Accepted)
  }

  /** When it puts the record there: the checks answer, the password is not there yet, and the write is not
      lost. */
  predicate Puts(store: Store, path: Result<string>, password: string, a: Answers) {
    && path.Ok? && a.exists_.None? && (path.value in store ==> a.read.None?)
    && !Holds(store, path.value, password) && !a.write.Lost?
  }

  lemma EndingMeans<S>(stores: map<S, Store>, t: Target<S>, c: Creds, a: Answers)
    requires t.store in stores
    ensures EndingOf(stores, t, c, a).Success() <==> Succeeds(stores[t.store], t.path, c.password, a)
    ensures EndingOf(stores, t, c, a).Lands() <==> Puts(stores[t.store], t.path, c.password, a)
    ensures Effect(stores, t, c, a) ==
            if Puts(stores[t.store], t.path, c.password, a) then
              stores[t.store := stores[t.store][t.path.value :=
                map["username" := Str(c.username), "password" := Str(c.password)]]]
            else stores
  {
  }

  /** The entry of target `k`, judged by what the targets before it left. */
  ghost function EntryFor<S>(
      stores: map<S, Store>, ts: seq<Target<S>>, c: Creds, time: int, answers: nat -> Answers, k: nat): BackendPath
    requires Known(stores, ts) && k < |ts|
  {
    EntryOf(ts[k], time, EndingOf(Pass(stores, ts[..k], c, time, answers).stores, ts[k], c, answers(k)).Success())
  }

  lemma EntryAdded<S>(
      stores: map<S, Store>, ts: seq<Target<S>>, c: Creds, time: int, answers: nat -> Answers, k: nat)
    requires Known(stores, ts) && k < |ts|
    ensures Pass(stores, ts[..k + 1], c, time, answers).entries ==
            Pass(stores, ts[..k], c, time, answers).entries + [EntryFor(stores, ts, c, time, answers, k)]
  {
    assert ts[..k + 1][..k] == ts[..k];
  }

  /** Entry `k` is written when the first `k` targets are done. */
  lemma {:induction false} EntryAt<S>(
      stores: map<S, Store>, ts: seq<Target<S>>, c: Creds, time: int, answers: nat -> Answers, m: nat, k: nat)
    requires Known(stores, ts) && k < m <= |ts|
    ensures var entries := Pass(stores, ts[..m], c, time, answers).entries;
            |entries| == m && entries[k] == EntryFor(stores, ts, c, time, answers, k)
  {
    EntryAdded(stores, ts, c, time, answers, m - 1);
    if m > 1 {
      EntryAt(stores, ts, c, time, answers, m - 1, if k < m - 1 then k else 0);
    }
  }

  /** Under any answers, entry `k` describes target `k`, and is a success if and only if the work on it
      ended well, given what its store held then. In particular every error that a backend call returns
      makes it a failure, also that of a write which took effect all the same. */
  lemma EntrySucceedsIff<S>(
      stores: map<S, Store>, ts: seq<Target<S>>, c: Creds, time: int, answers: nat -> Answers, k: nat)
    requires Known(stores, ts) && k < |ts|
    ensures var r, t := Pass(stores, ts, c, time, answers), ts[k];
            var store := Pass(stores, ts[..k], c, time, answers).stores[t.store];
            && |r.entries| == |ts|
            && var e := r.entries[k];
               && (e.success <==> Succeeds(store, t.path, c.password, answers(k)))
               && e.path == (if t.path.Ok? then t.path.value else "") && e.bmcName == t.bmc
               && (e.region, e.hostname, e.username) == (t.vars.region, t.vars.hostname, t.vars.username)
               && e.lastSyncTime == time
  {
    assert ts[..|ts|] == ts;
    EntryAt(stores, ts, c, time, answers, |ts|, k);
    EndingMeans(Pass(stores, ts[..k], c, time, answers).stores, ts[k], c, answers(k));
  }

  /** A success entry's path holds the password in the final stores. */
  lemma EntryHolds<S>(stores: map<S, Store>, ts: seq<Target<S>>, c: Creds, time: int, answers: nat -> Answers, k: nat)
    requires Known(stores, ts) && k < |ts|
    ensures var r := Pass(stores, ts, c, time, answers);
            && |r.entries| == |ts|
            && r.entries[k] == EntryOf(ts[k], time, r.entries[k].success)
            && (r.entries[k].success ==>
                  ts[k].path == Ok(r.entries[k].path) && Right(r.stores, (ts[k].store, r.entries[k].path), c.password))
  {
    PassEntries(stores, ts, c, time, answers);
    PassLands(stores, ts, c, time, answers);
    var r, t := Pass(stores, ts, c, time, answers), ts[k];
    assert EntrySound(stores, Elements(r.landed), t, r.entries[k], c.password, time);
    if r.entries[k].success {
      PutRight(stores, Elements(r.landed), c, (t.store, t.path.value));
      assert (t.store, t.path.value) in SpotOf(t);
    }
  }

  /** Under any answers, a pass changes what a path of a store holds only if some engine on that store
      builds this path for one of the BMCs. */
  lemma PassFrame<S>(
    stores: map<S, Store>, engines: seq<EngineBackend<S>>, bmcs: seq<BMC>, key: string, c: Creds, time: int,
    answers: nat -> Answers, x: Spot<S>)
    requires x.0 in stores && Known(stores, Targets(engines, bmcs, key, c.username))
    ensures Changed(stores, Pass(stores, Targets(engines, bmcs, key, c.username), c, time, answers).stores, x) ==>
              Builds(engines, bmcs, key, c.username, x)
  {
    var ts := Targets(engines, bmcs, key, c.username);
    var landed := Pass(stores, ts, c, time, answers).landed;
    PassLands(stores, ts, c, time, answers);
    PutMember(stores, Elements(landed), SecretData(c), x);
    if x in Elements(landed) {
      SpotsOfEngines(engines, bmcs, key, c.username, x);
    }
  }

  /** Some target is this spot, and what the backend holds there and answers for this target makes a
      write land, judged by the stores as they were before the pass. */
  ghost predicate LandsOn<S>(stores: map<S, Store>, ts: seq<Target<S>>, c: Creds, answers: nat -> Answers, x: Spot<S>)
    requires Known(stores, ts)
  {
    exists i :: 0 <= i < |ts| && x in SpotOf(ts[i]) && EndingOf(stores, ts[i], c, answers(i)).Lands()
  }

  lemma AdvanceLandsIff<S>(
      stores: map<S, Store>, st: PassState<S>, spots: set<Spot<S>>, t: Target<S>, c: Creds, time: int, a: Answers,
      x: Spot<S>)
    requires t.store in stores && Tracks(stores, st, spots, c)
    ensures x in Elements(Advance(st, t, c, time, a).landed) <==>
              x in Elements(st.landed) || (x in SpotOf(t) && EndingOf(stores, t, c, a).Lands())
  {
    if t.path.Ok? {
      var y := (t.store, t.path.value);
      PutMember(stores, Elements(st.landed), SecretData(c), y);
      PutRight(stores, Elements(st.landed), c, y);
      ElementsAppend(st.landed, y);
    }
    assert st.landed + [] == st.landed;
  }

  /** Under any answers, a pass lands on a spot exactly if the stores before the pass and the answers to
      some target say so: what other targets do in between never matters. */
  lemma {:induction false} LandedIff<S>(
      stores: map<S, Store>, ts: seq<Target<S>>, c: Creds, time: int, answers: nat -> Answers, x: Spot<S>)
    requires Known(stores, ts)
    ensures x in Elements(Pass(stores, ts, c, time, answers).landed) <==> LandsOn(stores, ts, c, answers, x)
  {
    if ts == [] {
      assert Elements<Spot<S>>([]) == {};
    } else {
      var n := |ts| - 1;
      var us := ts[..n];
      LandedIff(stores, us, c, time, answers, x);
      PassLands(stores, us, c, time, answers);
      AdvanceLandsIff(stores, Pass(stores, us, c, time, answers), Spots(us), ts[n], c, time, answers(n), x);
      LandsOnOneMore(stores, ts, c, answers, x);
    }
  }

  lemma LandsOnOneMore<S>(
      stores: map<S, Store>, ts: seq<Target<S>>, c: Creds, answers: nat -> Answers, x: Spot<S>)
    requires Known(stores, ts) && ts != []
    ensures var n := |ts| - 1;
            LandsOn(stores, ts, c, answers, x) <==>
              || LandsOn(stores, ts[..n], c, answers, x)
              || (x in SpotOf(ts[n]) && EndingOf(stores, ts[n], c, answers(n)).Lands())
  {
    var n := |ts| - 1;
    var us := ts[..n];
    assert forall i :: 0 <= i < n ==> us[i] == ts[i];
    if LandsOn(stores, us, c, answers, x) {
      var i :| 0 <= i < n && x in SpotOf(us[i]) && EndingOf(stores, us[i], c, answers(i)).Lands();
      assert x in SpotOf(ts[i]);
    }
    if LandsOn(stores, ts, c, answers, x) {
      var i :| 0 <= i < |ts| && x in SpotOf(ts[i]) && EndingOf(stores, ts[i], c, answers(i)).Lands();
      assert i < n ==> x in SpotOf(us[i]);
    }
  }

  /** Under any answers, what a spot holds changes in a pass exactly if it is landed on, and then it
      holds the password. */
  lemma PassChangesIff<S>(
      stores: map<S, Store>, ts: seq<Target<S>>, c: Creds, time: int, answers: nat -> Answers, x: Spot<S>)
    requires Known(stores, ts) && x.0 in stores
    ensures Changed(stores, Pass(stores, ts, c, time, answers).stores, x) <==> LandsOn(stores, ts, c, answers, x)
    ensures LandsOn(stores, ts, c, answers, x) ==> Right(Pass(stores, ts, c, time, answers).stores, x, c.password)
  {
    var landed := Elements(Pass(stores, ts, c, time, answers).landed);
    PassLands(stores, ts, c, time, answers);
    LandedIff(stores, ts, c, time, answers, x);
    PutMember(stores, landed, SecretData(c), x);
    PutRight(stores, landed, c, x);
    assert x in landed ==> !Right(stores, x, c.password);
  }

  /** Under any answers, a pass spoils a path that is right for some password exactly if it is landed on. */
  lemma PassSpoilsIff<S>(
      stores: map<S, Store>, ts: seq<Target<S>>, c: Creds, time: int, answers: nat -> Answers, x: Spot<S>,
      password: string)
    requires Known(stores, ts) && Right(stores, x, password)
    ensures !Right(Pass(stores, ts, c, time, answers).stores, x, password) <==> LandsOn(stores, ts, c, answers, x)
  {
    var landed := Elements(Pass(stores, ts, c, time, answers).landed);
    PassLands(stores, ts, c, time, answers);
    LandedIff(stores, ts, c, time, answers, x);
    PutMember(stores, landed, SecretData(c), x);
    assert x in landed ==> !Right(stores, x, c.password);
  }

  /** What a pass of one secret does to the targets of a secret with the given password, if it lands on
      none of them with another one: right ones stay right. */
  lemma PassKeepsRight<S>(
      stores: map<S, Store>, ts: seq<Target<S>>, c: Creds, time: int, answers: nat -> Answers, p: Plan<S>)
    requires Known(stores, ts) && (c.password != p.creds.password ==> Spots(ts) !! Spots(p.targets))
    ensures WrongOf(Pass(stores, ts, c, time, answers).stores, p) <= WrongOf(stores, p)
  {
    var after := Pass(stores, ts, c, time, answers).stores;
    var landed := Elements(Pass(stores, ts, c, time, answers).landed);
    PassLands(stores, ts, c, time, answers);
    forall x | x in WrongOf(after, p) ensures x in WrongOf(stores, p) {
      if Right(stores, x, p.creds.password) {
        PutMember(stores, landed, SecretData(c), x);
        PutRight(stores, landed, c, x);
        assert x in Spots(ts) ==> c.password == p.creds.password;
      }
    }
  }

  /** A fault-free pass over all targets of a plan makes them right. */
  lemma PassMakesRight<S>(stores: map<S, Store>, p: Plan<S>, time: int, answers: nat -> Answers)
    requires Known(stores, p.targets) && AllFaultFree(answers, |p.targets|)
    ensures WrongOf(Pass(stores, p.targets, p.creds, time, answers).stores, p) == {}
  {
    WritesCountDown(stores, p.targets, p.creds, time, answers);
    ClosedForm(stores, p.targets, p.creds, time, answers);
  }

  /** Engine isolation under any answers: if a pass over the matching engines changes what a path of a
      store holds, then some configured engine on that store matches the labels and builds this path
      for one of the BMCs. */
  lemma EngineIsolation<S>(
    stores: map<S, Store>, all: seq<EngineBackend<S>>, labels: Labels, bmcs: seq<BMC>, key: string, c: Creds,
    time: int, answers: nat -> Answers, x: Spot<S>)
    requires x.0 in stores && Known(stores, Targets(FilterEnginesByLabels(all, labels), bmcs, key, c.username))
    ensures var ts := Targets(FilterEnginesByLabels(all, labels), bmcs, key, c.username);
            Changed(stores, Pass(stores, ts, c, time, answers).stores, x) ==>
              exists e, b :: e in all && e.backend == x.0 && e.MatchesLabels(labels) && b in bmcs
                             && BuildPath(e.pathBuilder, VariablesOf(b, key, c.username)) == Ok(x.1)
  {
    var engines := FilterEnginesByLabels(all, labels);
    PassFrame(stores, engines, bmcs, key, c, time, answers, x);
    if Builds(engines, bmcs, key, c.username, x) {
      var e, b :| e in engines && b in bmcs && x in SpotOf(TargetOf(e, b, key, c.username));
      assert e in all;
    }
  }

  /** The record that a fault-free pass leaves at a target has the current password; it has the
      current username exactly if the target was wrong before or already had that username. */
  lemma UsernameFollows<S>(
      stores: map<S, Store>, ts: seq<Target<S>>, c: Creds, time: int, answers: nat -> Answers, x: Spot<S>)
    requires Known(stores, ts)
    requires AllFaultFree(answers, |ts|) && x in Spots(ts)
    ensures var after := Pass(stores, ts, c, time, answers).stores;
            && Right(after, x, c.password)
            && (("username" in after[x.0][x.1] && after[x.0][x.1]["username"] == Str(c.username)) <==>
                !Right(stores, x, c.password)
                || ("username" in stores[x.0][x.1] && stores[x.0][x.1]["username"] == Str(c.username)))
  {
    SpotsMember(ts, x);
    ClosedForm(stores, ts, c, time, answers);
    var xs := Wrong(stores, Spots(ts), c.password);
    PutMember(stores, xs, SecretData(c), x);
    PutRight(stores, xs, c, x);
  }

  // ---------------------------------------------------------------- many secrets

  /** The work for one secret: its targets and its credentials. */
  datatype Plan<S> = Plan(targets: seq<Target<S>>, creds: Creds)

  /** One loop iteration for target `target` of secret `secret`, with the answers it gets. */
  datatype Event = Event(secret: nat, target: nat, answers: Answers)

  ghost predicate Planned<S>(stores: map<S, Store>, plans: seq<Plan<S>>) {
    forall k, i :: 0 <= k < |plans| && 0 <= i < |plans[k].targets| ==> plans[k].targets[i].store in stores
  }

  ghost predicate Disjoint<S>(plans: seq<Plan<S>>) {
    forall j, k :: 0 <= j < k < |plans| ==> Spots(plans[j].targets) !! Spots(plans[k].targets)
  }

  /** Two secrets may share a spot only if they have the same password. */
  ghost predicate Compatible<S>(plans: seq<Plan<S>>) {
    forall j, k :: 0 <= j < |plans| && 0 <= k < |plans| && plans[j].creds.password != plans[k].creds.password ==>
      Spots(plans[j].targets) !! Spots(plans[k].targets)
  }

  predicate Fits<S>(plans: seq<Plan<S>>, e: Event) {
    e.secret < |plans| && e.target < |plans[e.secret].targets|
  }

  ghost predicate AllFit<S>(plans: seq<Plan<S>>, events: seq<Event>) {
    forall m :: 0 <= m < |events| ==> Fits(plans, events[m])
  }

  /** The stores after a sequence of loop iterations, of any secrets in any order. */
  function Run<S>(stores: map<S, Store>, plans: seq<Plan<S>>, events: seq<Event>): (stores': map<S, Store>)
    requires Planned(stores, plans)
    requires AllFit(plans, events)
    ensures stores'.Keys == stores.Keys
  {
    if events == [] then stores
    else
      var n := |events| - 1;
      assert Fits(plans, events[n]);
      var e := events[n];
      Effect(Run(stores, plans, events[..n]), plans[e.secret].targets[e.target], plans[e.secret].creds, e.answers)
  }

  /** How many of the iterations land on a store. */
  function Landings<S>(stores: map<S, Store>, plans: seq<Plan<S>>, events: seq<Event>): nat
    requires Planned(stores, plans)
    requires AllFit(plans, events)
  {
    if events == [] then 0
    else
      var n := |events| - 1;
      assert Fits(plans, events[n]);
      var e := events[n];
      Landings(stores, plans, events[..n])
      + var p := plans[e.secret];
        if EndingOf(Run(stores, plans, events[..n]), p.targets[e.target], p.creds, e.answers).Lands() then 1 else 0
  }

  ghost function WrongOf<S>(stores: map<S, Store>, p: Plan<S>): set<Spot<S>> {
    Wrong(stores, Spots(p.targets), p.creds.password)
  }

  ghost function TotalWrong<S>(stores: map<S, Store>, plans: seq<Plan<S>>): nat {
    if plans == [] then 0
    else TotalWrong(stores, plans[..|plans| - 1]) + |WrongOf(stores, plans[|plans| - 1])|
  }

  /** What one iteration does to the wrong spots: its own secret loses the spot landed on, and the
      others keep theirs. */
  lemma EffectOnWrong<S>(stores: map<S, Store>, plans: seq<Plan<S>>, e: Event, j: nat)
    requires Planned(stores, plans) && Disjoint(plans) && Fits(plans, e) && j < |plans|
    ensures var t, c := plans[e.secret].targets[e.target], plans[e.secret].creds;
            var after, lands := Effect(stores, t, c, e.answers), EndingOf(stores, t, c, e.answers).Lands();
            && WrongOf(after, plans[j]) ==
               WrongOf(stores, plans[j]) - (if lands && j == e.secret then SpotOf(t) else {})
            && (lands && j == e.secret ==> SpotOf(t) <= WrongOf(stores, plans[j]) && |SpotOf(t)| == 1)
            && (e.answers.FaultFree() && j == e.secret ==> SpotOf(t) !! WrongOf(after, plans[j]))
  {
    var t, c := plans[e.secret].targets[e.target], plans[e.secret].creds;
    var after, lands := Effect(stores, t, c, e.answers), EndingOf(stores, t, c, e.answers).Lands();
    PutNothing(stores, SecretData(c));
    forall x | x in SpotOf(t) ensures x in Spots(plans[e.secret].targets) {
      SpotsMember(plans[e.secret].targets, x);
    }
    if lands {
      LandingPuts(stores, {}, t, c, e.answers);
      forall x | x in Spots(plans[j].targets)
        ensures Right(after, x, plans[j].creds.password) <==>
                (x in SpotOf(t) && j == e.secret) || Right(stores, x, plans[j].creds.password)
      {
        SpotsMember(plans[j].targets, x);
        PutMember(stores, {} + SpotOf(t), SecretData(c), x);
      }
    }
  }

  lemma {:induction false} TotalWrongStep<S>(
      stores: map<S, Store>, stores': map<S, Store>, plans: seq<Plan<S>>, k: nat, drop: nat)
    requires forall j :: 0 <= j < |plans| ==>
               |WrongOf(stores', plans[j])| + (if j == k then drop else 0) == |WrongOf(stores, plans[j])|
    ensures TotalWrong(stores', plans) + (if k < |plans| then drop else 0) == TotalWrong(stores, plans)
  {
    if plans != [] {
      TotalWrongStep(stores, stores', plans[..|plans| - 1], k, drop);
    }
  }

  /** For secrets with pairwise disjoint target paths, under any interleaving of loop iterations and
      any answers, the number of wrong spots drops by exactly one with each landing. */
  lemma {:induction false} WrongCountsDown<S>(stores: map<S, Store>, plans: seq<Plan<S>>, events: seq<Event>)
    requires Planned(stores, plans) && Disjoint(plans)
    requires AllFit(plans, events)
    ensures TotalWrong(Run(stores, plans, events), plans) + Landings(stores, plans, events) == TotalWrong(stores, plans)
  {
    if events != [] {
      var n := |events| - 1;
      WrongCountsDown(stores, plans, events[..n]);
      var before, e := Run(stores, plans, events[..n]), events[n];
      var t, c := plans[e.secret].targets[e.target], plans[e.secret].creds;
      var lands := EndingOf(before, t, c, e.answers).Lands();
      var after := Run(stores, plans, events);
      forall j | 0 <= j < |plans|
        ensures |WrongOf(after, plans[j])| + (if j == e.secret then if lands then 1 else 0 else 0) ==
                |WrongOf(before, plans[j])|
      {
        EffectOnWrong(before, plans, e, j);
        if lands && j == e.secret {
          assert WrongOf(before, plans[j]) == WrongOf(after, plans[j]) + SpotOf(t);
        }
      }
      TotalWrongStep(before, after, plans, e.secret, if lands then 1 else 0);
    }
  }

  ghost predicate Served(events: seq<Event>, k: nat, i: nat) {
    exists m :: 0 <= m < |events| && events[m].secret == k && events[m].target == i && events[m].answers.FaultFree()
  }

  /** With compatible secrets an iteration makes no spot wrong, for any secret; and if it is fault-free
      its own spot is right afterwards. */
  lemma EffectKeepsRight<S>(stores: map<S, Store>, plans: seq<Plan<S>>, e: Event, j: nat)
    requires Planned(stores, plans) && Compatible(plans) && Fits(plans, e) && j < |plans|
    ensures var t := plans[e.secret].targets[e.target];
            var after := Effect(stores, t, plans[e.secret].creds, e.answers);
            && WrongOf(after, plans[j]) <= WrongOf(stores, plans[j])
            && (e.answers.FaultFree() && j == e.secret ==> SpotOf(t) !! WrongOf(after, plans[j]))
  {
    var t, c := plans[e.secret].targets[e.target], plans[e.secret].creds;
    var after, lands := Effect(stores, t, c, e.answers), EndingOf(stores, t, c, e.answers).Lands();
    PutNothing(stores, SecretData(c));
    forall x | x in SpotOf(t) ensures x in Spots(plans[e.secret].targets) {
      SpotsMember(plans[e.secret].targets, x);
    }
    if lands {
      LandingPuts(stores, {}, t, c, e.answers);
      forall x | x in Spots(plans[j].targets)
        ensures Right(stores, x, plans[j].creds.password) || (x in SpotOf(t) && j == e.secret) ==>
                Right(after, x, plans[j].creds.password)
      {
        SpotsMember(plans[j].targets, x);
        PutMember(stores, {} + SpotOf(t), SecretData(c), x);
      }
    }
  }

  /** A target served once without faults stays right for the rest of the run. */
  lemma {:induction false} ServedStaysRight<S>(
      stores: map<S, Store>, plans: seq<Plan<S>>, events: seq<Event>, k: nat, i: nat)
    requires Planned(stores, plans) && Compatible(plans) && AllFit(plans, events)
    requires k < |plans| && i < |plans[k].targets| && Served(events, k, i)
    ensures SpotOf(plans[k].targets[i]) !! WrongOf(Run(stores, plans, events), plans[k])
  {
    var n := |events| - 1;
    var e := events[n];
    EffectKeepsRight(Run(stores, plans, events[..n]), plans, e, k);
    if !(e.secret == k && e.target == i && e.answers.FaultFree()) {
      var m :| 0 <= m < |events| && events[m].secret == k && events[m].target == i && events[m].answers.FaultFree();
      assert events[..n][m] == events[m];
      ServedStaysRight(stores, plans, events[..n], k, i);
    }
  }

  /** With compatible secrets no run makes more spots wrong. */
  lemma {:induction false} WrongNeverGrows<S>(stores: map<S, Store>, plans: seq<Plan<S>>, events: seq<Event>)
    requires Planned(stores, plans) && Compatible(plans) && AllFit(plans, events)
    ensures TotalWrong(Run(stores, plans, events), plans) <= TotalWrong(stores, plans)
  {
    if events != [] {
      var n := |events| - 1;
      var before := Run(stores, plans, events[..n]);
      WrongNeverGrows(stores, plans, events[..n]);
      forall j | 0 <= j < |plans| ensures WrongOf(Run(stores, plans, events), plans[j]) <= WrongOf(before, plans[j]) {
        EffectKeepsRight(before, plans, events[n], j);
      }
      FewerWrong(before, Run(stores, plans, events), plans);
    }
  }

  lemma {:induction false} FewerWrong<S>(stores: map<S, Store>, stores': map<S, Store>, plans: seq<Plan<S>>)
    requires forall j :: 0 <= j < |plans| ==> WrongOf(stores', plans[j]) <= WrongOf(stores, plans[j])
    ensures TotalWrong(stores', plans) <= TotalWrong(stores, plans)
  {
    if plans != [] {
      var n := |plans| - 1;
      FewerWrong(stores, stores', plans[..n]);
      SubsetSize(WrongOf(stores', plans[n]), WrongOf(stores, plans[n]));
    }
  }

  lemma SubsetSize<T>(a: set<T>, b: set<T>)
    requires a <= b
    ensures |a| <= |b|
  {
    assert b == a + (b - a);
  }

  /** Secrets that share a spot and differ in the password are never all right, whatever the stores hold. */
  lemma ConflictStaysWrong<S>(stores: map<S, Store>, plans: seq<Plan<S>>)
    requires !Compatible(plans)
    ensures TotalWrong(stores, plans) > 0
  {
    var j, k :| 0 <= j < |plans| && 0 <= k < |plans| && plans[j].creds.password != plans[k].creds.password
                && !(Spots(plans[j].targets) !! Spots(plans[k].targets));
    var x :| x in Spots(plans[j].targets) && x in Spots(plans[k].targets);
    if Right(stores, x, plans[j].creds.password) {
      WrongCounts(stores, plans, k, x);
    } else {
      WrongCounts(stores, plans, j, x);
    }
  }

  lemma {:induction false} WrongCounts<S>(stores: map<S, Store>, plans: seq<Plan<S>>, k: nat, x: Spot<S>)
    requires k < |plans| && x in WrongOf(stores, plans[k])
    ensures TotalWrong(stores, plans) > 0
  {
    if k < |plans| - 1 {
      WrongCounts(stores, plans[..|plans| - 1], k, x);
    }
  }

  /** Convergence, with its exact condition: however the iterations of all secrets interleave and
      whatever faults occur, once every target of every secret has been served once without faults,
      nothing is wrong if and only if no two secrets with different passwords share a spot. */
  lemma Converges<S>(stores: map<S, Store>, plans: seq<Plan<S>>, events: seq<Event>)
    requires Planned(stores, plans) && AllFit(plans, events)
    requires forall k, i :: 0 <= k < |plans| && 0 <= i < |plans[k].targets| ==> Served(events, k, i)
    ensures TotalWrong(Run(stores, plans, events), plans) == 0 <==> Compatible(plans)
  {
    var after := Run(stores, plans, events);
    if Compatible(plans) {
      forall k | 0 <= k < |plans| ensures WrongOf(after, plans[k]) == {} {
        forall x | x in Spots(plans[k].targets) ensures x !in WrongOf(after, plans[k]) {
          SpotsMember(plans[k].targets, x);
          var i :| 0 <= i < |plans[k].targets| && x in SpotOf(plans[k].targets[i]);
          ServedStaysRight(stores, plans, events, k, i);
        }
      }
      NoneWrong(after, plans);
    } else {
      ConflictStaysWrong(after, plans);
    }
  }

  lemma {:induction false} NoneWrong<S>(stores: map<S, Store>, plans: seq<Plan<S>>)
    requires forall k :: 0 <= k < |plans| ==> WrongOf(stores, plans[k]) == {}
    ensures TotalWrong(stores, plans) == 0
  {
    if plans != [] {
      NoneWrong(stores, plans[..|plans| - 1]);
    }
  }

  /** The iterations of one whole pass for secret `k`. */
  function PassEvents(k: nat, n: nat, answers: nat -> Answers): (events: seq<Event>)
    ensures |events| == n
    ensures forall i :: 0 <= i < n ==> events[i] == Event(k, i, answers(i))
  {
    seq(n, i requires 0 <= i < n => Event(k, i, answers(i)))
  }

  /** A pass is the run of its iterations. */
  lemma {:induction false} PassIsRun<S>(
      stores: map<S, Store>, plans: seq<Plan<S>>, k: nat, n: nat, time: int, answers: nat -> Answers)
    requires Planned(stores, plans) && k < |plans| && n <= |plans[k].targets|
    ensures Run(stores, plans, PassEvents(k, n, answers)) ==
            Pass(stores, plans[k].targets[..n], plans[k].creds, time, answers).stores
  {
    if n > 0 {
      PassIsRun(stores, plans, k, n - 1, time, answers);
      assert PassEvents(k, n, answers)[..n - 1] == PassEvents(k, n - 1, answers);
      assert plans[k].targets[..n][..n - 1] == plans[k].targets[..n - 1];
    }
  }

  /** Two secrets do not share a path of a store when a separated template mentions a field on
      which every two of their BMCs and usernames differ. */
  lemma {:induction false} DifferentTriplesDisjoint<S>(
    e: EngineBackend<S>, bmcs: seq<BMC>, bmcs': seq<BMC>, key: string, username: string, username': string)
    requires Separated(e.pathBuilder)
    requires forall b :: b in bmcs ==> SlashFreeButLast(e.pathBuilder, VariablesOf(b, key, username))
    requires forall b :: b in bmcs' ==> SlashFreeButLast(e.pathBuilder, VariablesOf(b, key, username'))
    requires forall b, b' :: b in bmcs && b' in bmcs' ==>
               exists f :: Mentions(e.pathBuilder, f)
                 && VariablesOf(b, key, username).Get(f) != VariablesOf(b', key, username').Get(f)
    ensures Spots(EngineTargets(e, bmcs, key, username)) !! Spots(EngineTargets(e, bmcs', key, username'))
  {
    var ts, ts' := EngineTargets(e, bmcs, key, username), EngineTargets(e, bmcs', key, username');
    EngineTargetAt(e, bmcs, key, username);
    EngineTargetAt(e, bmcs', key, username');
    forall x | x in Spots(ts) ensures x !in Spots(ts') {
      SpotsMember(ts, x);
      SpotsMember(ts', x);
      var i :| 0 <= i < |ts| && x in SpotOf(ts[i]);
      forall i' | 0 <= i' < |ts'| ensures x !in SpotOf(ts'[i']) {
        assert bmcs[i] in bmcs && bmcs'[i'] in bmcs';
        var v, v' := VariablesOf(bmcs[i], key, username), VariablesOf(bmcs'[i'], key, username');
        if BuildPath(e.pathBuilder, v) == BuildPath(e.pathBuilder, v') {
          var f :| Mentions(e.pathBuilder, f) && v.Get(f) != v'.Get(f);
          if BuildPath(e.pathBuilder, v).Ok? {
            PathInjective(e.pathBuilder, v, v');
          }
        }
      }
    }
  }
}

/** One synchronisation pass over a list of targets, as a function of the stores and of what each
    backend call answers, and what a pass does to the stores. */
module SyncPass {
  import opened Wrappers
  import opened Sequences
  import opened PathBuilder
  import opened MultiEngine
  import opened Resolver

  /** A value read from a backend: a string, or something of another type. */
  datatype Datum = Str(s: string) | NotString

  type Data = map<string, Datum>

  type Store = map<string, Data>

  /** A path in a store. */
  type Spot<S> = (S, string)

  function SecretData(c: Creds): Data {
    map["username" := Str(c.username), "password" := Str(c.password)]
  }

  predicate HasPassword(d: Data, password: string) {
    "password" in d && d["password"] == Str(password)
  }

  /** A write is accepted, or reported as failed with or without having reached the store. */
  datatype WriteAnswer = Accepted | Lost(error: string) | Landed(error: string)

  /** What the backend answers to the calls made for one target. */
  datatype Answers = Answers(exists_: Option<string>, read: Option<string>, write: WriteAnswer) {
    predicate FaultFree() {
      exists_.None? && read.None? && write.Accepted?
    }
  }

  /** Whether the path must be written: it is absent, or holds another password, or holds no
      password that is a string. */
  function NeedsUpdate(store: Store, path: string, password: string, a: Answers): Result<bool> {
    if a.exists_.Some? then Err(a.exists_.value)
    else if path !in store then Ok(true)
    else if a.read.Some? then Err(a.read.value)
    else Ok(!HasPassword(store[path], password))
  }

  // ---------------------------------------------------------------- targets

  datatype Target<S> = Target(store: S, path: Result<string>, bmc: string, vars: PathVariables)

  function TargetOf<S>(e: EngineBackend<S>, bmc: BMC, regionLabelKey: string, username: string): Target<S> {
    var v := VariablesOf(bmc, regionLabelKey, username);
    Target(e.backend, BuildPath(e.pathBuilder, v), bmc.name, v)
  }

  function EngineTargets<S>(
      e: EngineBackend<S>, bmcs: seq<BMC>, regionLabelKey: string, username: string): seq<Target<S>> {
    if bmcs == [] then []
    else EngineTargets(e, bmcs[..|bmcs| - 1], regionLabelKey, username)
         + [TargetOf(e, bmcs[|bmcs| - 1], regionLabelKey, username)]
  }

  /** The default backend, seen as an engine without label requirements. */
  function DefaultEngine<S>(backend: S, pathBuilder: Template): EngineBackend<S> {
    EngineBackend(backend, "", pathBuilder, "", "", "")
  }

  /** Every engine with every BMC, engine by engine. */
  function Targets<S>(
      engines: seq<EngineBackend<S>>, bmcs: seq<BMC>, regionLabelKey: string, username: string): seq<Target<S>> {
    if engines == [] then []
    else Targets(engines[..|engines| - 1], bmcs, regionLabelKey, username)
         + EngineTargets(engines[|engines| - 1], bmcs, regionLabelKey, username)
  }

  lemma {:induction false} EngineTargetAt<S>(e: EngineBackend<S>, bmcs: seq<BMC>, key: string, username: string)
    ensures var ts := EngineTargets(e, bmcs, key, username);
            |ts| == |bmcs| && forall b :: 0 <= b < |bmcs| ==> ts[b] == TargetOf(e, bmcs[b], key, username)
  {
    if bmcs != [] {
      EngineTargetAt(e, bmcs[..|bmcs| - 1], key, username);
    }
  }

  function Rows<S>(engines: seq<EngineBackend<S>>, bmcs: seq<BMC>, key: string, username: string): seq<seq<Target<S>>> {
    seq(|engines|, i requires 0 <= i < |engines| => EngineTargets(engines[i], bmcs, key, username))
  }

  lemma {:induction false} TargetsAreRows<S>(
      engines: seq<EngineBackend<S>>, bmcs: seq<BMC>, key: string, username: string)
    ensures Targets(engines, bmcs, key, username) == Flatten(Rows(engines, bmcs, key, username))
  {
    if engines != [] {
      var n := |engines| - 1;
      TargetsAreRows(engines[..n], bmcs, key, username);
      assert Rows(engines, bmcs, key, username)[..n] == Rows(engines[..n], bmcs, key, username);
    }
  }

  lemma TargetsLength<S>(engines: seq<EngineBackend<S>>, bmcs: seq<BMC>, key: string, username: string)
    ensures |Targets(engines, bmcs, key, username)| == |engines| * |bmcs|
  {
    TargetsAreRows(engines, bmcs, key, username);
    RowsHaveWidth(engines, bmcs, key, username);
    FlattenLength(Rows(engines, bmcs, key, username), |bmcs|);
  }

  lemma RowsHaveWidth<S>(engines: seq<EngineBackend<S>>, bmcs: seq<BMC>, key: string, username: string)
    ensures forall i :: 0 <= i < |engines| ==> |Rows(engines, bmcs, key, username)[i]| == |bmcs|
  {
    forall i | 0 <= i < |engines| ensures |Rows(engines, bmcs, key, username)[i]| == |bmcs| {
      EngineTargetAt(engines[i], bmcs, key, username);
    }
  }

  /** Target number `i * |bmcs| + b` is engine `i` with BMC `b`. */
  lemma TargetAt<S>(
      engines: seq<EngineBackend<S>>, bmcs: seq<BMC>, key: string, username: string, i: nat, b: nat) returns (k: nat)
    requires i < |engines| && b < |bmcs|
    ensures k == i * |bmcs| + b < |Targets(engines, bmcs, key, username)|
    ensures Targets(engines, bmcs, key, username)[k] == TargetOf(engines[i], bmcs[b], key, username)
  {
    TargetsAreRows(engines, bmcs, key, username);
    RowsHaveWidth(engines, bmcs, key, username);
    k := FlattenAt(Rows(engines, bmcs, key, username), |bmcs|, i, b);
    EngineTargetAt(engines[i], bmcs, key, username);
  }

  ghost function SpotOf<S>(t: Target<S>): set<Spot<S>> {
    if t.path.Ok? then {(t.store, t.path.value)} else {}
  }

  /** The spots of all targets that have a path. */
  ghost function Spots<S>(ts: seq<Target<S>>): set<Spot<S>> {
    if ts == [] then {} else Spots(ts[..|ts| - 1]) + SpotOf(ts[|ts| - 1])
  }

  lemma {:induction false} SpotsMember<S>(ts: seq<Target<S>>, x: Spot<S>)
    ensures x in Spots(ts) <==> exists i :: 0 <= i < |ts| && x in SpotOf(ts[i])
  {
    if ts != [] {
      var n := |ts| - 1;
      SpotsMember(ts[..n], x);
      if i :| 0 <= i < n && x in SpotOf(ts[..n][i]) {
        assert x in SpotOf(ts[i]);
      }
      if i :| 0 <= i < |ts| && x in SpotOf(ts[i]) {
        assert i < n ==> x in SpotOf(ts[..n][i]);
      }
    }
  }

  // ---------------------------------------------------------------- the pass

  /** How the work on one target ends: one case for each exit of the loop body. */
  datatype Ending = BuildFailed | CheckFailed | UpToDate | WriteFailed(landed: bool) | Written {
    predicate Success() {
      UpToDate? || Written?
    }

    predicate Attempts() {
      Written? || WriteFailed?
    }

    predicate Lands() {
      Written? || (WriteFailed? && landed)
    }
  }

  function EndingOf<S>(stores: map<S, Store>, t: Target<S>, c: Creds, a: Answers): (e: Ending)
    requires t.store in stores
    ensures e.Success() || e.Attempts() ==> t.path.Ok?
  {
    if t.path.Err? then BuildFailed
    else
      match NeedsUpdate(stores[t.store], t.path.value, c.password, a)
      case Err(_) => CheckFailed
      case Ok(false) => UpToDate
      case Ok(true) =>
        match a.write
        case Accepted => Written
        case Lost(_) => WriteFailed(false)
        case Landed(_) => WriteFailed(true)
  }

  function Effect<S>(stores: map<S, Store>, t: Target<S>, c: Creds, a: Answers): (stores': map<S, Store>)
    requires t.store in stores
    ensures stores'.Keys == stores.Keys
  {
    if EndingOf(stores, t, c, a).Lands() then
      stores[t.store := stores[t.store][t.path.value := SecretData(c)]]
    else stores
  }

  datatype BackendPath = BackendPath(
    path: string, bmcName: string, region: string, hostname: string, username: string,
    lastSyncTime: int, success: bool)

  function EntryOf<S>(t: Target<S>, time: int, success: bool): BackendPath {
    BackendPath(if t.path.Ok? then t.path.value else "", t.bmc, t.vars.region, t.vars.hostname, t.vars.username,
                time, success)
  }

  /** The stores, the status list and the two counters after some targets, and the spots written,
      in order. */
  datatype PassState<S> = PassState(
    stores: map<S, Store>, entries: seq<BackendPath>, syncSuccess: nat, syncErrors: nat, landed: seq<Spot<S>>)

  function Advance<S>(st: PassState<S>, t: Target<S>, c: Creds, time: int, a: Answers): PassState<S>
    requires t.store in st.stores
  {
    var e := EndingOf(st.stores, t, c, a);
    PassState(
      Effect(st.stores, t, c, a),
      st.entries + [EntryOf(t, time, e.Success())],
      st.syncSuccess + (if e.Success() then 1 else 0),
      st.syncErrors + (if e.Success() then 0 else 1),
      st.landed + (if e.Lands() then [(t.store, t.path.value)] else []))
  }

  /** Every target names one of the stores. */
  ghost predicate Known<S>(stores: map<S, Store>, ts: seq<Target<S>>) {
    forall i :: 0 <= i < |ts| ==> ts[i].store in stores
  }

  function Pass<S>(
      stores: map<S, Store>, ts: seq<Target<S>>, c: Creds, time: int, answers: nat -> Answers): (r: PassState<S>)
    requires Known(stores, ts)
    ensures r.stores.Keys == stores.Keys
  {
    if ts == [] then PassState(stores, [], 0, 0, [])
    else
      var n := |ts| - 1;
      Advance(Pass(stores, ts[..n], c, time, answers), ts[n], c, time, answers(n))
  }

  predicate AllFaultFree(answers: nat -> Answers, n: nat) {
    forall i :: 0 <= i < n ==> answers(i).FaultFree()
  }

  // ---------------------------------------------------------------- stores

  lemma {:induction false} SplitIndex(k: nat, rows: nat, columns: nat) returns (i: nat, b: nat)
    requires k < rows * columns
    ensures i < rows && b < columns && k == i * columns + b
  {
    if k < columns {
      i, b := 0, k;
      assert rows > 0;
    } else {
      assert (rows - 1) * columns == rows * columns - columns;
      i, b := SplitIndex(k - columns, rows - 1, columns);
      i := i + 1;
    }
  }

  lemma TargetStores<S>(
      stores: map<S, Store>, engines: seq<EngineBackend<S>>, bmcs: seq<BMC>, key: string, username: string)
    requires forall i :: 0 <= i < |engines| ==> engines[i].backend in stores
    ensures Known(stores, Targets(engines, bmcs, key, username))
  {
    TargetsLength(engines, bmcs, key, username);
    forall k | 0 <= k < |engines| * |bmcs| ensures Targets(engines, bmcs, key, username)[k].store in stores {
      var i, b := SplitIndex(k, |engines|, |bmcs|);
      var _ := TargetAt(engines, bmcs, key, username, i, b);
    }
  }

  ghost predicate Right<S>(stores: map<S, Store>, x: Spot<S>, password: string) {
    x.0 in stores && x.1 in stores[x.0] && HasPassword(stores[x.0][x.1], password)
  }

  ghost function Wrong<S>(stores: map<S, Store>, xs: set<Spot<S>>, password: string): set<Spot<S>> {
    set x | x in xs && !Right(stores, x, password)
  }

  /** What the spot holds is not what it held. */
  ghost predicate Changed<S>(before: map<S, Store>, after: map<S, Store>, x: Spot<S>)
    requires x.0 in before && x.0 in after
  {
    (x.1 in before[x.0]) != (x.1 in after[x.0]) || (x.1 in before[x.0] && before[x.0][x.1] != after[x.0][x.1])
  }

  ghost function PathsIn<S>(xs: set<Spot<S>>, s: S): set<string> {
    set x | x in xs && x.0 == s :: x.1
  }

  ghost function PutStore(store: Store, paths: set<string>, d: Data): Store {
    map p | p in store.Keys + paths :: if p in paths then d else store[p]
  }

  /** The stores with every spot of `xs` holding `d` and everything else as it was. */
  ghost function Put<S>(stores: map<S, Store>, xs: set<Spot<S>>, d: Data): map<S, Store> {
    map s | s in stores :: PutStore(stores[s], PathsIn(xs, s), d)
  }

  lemma PathsInMember<S>(xs: set<Spot<S>>, x: Spot<S>)
    ensures x.1 in PathsIn(xs, x.0) <==> x in xs
  {
    if x.1 in PathsIn(xs, x.0) {
      var y :| y in xs && y.0 == x.0 && y.1 == x.1;
      assert y == x;
    }
  }

  lemma PutMember<S>(stores: map<S, Store>, xs: set<Spot<S>>, d: Data, x: Spot<S>)
    requires x.0 in stores
    ensures x.1 in Put(stores, xs, d)[x.0] <==> x in xs || x.1 in stores[x.0]
    ensures x in xs ==> Put(stores, xs, d)[x.0][x.1] == d
    ensures x !in xs && x.1 in stores[x.0] ==> Put(stores, xs, d)[x.0][x.1] == stores[x.0][x.1]
  {
    PathsInMember(xs, x);
  }

  lemma PutNothing<S>(stores: map<S, Store>, d: Data)
    ensures Put(stores, {}, d) == stores
  {
    forall s | s in stores ensures Put(stores, {}, d)[s] == stores[s] {
      assert PathsIn({}, s) == {};
    }
  }

  lemma PutOneMore<S>(stores: map<S, Store>, xs: set<Spot<S>>, d: Data, x: Spot<S>)
    requires x.0 in stores
    ensures var before := Put(stores, xs, d);
            before[x.0 := before[x.0][x.1 := d]] == Put(stores, xs + {x}, d)
  {
    var before, after := Put(stores, xs, d), Put(stores, xs + {x}, d);
    var updated := before[x.0 := before[x.0][x.1 := d]];
    assert updated.Keys == after.Keys;
    forall s | s in stores ensures updated[s] == after[s] {
      PutOneMoreIn(stores[s], xs, d, x, s);
    }
  }

  lemma PutOneMoreIn<S>(store: Store, xs: set<Spot<S>>, d: Data, x: Spot<S>, s: S)
    ensures PutStore(store, PathsIn(xs + {x}, s), d) ==
            if s == x.0 then PutStore(store, PathsIn(xs, s), d)[x.1 := d] else PutStore(store, PathsIn(xs, s), d)
  {
    PathsInOneMore(xs, x, s);
    if s == x.0 {
      PutStoreOneMore(store, PathsIn(xs, s), d, x.1);
    }
  }

  lemma PathsInOneMore<S>(xs: set<Spot<S>>, x: Spot<S>, s: S)
    ensures PathsIn(xs + {x}, s) == PathsIn(xs, s) + if s == x.0 then {x.1} else {}
  {
    assert x in xs + {x};
  }

  lemma PutStoreOneMore(store: Store, paths: set<string>, d: Data, p: string)
    ensures PutStore(store, paths, d)[p := d] == PutStore(store, paths + {p}, d)
  {
  }

  lemma PutRight<S>(stores: map<S, Store>, xs: set<Spot<S>>, c: Creds, x: Spot<S>)
    requires x.0 in stores
    ensures Right(Put(stores, xs, SecretData(c)), x, c.password) <==> x in xs || Right(stores, x, c.password)
  {
    PutMember(stores, xs, SecretData(c), x);
  }

  // ---------------------------------------------------------------- what a pass does

  ghost predicate Distinct<T>(xs: seq<T>) {
    forall i, j :: 0 <= i < j < |xs| ==> xs[i] != xs[j]
  }

  ghost function Elements<T>(xs: seq<T>): set<T> {
    set i | 0 <= i < |xs| :: xs[i]
  }

  /** The state after some targets of a pass that began with `stores`: the record is at the spots
      landed on, nothing else changed, and those spots are distinct and were wrong. */
  ghost predicate Tracks<S>(stores: map<S, Store>, st: PassState<S>, spots: set<Spot<S>>, c: Creds) {
    && st.stores == Put(stores, Elements(st.landed), SecretData(c))
    && Distinct(st.landed)
    && Elements(st.landed) <= Wrong(stores, spots, c.password)
  }

  /** A step that lands adds one spot, which was wrong and had not been landed on. */
  lemma LandingPuts<S>(stores: map<S, Store>, landed: set<Spot<S>>, t: Target<S>, c: Creds, a: Answers)
    requires t.store in stores
    requires EndingOf(Put(stores, landed, SecretData(c)), t, c, a).Lands()
    ensures SpotOf(t) == {(t.store, t.path.value)}
    ensures Effect(Put(stores, landed, SecretData(c)), t, c, a) == Put(stores, landed + SpotOf(t), SecretData(c))
    ensures SpotOf(t) !! landed && SpotOf(t) == Wrong(stores, SpotOf(t), c.password)
  {
    var x := (t.store, t.path.value);
    PutRight(stores, landed, c, x);
    PutOneMore(stores, landed, SecretData(c), x);
  }

  lemma AdvanceTracks<S>(
      stores: map<S, Store>, st: PassState<S>, spots: set<Spot<S>>, t: Target<S>, c: Creds, time: int, a: Answers)
    requires t.store in stores && Tracks(stores, st, spots, c)
    ensures Tracks(stores, Advance(st, t, c, time, a), spots + SpotOf(t), c)
    ensures Elements(st.landed) <= Elements(Advance(st, t, c, time, a).landed)
  {
    var landed := Elements(st.landed);
    if EndingOf(st.stores, t, c, a).Lands() {
      LandingPuts(stores, landed, t, c, a);
      var x := (t.store, t.path.value);
      ElementsAppend(st.landed, x);
      assert Advance(st, t, c, time, a).landed == st.landed + [x];
      assert Distinct(st.landed + [x]) by {
        assert forall i :: 0 <= i < |st.landed| ==> st.landed[i] in landed;
      }
    } else {
      assert Advance(st, t, c, time, a).landed == st.landed;
    }
  }

  /** When a step reports success, and what a fault-free step achieves. */
  lemma AdvanceReports<S>(
      stores: map<S, Store>, st: PassState<S>, spots: set<Spot<S>>, t: Target<S>, c: Creds, time: int, a: Answers)
    requires t.store in stores && Tracks(stores, st, spots, c)
    ensures var landed, success := Elements(Advance(st, t, c, time, a).landed), EndingOf(st.stores, t, c, a).Success();
            && (success ==> SpotOf(t) != {})
            && (success ==> forall x :: x in SpotOf(t) ==> x in landed || Right(stores, x, c.password))
            && (a.FaultFree() ==> forall x :: x in SpotOf(t) && !Right(stores, x, c.password) ==> x in landed)
            && (a.FaultFree() && t.path.Ok? ==> success)
  {
    if t.path.Ok? {
      var x := (t.store, t.path.value);
      PutRight(stores, Elements(st.landed), c, x);
      ElementsAppend(st.landed, x);
      if !EndingOf(st.stores, t, c, a).Lands() {
        assert Advance(st, t, c, time, a).landed == st.landed;
      }
    }
  }

  lemma ElementsAppend<T>(xs: seq<T>, x: T)
    ensures Elements(xs + [x]) == Elements(xs) + {x}
  {
    var ys := xs + [x];
    assert ys[|xs|] == x;
    assert forall i :: 0 <= i < |xs| ==> ys[i] == xs[i];
  }

  /** Under any answers, a pass puts the record at the spots it landed on and changes nothing else,
      and those spots are distinct wrong targets. */
  lemma {:induction false} PassLands<S>(
      stores: map<S, Store>, ts: seq<Target<S>>, c: Creds, time: int, answers: nat -> Answers)
    requires Known(stores, ts)
    ensures Tracks(stores, Pass(stores, ts, c, time, answers), Spots(ts), c)
  {
    if ts == [] {
      PutNothing(stores, SecretData(c));
      assert Elements<Spot<S>>([]) == {};
    } else {
      var n := |ts| - 1;
      PassLands(stores, ts[..n], c, time, answers);
      AdvanceTracks(stores, Pass(stores, ts[..n], c, time, answers), Spots(ts[..n]), ts[n], c, time, answers(n));
    }
  }

  /** The entry describes the target; a success entry means the target was right or landed on. */
  ghost predicate EntrySound<S>(
      stores: map<S, Store>, landed: set<Spot<S>>, t: Target<S>, e: BackendPath, password: string, time: int) {
    && e == EntryOf(t, time, e.success)
    && (e.success ==> SpotOf(t) != {} && forall x :: x in SpotOf(t) ==> x in landed || Right(stores, x, password))
  }

  function Count(entries: seq<BackendPath>, success: bool): nat {
    if entries == [] then 0
    else Count(entries[..|entries| - 1], success) + if entries[|entries| - 1].success == success then 1 else 0
  }

  lemma {:induction false} PassCounts<S>(
      stores: map<S, Store>, ts: seq<Target<S>>, c: Creds, time: int, answers: nat -> Answers)
    requires Known(stores, ts)
    ensures var r := Pass(stores, ts, c, time, answers);
            && |r.entries| == |ts| == r.syncSuccess + r.syncErrors
            && Count(r.entries, true) == r.syncSuccess && Count(r.entries, false) == r.syncErrors
  {
    if ts != [] {
      var n := |ts| - 1;
      PassCounts(stores, ts[..n], c, time, answers);
      var r := Pass(stores, ts, c, time, answers);
      assert r.entries[..n] == Pass(stores, ts[..n], c, time, answers).entries;
    }
  }

  ghost predicate EntriesSound<S>(
      stores: map<S, Store>, st: PassState<S>, ts: seq<Target<S>>, password: string, time: int) {
    && |st.entries| == |ts|
    && forall i :: 0 <= i < |ts| ==> EntrySound(stores, Elements(st.landed), ts[i], st.entries[i], password, time)
  }

  lemma AdvanceEntries<S>(
      stores: map<S, Store>, st: PassState<S>, ts: seq<Target<S>>, t: Target<S>, c: Creds, time: int, a: Answers)
    requires t.store in stores && Tracks(stores, st, Spots(ts), c) && EntriesSound(stores, st, ts, c.password, time)
    ensures EntriesSound(stores, Advance(st, t, c, time, a), ts + [t], c.password, time)
  {
    var after := Advance(st, t, c, time, a);
    AdvanceTracks(stores, st, Spots(ts), t, c, time, a);
    AdvanceReports(stores, st, Spots(ts), t, c, time, a);
    assert EntrySound(stores, Elements(after.landed), t, after.entries[|ts|], c.password, time);
    forall i | 0 <= i < |ts|
      ensures EntrySound(stores, Elements(after.landed), ts[i], after.entries[i], c.password, time)
    {
      assert EntrySound(stores, Elements(st.landed), ts[i], st.entries[i], c.password, time);
    }
  }

  lemma {:induction false} PassEntries<S>(
      stores: map<S, Store>, ts: seq<Target<S>>, c: Creds, time: int, answers: nat -> Answers)
    requires Known(stores, ts)
    ensures EntriesSound(stores, Pass(stores, ts, c, time, answers), ts, c.password, time)
  {
    if ts != [] {
      var n := |ts| - 1;
      PassEntries(stores, ts[..n], c, time, answers);
      PassLands(stores, ts[..n], c, time, answers);
      AdvanceEntries(stores, Pass(stores, ts[..n], c, time, answers), ts[..n], ts[n], c, time, answers(n));
      assert ts[..n] + [ts[n]] == ts;
    }
  }

  /** A fault-free pass lands on every wrong target. */
  lemma {:induction false} FaultFreeLands<S>(
      stores: map<S, Store>, ts: seq<Target<S>>, c: Creds, time: int, answers: nat -> Answers)
    requires Known(stores, ts)
    requires AllFaultFree(answers, |ts|)
    ensures Wrong(stores, Spots(ts), c.password) <= Elements(Pass(stores, ts, c, time, answers).landed)
  {
    if ts != [] {
      var n := |ts| - 1;
      FaultFreeLands(stores, ts[..n], c, time, answers);
      PassLands(stores, ts[..n], c, time, answers);
      var before := Pass(stores, ts[..n], c, time, answers);
      AdvanceTracks(stores, before, Spots(ts[..n]), ts[n], c, time, answers(n));
      AdvanceReports(stores, before, Spots(ts[..n]), ts[n], c, time, answers(n));
    }
  }
}

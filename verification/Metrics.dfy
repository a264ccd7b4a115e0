/** The metrics collector: labelled counters and gauges as maps, and the error classifier. */
module Metrics {
  import opened Wrappers

  const SUCCESS := "success"
  const ERROR := "error"

  // ---------------------------------------------------------------- classifying errors

  predicate OccursAt(s: string, marker: string, i: int) {
    0 <= i && i + |marker| <= |s| && s[i..i + |marker|] == marker
  }

  ghost predicate Occurs(s: string, marker: string) {
    exists i :: OccursAt(s, marker, i)
  }

  /** True when one of the markers occurs at some position; the inner slice never leaves `s`. */
  method Contains(s: string, substrings: seq<string>) returns (found: bool)
    ensures found <==> exists k :: 0 <= k < |substrings| && Occurs(s, substrings[k])
  {
    for k := 0 to |substrings|
      invariant forall j :: 0 <= j < k ==> !Occurs(s, substrings[j])
    {
      var marker := substrings[k];
      if |marker| <= |s| {
        for i := 0 to |s| - |marker| + 1
          invariant forall j :: 0 <= j < i ==> !OccursAt(s, marker, j)
        {
          if s[i..i + |marker|] == marker {
            assert OccursAt(s, marker, i);
            return true;
          }
        }
      }
    }
    return false;
  }

  datatype Category = Category(name: string, markers: seq<string>)

  /** The categories in the order in which they are tried. */
  const CATEGORIES: seq<Category> := [
    Category("network", ["connection refused", "connection reset", "dial tcp", "no such host"]),
    Category("auth", ["authentication failed", "unauthorized", "permission denied", "forbidden", "invalid token"]),
    Category("not_found", ["not found", "does not exist"]),
    Category("timeout", ["timeout", "deadline exceeded", "context canceled"]),
    Category("config", ["invalid configuration", "missing", "required"])
  ]

  const UNKNOWN := "unknown"

  ghost predicate Falls(s: string, c: Category) {
    exists k :: 0 <= k < |c.markers| && Occurs(s, c.markers[k])
  }

  /** The name of the first category, from the `from`-th on, with a marker in the text. */
  ghost function ClassFrom(s: string, from: nat): string
    requires from <= |CATEGORIES|
    decreases |CATEGORIES| - from
  {
    if from == |CATEGORIES| then UNKNOWN
    else if Falls(s, CATEGORIES[from]) then CATEGORIES[from].name
    else ClassFrom(s, from + 1)
  }

  ghost function ErrorClass(err: Option<string>): string {
    if err.None? then "none" else ClassFrom(err.value, 0)
  }

  method ClassifyError(err: Option<string>) returns (errorType: string)
    ensures errorType == ErrorClass(err)
    ensures err.Some? ==> errorType in ERROR_TYPES
  {
    if err.None? {
      return "none";
    }
    ClassIsFirst(err.value);
    var network := Contains(err.value, CATEGORIES[0].markers);
    if network {
      return "network";
    }
    var auth := Contains(err.value, CATEGORIES[1].markers);
    if auth {
      return "auth";
    }
    var notFound := Contains(err.value, CATEGORIES[2].markers);
    if notFound {
      return "not_found";
    }
    var timeout := Contains(err.value, CATEGORIES[3].markers);
    if timeout {
      return "timeout";
    }
    var config := Contains(err.value, CATEGORIES[4].markers);
    if config {
      return "config";
    }
    return UNKNOWN;
  }

  /** The class of an error is that of a category with an occurring marker such that no category
      tried before has one, or `unknown` when no category has one. */
  lemma ClassIsFirst(s: string)
    ensures ErrorClass(Some(s)) in ERROR_TYPES
    ensures forall k :: 0 <= k < |CATEGORIES| ==>
              (ErrorClass(Some(s)) == CATEGORIES[k].name <==>
               Falls(s, CATEGORIES[k]) && forall j :: 0 <= j < k ==> !Falls(s, CATEGORIES[j]))
  {
  }

  ghost predicate Network(s: string) {
    || Occurs(s, "connection refused") || Occurs(s, "connection reset")
    || Occurs(s, "dial tcp") || Occurs(s, "no such host")
  }

  ghost predicate Auth(s: string) {
    || Occurs(s, "authentication failed") || Occurs(s, "unauthorized") || Occurs(s, "permission denied")
    || Occurs(s, "forbidden") || Occurs(s, "invalid token")
  }

  ghost predicate NotFound(s: string) {
    Occurs(s, "not found") || Occurs(s, "does not exist")
  }

  ghost predicate Timeout(s: string) {
    Occurs(s, "timeout") || Occurs(s, "deadline exceeded") || Occurs(s, "context canceled")
  }

  ghost predicate Configuration(s: string) {
    Occurs(s, "invalid configuration") || Occurs(s, "missing") || Occurs(s, "required")
  }

  /** Every class, by the texts that stand for it: network before authentication, before missing things,
      before timeouts, before configuration. */
  lemma ClassesOfErrors(s: string)
    ensures ErrorClass(None) == "none"
    ensures Network(s) ==> ErrorClass(Some(s)) == "network"
    ensures Auth(s) && !Network(s) ==> ErrorClass(Some(s)) == "auth"
    ensures NotFound(s) && !Network(s) && !Auth(s) ==> ErrorClass(Some(s)) == "not_found"
    ensures Timeout(s) && !Network(s) && !Auth(s) && !NotFound(s) ==> ErrorClass(Some(s)) == "timeout"
    ensures Configuration(s) && !Network(s) && !Auth(s) && !NotFound(s) && !Timeout(s) ==>
              ErrorClass(Some(s)) == "config"
    ensures !Network(s) && !Auth(s) && !NotFound(s) && !Timeout(s) && !Configuration(s) ==>
              ErrorClass(Some(s)) == "unknown"
  {
    FallsMeans(s, CATEGORIES[0]);
    FallsMeans(s, CATEGORIES[1]);
    FallsMeans(s, CATEGORIES[2]);
    FallsMeans(s, CATEGORIES[3]);
    FallsMeans(s, CATEGORIES[4]);
    assert ClassFrom(s, 5) == UNKNOWN;
    assert ClassFrom(s, 3) == if Falls(s, CATEGORIES[3]) then "timeout" else ClassFrom(s, 4);
    assert ClassFrom(s, 1) == if Falls(s, CATEGORIES[1]) then "auth" else ClassFrom(s, 2);
  }

  lemma FallsMeans(s: string, c: Category)
    requires 2 <= |c.markers| <= 5
    ensures Falls(s, c) <==>
              || Occurs(s, c.markers[0]) || Occurs(s, c.markers[1])
              || (|c.markers| > 2 && Occurs(s, c.markers[2])) || (|c.markers| > 3 && Occurs(s, c.markers[3]))
              || (|c.markers| > 4 && Occurs(s, c.markers[4]))
  {
  }

  const ERROR_TYPES: seq<string> := ["network", "auth", "not_found", "timeout", "config", UNKNOWN]

  // ---------------------------------------------------------------- what was recorded

  datatype Operation = Operation(operation: string, backendType: string, err: Option<string>)

  datatype SyncRecord = SyncRecord(secret: string, succeeded: int, failed: int, time: int)

  function ResultOf(o: Operation): string {
    if o.err.None? then SUCCESS else ERROR
  }

  /** The result label of an operation. */
  lemma ResultLabel(o: Operation)
    ensures ResultOf(o) == "success" <==> o.err.None?
    ensures ResultOf(o) == "error" <==> o.err.Some?
  {
    assert "success"[0] == 's' && "error"[0] == 'e';
  }

  predicate Concerns(o: Operation, operation: string, backendType: string) {
    o.operation == operation && o.backendType == backendType
  }

  function Calls(log: seq<Operation>, operation: string, backendType: string): nat {
    if log == [] then 0
    else
      var last := log[|log| - 1];
      Calls(log[..|log| - 1], operation, backendType) + if Concerns(last, operation, backendType) then 1 else 0
  }

  function CallsWithResult(log: seq<Operation>, operation: string, backendType: string, result: string): nat {
    if log == [] then 0
    else
      var last := log[|log| - 1];
      CallsWithResult(log[..|log| - 1], operation, backendType, result)
      + if Concerns(last, operation, backendType) && ResultOf(last) == result then 1 else 0
  }

  ghost function ErrorsOfType(log: seq<Operation>, operation: string, backendType: string, errorType: string): nat {
    if log == [] then 0
    else
      var last := log[|log| - 1];
      ErrorsOfType(log[..|log| - 1], operation, backendType, errorType)
      + if Concerns(last, operation, backendType) && last.err.Some? && ErrorClass(last.err) == errorType then 1 else 0
  }

  ghost function SumOverTypes(log: seq<Operation>, operation: string, backendType: string, types: seq<string>): nat {
    if types == [] then 0
    else ErrorsOfType(log, operation, backendType, types[0]) + SumOverTypes(log, operation, backendType, types[1..])
  }

  /** Whether the sync counts as successful for the last-success gauge. */
  predicate CleanSync(s: SyncRecord, secret: string) {
    s.secret == secret && s.succeeded > 0 && s.failed == 0
  }

  function LastCleanSync(log: seq<SyncRecord>, secret: string): Option<int> {
    if log == [] then None
    else if CleanSync(log[|log| - 1], secret) then Some(log[|log| - 1].time)
    else LastCleanSync(log[..|log| - 1], secret)
  }

  function LastSync(log: seq<SyncRecord>, secret: string): Option<SyncRecord> {
    if log == [] then None
    else if log[|log| - 1].secret == secret then Some(log[|log| - 1])
    else LastSync(log[..|log| - 1], secret)
  }

  function Counter<K>(m: map<K, nat>, k: K): nat {
    if k in m then m[k] else 0
  }

  function Gauge(m: map<string, int>, k: string): Option<int> {
    if k in m then Some(m[k]) else None
  }

  class Collector {
    var backendOpTotal: map<(string, string, string), nat>
    var backendErrorsTotal: map<(string, string, string), nat>
    var syncSuccessPaths: map<string, int>
    var syncFailedPaths: map<string, int>
    var syncLastSuccessTime: map<string, int>
    ghost var operations: seq<Operation>
    ghost var syncs: seq<SyncRecord>

    ghost predicate Valid()
      reads this
    {
      && (forall o, b, r :: Counter(backendOpTotal, (o, b, r)) == CallsWithResult(operations, o, b, r))
      && (forall o, b, t :: Counter(backendErrorsTotal, (o, b, t)) == ErrorsOfType(operations, o, b, t))
      && (forall s :: Gauge(syncLastSuccessTime, s) == LastCleanSync(syncs, s))
      && (forall s :: Gauge(syncSuccessPaths, s) ==
                      if LastSync(syncs, s).None? then None else Some(LastSync(syncs, s).value.succeeded))
      && (forall s :: Gauge(syncFailedPaths, s) ==
                      if LastSync(syncs, s).None? then None else Some(LastSync(syncs, s).value.failed))
    }

    constructor ()
      ensures Valid() && operations == [] && syncs == []
    {
      backendOpTotal, backendErrorsTotal := map[], map[];
      syncSuccessPaths, syncFailedPaths, syncLastSuccessTime := map[], map[], map[];
      operations, syncs := [], [];
    }

    method RecordSyncStatus(secret: string, successPaths: int, failedPaths: int, syncTime: int)
      requires Valid()
      modifies this
      ensures Valid() && operations == old(operations)
      ensures syncs == old(syncs) + [SyncRecord(secret, successPaths, failedPaths, syncTime)]
    {
      syncSuccessPaths := syncSuccessPaths[secret := successPaths];
      syncFailedPaths := syncFailedPaths[secret := failedPaths];
      if successPaths > 0 && failedPaths == 0 {
        syncLastSuccessTime := syncLastSuccessTime[secret := syncTime];
      }
      syncs := syncs + [SyncRecord(secret, successPaths, failedPaths, syncTime)];
      assert syncs[..|syncs| - 1] == old(syncs);
    }

    method RecordBackendOperation(operation: string, backendType: string, err: Option<string>)
      requires Valid()
      modifies this
      ensures Valid() && syncs == old(syncs)
      ensures operations == old(operations) + [Operation(operation, backendType, err)]
    {
      var result := SUCCESS;
      if err.Some? {
        result := ERROR;
        var errorType := ClassifyError(err);
        var k := (operation, backendType, errorType);
        backendErrorsTotal := backendErrorsTotal[k := Counter(backendErrorsTotal, k) + 1];
      }
      var k := (operation, backendType, result);
      backendOpTotal := backendOpTotal[k := Counter(backendOpTotal, k) + 1];
      operations := operations + [Operation(operation, backendType, err)];
      assert operations[..|operations| - 1] == old(operations);
    }

    method RecordBackendOperationWithEngine(operation: string, backendType: string, engine: string, err: Option<string>)
      requires Valid()
      modifies this
      ensures Valid() && syncs == old(syncs)
      ensures operations == old(operations)
                            + [Operation(
                                 operation, if engine == "" then backendType else backendType + ":" + engine, err)]
    {
      var backendLabel := backendType;
      if engine != "" {
        backendLabel := backendType + ":" + engine;
      }
      RecordBackendOperation(operation, backendLabel, err);
    }
  }

  // ---------------------------------------------------------------- conservation

  lemma {:induction false} ResultsAddUp(log: seq<Operation>, o: string, b: string)
    ensures CallsWithResult(log, o, b, SUCCESS) + CallsWithResult(log, o, b, ERROR) == Calls(log, o, b)
  {
    if log != [] {
      ResultsAddUp(log[..|log| - 1], o, b);
      assert SUCCESS[0] != ERROR[0];
    }
  }

  lemma {:induction false} ErrorTypesAddUp(log: seq<Operation>, o: string, b: string)
    ensures SumOverTypes(log, o, b, ERROR_TYPES) == CallsWithResult(log, o, b, ERROR)
  {
    if log == [] {
      SumNewError(log, o, b, ERROR_TYPES, None);
    } else {
      var last := log[|log| - 1];
      ErrorTypesAddUp(log[..|log| - 1], o, b);
      assert SUCCESS[0] != ERROR[0];
      if last.err.Some? {
        ClassIsFirst(last.err.value);
      }
      TypesDistinct();
      var newest := if Concerns(last, o, b) && last.err.Some? then Some(ErrorClass(last.err)) else None;
      SumNewError(log, o, b, ERROR_TYPES, newest);
    }
  }

  lemma TypesDistinct()
    ensures forall i, j :: 0 <= i < j < |ERROR_TYPES| ==> ERROR_TYPES[i] != ERROR_TYPES[j]
  {
    assert |ERROR_TYPES[0]| == 7 && |ERROR_TYPES[1]| == 4 && |ERROR_TYPES[2]| == 9;
    assert |ERROR_TYPES[3]| == 7 && |ERROR_TYPES[4]| == 6 && |ERROR_TYPES[5]| == 7;
    assert ERROR_TYPES[0][0] == 'n' && ERROR_TYPES[3][0] == 't' && ERROR_TYPES[5][0] == 'u';
  }

  /** The newest operation adds one to the sum exactly when its error type is among the types. */
  lemma {:induction false} SumNewError(
      log: seq<Operation>, o: string, b: string, types: seq<string>, newest: Option<string>)
    requires forall i, j :: 0 <= i < j < |types| ==> types[i] != types[j]
    requires log == [] ==> newest == None
    requires log != [] ==>
               var last := log[|log| - 1];
               newest == if Concerns(last, o, b) && last.err.Some? then Some(ErrorClass(last.err)) else None
    ensures log == [] ==> SumOverTypes(log, o, b, types) == 0
    ensures log != [] ==> SumOverTypes(log, o, b, types) ==
                          SumOverTypes(log[..|log| - 1], o, b, types)
                          + if newest.Some? && newest.value in types then 1 else 0
  {
    if types != [] {
      assert types == [types[0]] + types[1..];
      SumNewError(log, o, b, types[1..], newest);
    }
  }

  function SumOfCounters(m: map<(string, string, string), nat>, o: string, b: string, types: seq<string>): nat {
    if types == [] then 0 else Counter(m, (o, b, types[0])) + SumOfCounters(m, o, b, types[1..])
  }

  lemma {:induction false} CountersHoldSum(c: Collector, o: string, b: string, types: seq<string>)
    requires c.Valid()
    ensures SumOfCounters(c.backendErrorsTotal, o, b, types) == SumOverTypes(c.operations, o, b, types)
  {
    if types != [] {
      CountersHoldSum(c, o, b, types[1..]);
    }
  }

  /** What the counters of a collector say about everything recorded so far. */
  lemma CountersConserve(c: Collector, o: string, b: string)
    requires c.Valid()
    ensures Counter(c.backendOpTotal, (o, b, SUCCESS)) + Counter(c.backendOpTotal, (o, b, ERROR)) ==
            Calls(c.operations, o, b)
    ensures SumOfCounters(c.backendErrorsTotal, o, b, ERROR_TYPES) == Counter(c.backendOpTotal, (o, b, ERROR))
    ensures forall t :: t !in ERROR_TYPES ==> Counter(c.backendErrorsTotal, (o, b, t)) == 0
  {
    ResultsAddUp(c.operations, o, b);
    ErrorTypesAddUp(c.operations, o, b);
    CountersHoldSum(c, o, b, ERROR_TYPES);
    forall t | t !in ERROR_TYPES ensures ErrorsOfType(c.operations, o, b, t) == 0 {
      NoOtherTypes(c.operations, o, b, t);
    }
  }

  lemma {:induction false} NoOtherTypes(log: seq<Operation>, o: string, b: string, t: string)
    requires t !in ERROR_TYPES
    ensures ErrorsOfType(log, o, b, t) == 0
  {
    if log != [] {
      NoOtherTypes(log[..|log| - 1], o, b, t);
      if log[|log| - 1].err.Some? {
        ClassIsFirst(log[|log| - 1].err.value);
      }
    }
  }

  lemma {:induction false} LatestCleanSync(log: seq<SyncRecord>, secret: string)
    ensures LastCleanSync(log, secret).None? <==> forall i :: 0 <= i < |log| ==> !CleanSync(log[i], secret)
    ensures LastCleanSync(log, secret).Some? ==>
              exists i :: && 0 <= i < |log| && CleanSync(log[i], secret)
                          && log[i].time == LastCleanSync(log, secret).value
                          && forall j :: i < j < |log| ==> !CleanSync(log[j], secret)
  {
    if log != [] {
      var n := |log| - 1;
      LatestCleanSync(log[..n], secret);
      if CleanSync(log[n], secret) {
        assert log[n].time == LastCleanSync(log, secret).value;
      } else if LastCleanSync(log, secret).Some? {
        var i :| 0 <= i < n && CleanSync(log[..n][i], secret) && log[..n][i].time == LastCleanSync(log, secret).value
                 && forall j :: i < j < n ==> !CleanSync(log[..n][j], secret);
        assert CleanSync(log[i], secret);
        assert forall j :: i < j < n ==> log[..n][j] == log[j];
      } else {
        assert forall i :: 0 <= i < n ==> log[..n][i] == log[i];
      }
    }
  }

  /** The last-success gauge of a secret is set exactly when some recorded sync of it had no failed
      and at least one successful path, and it holds the time of the latest such sync. */
  lemma GaugeIsLatestCleanSync(log: seq<SyncRecord>, secret: string)
    ensures LastCleanSync(log, secret).None? <==>
              forall i :: 0 <= i < |log| ==> log[i].secret == secret ==> log[i].succeeded <= 0 || log[i].failed != 0
    ensures LastCleanSync(log, secret).Some? ==>
              exists i :: && 0 <= i < |log| && log[i].secret == secret && log[i].succeeded > 0 && log[i].failed == 0
                          && log[i].time == LastCleanSync(log, secret).value
                          && forall j :: i < j < |log| && log[j].secret == secret ==>
                                           log[j].succeeded <= 0 || log[j].failed != 0
  {
    LatestCleanSync(log, secret);
    if LastCleanSync(log, secret).Some? {
      var i :| && 0 <= i < |log| && CleanSync(log[i], secret) && log[i].time == LastCleanSync(log, secret).value
               && forall j :: i < j < |log| ==> !CleanSync(log[j], secret);
      assert log[i].secret == secret;
    } else {
      assert forall i :: 0 <= i < |log| ==> !CleanSync(log[i], secret);
    }
  }

  /** The sync that the other two gauges of a secret show: the latest recorded one, whatever came of it. */
  lemma {:induction false} GaugesAreLatestSync(log: seq<SyncRecord>, secret: string, i: nat)
    requires i < |log| && log[i].secret == secret && forall j :: i < j < |log| ==> log[j].secret != secret
    ensures LastSync(log, secret) == Some(log[i])
  {
    var n := |log| - 1;
    if i < n {
      GaugesAreLatestSync(log[..n], secret, i);
    }
  }
}

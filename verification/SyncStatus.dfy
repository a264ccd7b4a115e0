/** The status resource of a secret: the latest counts and the condition list. */
module SyncStatus {
  import opened Wrappers
  import opened SyncPass

  const SYNCED := "Synced"

  datatype Message =
    | SyncedTo(successful: int)
    | SyncedSome(successful: int, total: int, failed: int)
    | SyncedNone(failed: int)

  datatype Condition = Condition(
    kind: string, status: bool, observedGeneration: int, lastTransitionTime: int, reason: string, message: Message)

  datatype Status = Status(
    backendPaths: seq<BackendPath>, lastSyncAttempt: int, totalPaths: int, successfulPaths: int, failedPaths: int,
    conditions: seq<Condition>)

  datatype StatusObject = StatusObject(bmcSecretRef: string, generation: int, status: Status)

  const EMPTY_STATUS := Status([], 0, 0, 0, 0, [])

  /** What one pass reports and when. */
  datatype Update = Update(backendPaths: seq<BackendPath>, total: int, successful: int, failed: int, now: int)

  /** Status and reason, the part of a condition that is compared. */
  function Classify(successful: int, failed: int): (bool, string) {
    if failed == 0 then (true, "AllPathsSynced")
    else if successful > 0 then (false, "PartialSync")
    else (false, "SyncFailed")
  }

  function Verdict(u: Update): (bool, string) {
    Classify(u.successful, u.failed)
  }

  function MessageFor(u: Update): Message {
    if u.failed == 0 then SyncedTo(u.successful)
    else if u.successful > 0 then SyncedSome(u.successful, u.total, u.failed)
    else SyncedNone(u.failed)
  }

  function ConditionFor(u: Update, generation: int): Condition {
    Condition(SYNCED, Verdict(u).0, generation, u.now, Verdict(u).1, MessageFor(u))
  }

  /** The list with the condition of this type replaced if its status or reason differs, left as it
      is if they agree, and appended if there is none. */
  function WithCondition(conditions: seq<Condition>, c: Condition): seq<Condition> {
    if conditions == [] then [c]
    else if conditions[0].kind == c.kind then
      (if conditions[0].status != c.status || conditions[0].reason != c.reason then [c] + conditions[1..]
       else conditions)
    else [conditions[0]] + WithCondition(conditions[1..], c)
  }

  function Updated(st: Status, generation: int, u: Update): Status {
    Status(u.backendPaths, u.now, u.total, u.successful, u.failed,
           WithCondition(st.conditions, ConditionFor(u, generation)))
  }

  /** A fetched copy of the resource, changed in place before it is written back. */
  class StatusCopy {
    var status: Status

    constructor (status: Status)
      ensures this.status == status
    {
      this.status := status;
    }

    method SetCondition(newCondition: Condition)
      modifies this
      ensures status == old(status).(conditions := WithCondition(old(status.conditions), newCondition))
    {
      ghost var before := status.conditions;
      WithConditionAt(before, newCondition);
      for i := 0 to |status.conditions|
        invariant status == old(status)
        invariant NoneOf(before[..i], newCondition.kind)
      {
        var condition := status.conditions[i];
        if condition.kind == newCondition.kind {
          IndexOfAt(before, newCondition.kind, i);
          if condition.status != newCondition.status || condition.reason != newCondition.reason {
            status := status.(conditions := status.conditions[i := newCondition]);
          }
          return;
        }
        assert before[..i + 1] == before[..i] + [condition];
      }
      IndexOfAt(before, newCondition.kind, |before|);
      status := status.(conditions := status.conditions + [newCondition]);
    }

    method Record(u: Update, generation: int)
      modifies this
      ensures status == Updated(old(status), generation, u)
    {
      status := status.(backendPaths := u.backendPaths, lastSyncAttempt := u.now, totalPaths := u.total,
                        successfulPaths := u.successful, failedPaths := u.failed);
      if u.failed == 0 {
        SetCondition(Condition(SYNCED, true, generation, u.now, "AllPathsSynced", SyncedTo(u.successful)));
      } else if u.successful > 0 {
        SetCondition(
          Condition(SYNCED, false, generation, u.now, "PartialSync", SyncedSome(u.successful, u.total, u.failed)));
      } else {
        SetCondition(Condition(SYNCED, false, generation, u.now, "SyncFailed", SyncedNone(u.failed)));
      }
    }
  }

  // ---------------------------------------------------------------- the resource in the API

  /** How the API answers the calls of one status update. */
  datatype StatusAnswers = StatusAnswers(
    get: Option<string>, create: Option<string>, refetch: Option<string>, update: Option<string>)

  function StatusName(secretName: string): string {
    secretName + "-sync-status"
  }

  function UpdateSyncStatus(statuses: map<string, StatusObject>, secretName: string, u: Update, a: StatusAnswers)
    : (r: (map<string, StatusObject>, Option<string>))
  {
    var name := StatusName(secretName);
    if a.get.Some? then (statuses, a.get)
    else if name !in statuses && a.create.Some? then (statuses, a.create)
    else
      var present := if name in statuses then statuses else statuses[name := StatusObject(secretName, 1, EMPTY_STATUS)];
      if name !in statuses && a.refetch.Some? then (present, a.refetch)
      else if a.update.Some? then (present, a.update)
      else
        var o := present[name];
        (present[name := o.(status := Updated(o.status, o.generation, u))], None)
  }

  // ---------------------------------------------------------------- condition history

  predicate NoneOf(conditions: seq<Condition>, kind: string) {
    forall i :: 0 <= i < |conditions| ==> conditions[i].kind != kind
  }

  /** The index of the first condition of the type, or the length. */
  function IndexOf(conditions: seq<Condition>, kind: string): (i: nat)
    ensures i <= |conditions| && NoneOf(conditions[..i], kind)
    ensures i < |conditions| ==> conditions[i].kind == kind
  {
    if conditions == [] || conditions[0].kind == kind then 0
    else
      var i := 1 + IndexOf(conditions[1..], kind);
      assert conditions[..i] == [conditions[0]] + conditions[1..][..i - 1];
      i
  }

  /** `WithCondition` changes at most the first condition of its type and keeps every other one at
      its place. */
  lemma {:induction false} WithConditionAt(conditions: seq<Condition>, c: Condition)
    ensures var i, r := IndexOf(conditions, c.kind), WithCondition(conditions, c);
            if i == |conditions| then r == conditions + [c]
            else if conditions[i].status != c.status || conditions[i].reason != c.reason then r == conditions[i := c]
            else r == conditions
  {
    if conditions != [] && conditions[0].kind != c.kind {
      WithConditionAt(conditions[1..], c);
      assert conditions == [conditions[0]] + conditions[1..];
    }
  }

  /** An update and the generation that the resource had when it was recorded. */
  datatype Recorded = Recorded(update: Update, generation: int)

  function Statuses(st: Status, rs: seq<Recorded>): Status {
    if rs == [] then st
    else
      var last := rs[|rs| - 1];
      Updated(Statuses(st, rs[..|rs| - 1]), last.generation, last.update)
  }

  /** Where the last run of equal verdicts begins. */
  function RunStart(rs: seq<Recorded>): (m: nat)
    requires rs != []
    ensures m < |rs|
  {
    var n := |rs| - 1;
    if n > 0 && Verdict(rs[n - 1].update) == Verdict(rs[n].update) then RunStart(rs[..n]) else n
  }

  lemma {:induction false} RunStartIsLastChange(rs: seq<Recorded>)
    requires rs != []
    ensures forall j :: RunStart(rs) <= j < |rs| ==> Verdict(rs[j].update) == Verdict(rs[|rs| - 1].update)
    ensures RunStart(rs) > 0 ==> Verdict(rs[RunStart(rs) - 1].update) != Verdict(rs[|rs| - 1].update)
  {
    var n := |rs| - 1;
    if n > 0 && Verdict(rs[n - 1].update) == Verdict(rs[n].update) {
      RunStartIsLastChange(rs[..n]);
      assert forall j :: 0 <= j < n ==> rs[..n][j] == rs[j];
    }
  }

  /** After any sequence of updates of a resource that had no Synced condition: there is exactly one,
      behind the conditions that were there, which are untouched; it carries the verdict of the
      latest counts, and everything else in it, the observed generation included, is that of the
      update where the verdict last changed. */
  lemma {:induction false} ConditionHistory(st: Status, rs: seq<Recorded>)
    requires rs != [] && NoneOf(st.conditions, SYNCED)
    ensures var r, start, last := Statuses(st, rs), rs[RunStart(rs)], rs[|rs| - 1].update;
            && r.conditions == st.conditions + [ConditionFor(start.update, start.generation)]
            && (r.conditions[|st.conditions|].status, r.conditions[|st.conditions|].reason) == Verdict(last)
            && (r.totalPaths, r.successfulPaths, r.failedPaths) == (last.total, last.successful, last.failed)
  {
    var n := |rs| - 1;
    RunStartIsLastChange(rs);
    if n == 0 {
      FirstOfHistory(st, rs);
    } else {
      ConditionHistory(st, rs[..n]);
      var start := rs[..n][RunStart(rs[..n])];
      SecondCondition(
        st.conditions, ConditionFor(start.update, start.generation), ConditionFor(rs[n].update, rs[n].generation));
      assert rs[..n][n - 1] == rs[n - 1];
    }
  }

  lemma FirstOfHistory(st: Status, rs: seq<Recorded>)
    requires |rs| == 1 && NoneOf(st.conditions, SYNCED)
    ensures Statuses(st, rs) == Updated(st, rs[0].generation, rs[0].update)
    ensures Statuses(st, rs).conditions == st.conditions + [ConditionFor(rs[0].update, rs[0].generation)]
  {
    WithConditionAt(st.conditions, ConditionFor(rs[0].update, rs[0].generation));
    assert Statuses(st, rs[..0]) == st;
    assert IndexOf(st.conditions, SYNCED) == |st.conditions|;
  }

  /** What an update does to a list that ends with the only condition of its type. */
  lemma SecondCondition(conditions: seq<Condition>, c: Condition, c': Condition)
    requires NoneOf(conditions, c.kind) && c.kind == c'.kind
    ensures WithCondition(conditions + [c], c') ==
            conditions + [if c.status != c'.status || c.reason != c'.reason then c' else c]
  {
    var all := conditions + [c];
    assert all[..|conditions|] == conditions;
    IndexOfAt(all, c.kind, |conditions|);
    WithConditionAt(all, c');
    assert all[|conditions| := c'] == conditions + [c'];
  }

  lemma {:induction false} IndexOfAt(conditions: seq<Condition>, kind: string, i: nat)
    requires i <= |conditions| && NoneOf(conditions[..i], kind)
    requires i < |conditions| ==> conditions[i].kind == kind
    ensures IndexOf(conditions, kind) == i
  {
    if i > 0 {
      assert conditions[..i][0] == conditions[0];
      assert conditions[1..][..i - 1] == conditions[..i][1..];
      IndexOfAt(conditions[1..], kind, i - 1);
    }
  }

  /** The message shows the counts of the update where the verdict last changed. It agrees with the
      latest counts exactly when the counts it shows have not changed since. */
  lemma MessageMayLag(st: Status, rs: seq<Recorded>)
    requires rs != [] && NoneOf(st.conditions, SYNCED)
    ensures var r, u, v := Statuses(st, rs), rs[|rs| - 1].update, rs[RunStart(rs)].update;
            && |r.conditions| == |st.conditions| + 1
            && (r.conditions[|st.conditions|].message == MessageFor(u) <==>
                  && (v.failed != 0 ==> v.failed == u.failed)
                  && (v.failed == 0 || v.successful > 0 ==> v.successful == u.successful)
                  && (v.failed != 0 && v.successful > 0 ==> v.total == u.total))
  {
    ConditionHistory(st, rs);
    RunStartIsLastChange(rs);
    assert Verdict(rs[RunStart(rs)].update) == Verdict(rs[|rs| - 1].update);
    VerdictsDiffer();
  }

  lemma VerdictsDiffer()
    ensures "AllPathsSynced" != "PartialSync" && "PartialSync" != "SyncFailed" && "AllPathsSynced" != "SyncFailed"
  {
    assert "AllPathsSynced"[0] == 'A' && "PartialSync"[0] == 'P' && "SyncFailed"[0] == 'S';
  }

  /** Three paths synced, then only two because a BMC went away: the condition still says three, and
      still carries the generation of the first update. */
  lemma MessageLags()
    ensures var rs := [Recorded(Update([], 3, 3, 0, 10), 1), Recorded(Update([], 2, 2, 0, 20), 2)];
            var r := Statuses(EMPTY_STATUS, rs);
            && r.successfulPaths == 2
            && r.conditions == [Condition(SYNCED, true, 1, 10, "AllPathsSynced", SyncedTo(3))]
  {
    var rs := [Recorded(Update([], 3, 3, 0, 10), 1), Recorded(Update([], 2, 2, 0, 20), 2)];
    ConditionHistory(EMPTY_STATUS, rs);
    assert rs[..1] == [rs[0]];
  }

  // ---------------------------------------------------------------- what the condition says about the counts

  /** The counts add up, count the entries, and there is at least one. */
  ghost predicate AddsUp(backendPaths: seq<BackendPath>, total: int, successful: int, failed: int) {
    && total == successful + failed == |backendPaths| >= 1
    && successful == Count(backendPaths, true) && failed == Count(backendPaths, false)
  }

  ghost predicate CountsAddUp(st: Status) {
    AddsUp(st.backendPaths, st.totalPaths, st.successfulPaths, st.failedPaths)
  }

  /** There is no Synced condition, or exactly one, and then the stored counts add up and its status
      and reason classify them. */
  ghost predicate Consistent(st: Status) {
    var i := IndexOf(st.conditions, SYNCED);
    i < |st.conditions| ==>
      && NoneOf(st.conditions[i + 1..], SYNCED)
      && CountsAddUp(st)
      && (st.conditions[i].status, st.conditions[i].reason) == Classify(st.successfulPaths, st.failedPaths)
  }

  /** An update keeps the resource consistent, if what is reported adds up. */
  lemma UpdateKeepsConsistent(st: Status, generation: int, u: Update)
    requires Consistent(st) && AddsUp(u.backendPaths, u.total, u.successful, u.failed)
    ensures Consistent(Updated(st, generation, u)) && CountsAddUp(Updated(st, generation, u))
    ensures IndexOf(Updated(st, generation, u).conditions, SYNCED) < |Updated(st, generation, u).conditions|
  {
    var c, i := ConditionFor(u, generation), IndexOf(st.conditions, SYNCED);
    var after := WithCondition(st.conditions, c);
    WithConditionAt(st.conditions, c);
    assert after[..i] == st.conditions[..i];
    IndexOfAt(after, SYNCED, i);
    assert i < |st.conditions| ==> after[i + 1..] == st.conditions[i + 1..];
  }

  /** The condition is the only one of its type; the stored counts add up and count at least one path;
      and it is true exactly if no path failed, that is, if every listed path succeeded. */
  ghost predicate TellsTheTruth(st: Status, i: nat)
    requires i < |st.conditions|
  {
    && st.totalPaths == st.successfulPaths + st.failedPaths == |st.backendPaths| >= 1
    && (st.conditions[i].status <==> st.successfulPaths == st.totalPaths)
    && (st.conditions[i].status <==> forall j :: 0 <= j < |st.backendPaths| ==> st.backendPaths[j].success)
    && forall j :: 0 <= j < |st.conditions| && j != i ==> st.conditions[j].kind != st.conditions[i].kind
  }

  /** Whenever the status is consistent, what its Synced condition says is true of the listed paths. */
  lemma TrueMeansAllSynced(st: Status, i: nat)
    requires Consistent(st) && i < |st.conditions| && st.conditions[i].kind == SYNCED
    ensures TellsTheTruth(st, i)
  {
    var k := IndexOf(st.conditions, SYNCED);
    assert forall j :: 0 <= j < k ==> st.conditions[..k][j] == st.conditions[j];
    forall j | 0 <= j < |st.conditions| && j != k ensures st.conditions[j].kind != SYNCED {
      if j < k {
        assert st.conditions[..k][j].kind != SYNCED;
      } else {
        assert st.conditions[k + 1..][j - k - 1].kind != SYNCED;
      }
    }
    CountOfFailures(st.backendPaths);
  }

  lemma {:induction false} CountOfFailures(entries: seq<BackendPath>)
    ensures Count(entries, false) == 0 <==> forall j :: 0 <= j < |entries| ==> entries[j].success
  {
    if entries != [] {
      var n := |entries| - 1;
      CountOfFailures(entries[..n]);
      assert forall j :: 0 <= j < n ==> entries[..n][j] == entries[j];
    }
  }

  // ---------------------------------------------------------------- what an update leaves in the API

  /** What the resource holds is the latest report, and its first Synced condition says so: true if nothing
      failed, and otherwise false, for part of the paths or for all. */
  ghost predicate Reported(o: StatusObject, u: Update) {
    var st := o.status;
    var i := IndexOf(st.conditions, "Synced");
    && st.backendPaths == u.backendPaths && st.lastSyncAttempt == u.now
    && st.totalPaths == u.total && st.successfulPaths == u.successful && st.failedPaths == u.failed
    && i < |st.conditions|
    && (u.failed == 0 ==> st.conditions[i].status && st.conditions[i].reason == "AllPathsSynced")
    && (u.failed != 0 && u.successful > 0 ==> !st.conditions[i].status && st.conditions[i].reason == "PartialSync")
    && (u.failed != 0 && u.successful <= 0 ==> !st.conditions[i].status && st.conditions[i].reason == "SyncFailed")
  }

  /** A status update fails exactly if one of the API calls it makes fails, and otherwise the resource that
      is named after the secret, created if need be, holds the report. If it fails, the resource is as it was,
      or new and empty. No other resource changes. */
  lemma UpdateReports(statuses: map<string, StatusObject>, secretName: string, u: Update, a: StatusAnswers)
    ensures var (after, err) := UpdateSyncStatus(statuses, secretName, u, a);
            var n := secretName + "-sync-status";
            && (err.None? <==>
                  a.get.None? && (n in statuses || (a.create.None? && a.refetch.None?)) && a.update.None?)
            && (err.None? ==> n in after && Reported(after[n], u))
            && (err.None? && n in statuses ==>
                  after[n].bmcSecretRef == statuses[n].bmcSecretRef && after[n].generation == statuses[n].generation)
            && (err.None? && n !in statuses ==> after[n].bmcSecretRef == secretName && after[n].generation == 1)
            && (err.Some? ==>
                  || after == statuses
                  || (n !in statuses
                      && after == statuses[n := StatusObject(secretName, 1, Status([], 0, 0, 0, 0, []))]))
            && (forall m :: m in after && m != n ==> m in statuses && after[m] == statuses[m])
            && (forall m :: m in statuses ==> m in after)
  {
    var n := secretName + "-sync-status";
    var before := if n in statuses then statuses[n] else StatusObject(secretName, 1, EMPTY_STATUS);
    ReportedAfter(before, u);
  }

  lemma ReportedAfter(o: StatusObject, u: Update)
    ensures Reported(o.(status := Updated(o.status, o.generation, u)), u)
  {
    var c, conditions := ConditionFor(u, o.generation), o.status.conditions;
    var i, after := IndexOf(conditions, "Synced"), WithCondition(conditions, c);
    WithConditionAt(conditions, c);
    assert after[..i] == conditions[..i];
    IndexOfAt(after, "Synced", i);
  }

  /** The first condition that a resource gets, in full. */
  lemma FirstCondition(st: Status, generation: int, u: Update)
    requires NoneOf(st.conditions, "Synced")
    ensures var after := Updated(st, generation, u).conditions;
            && |after| == |st.conditions| + 1 && after[..|st.conditions|] == st.conditions
            && var c := after[|st.conditions|];
               && c.kind == "Synced" && c.observedGeneration == generation && c.lastTransitionTime == u.now
               && (u.failed == 0 ==> c.message == SyncedTo(u.successful))
               && (u.failed != 0 && u.successful > 0 ==> c.message == SyncedSome(u.successful, u.total, u.failed))
               && (u.failed != 0 && u.successful <= 0 ==> c.message == SyncedNone(u.failed))
  {
    WithConditionAt(st.conditions, ConditionFor(u, generation));
    IndexOfAt(st.conditions, "Synced", |st.conditions|);
  }
}

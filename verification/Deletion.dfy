/** The cleanup loop of a deleted secret, as a function of the default store and of what each delete
    call answers. */
module Deletion {
  import opened Wrappers
  import opened PathBuilder
  import opened Resolver
  import opened SyncPass

  /** A deletion is done, or reported as failed with or without having removed the entry. */
  datatype DeleteAnswer = Deleted | Kept(error: string) | Gone(error: string)

  function DeletionTargets<S>(
      backend: S, pathBuilder: Template, bmcs: seq<BMC>, key: string, username: string): seq<Target<S>> {
    EngineTargets(DefaultEngine(backend, pathBuilder), bmcs, key, username)
  }

  /** The store after some targets, the paths tried and those whose delete took effect, in order. */
  datatype DeleteState = DeleteState(store: Store, tried: seq<string>, removed: seq<string>)

  function DeleteOne(st: DeleteState, p: string, a: DeleteAnswer): DeleteState {
    DeleteState(
      if a.Kept? then st.store else st.store - {p}, st.tried + [p], st.removed + if a.Kept? then [] else [p])
  }

  function DeletePass<S>(store: Store, ts: seq<Target<S>>, deletions: nat -> DeleteAnswer): DeleteState {
    if ts == [] then DeleteState(store, [], [])
    else
      var n := |ts| - 1;
      var before := DeletePass(store, ts[..n], deletions);
      match ts[n].path
      case Err(_) => before
      case Ok(p) => DeleteOne(before, p, deletions(n))
  }

  /** The paths that can be built, in order. */
  function BuildablePaths<S>(ts: seq<Target<S>>): seq<string> {
    if ts == [] then []
    else BuildablePaths(ts[..|ts| - 1]) + match ts[|ts| - 1].path case Err(_) => [] case Ok(p) => [p]
  }

  /** The paths that some delete call removed. */
  ghost function RemovedPaths<S>(ts: seq<Target<S>>, deletions: nat -> DeleteAnswer): set<string> {
    set i | 0 <= i < |ts| && ts[i].path.Ok? && !deletions(i).Kept? :: ts[i].path.value
  }

  /** The cleanup tries every path that can be built, once per BMC and in order, whichever deletes
      fail, and removes exactly the entries whose delete took effect. */
  lemma {:induction false} CleanupRemoves<S>(store: Store, ts: seq<Target<S>>, deletions: nat -> DeleteAnswer)
    ensures DeletePass(store, ts, deletions).tried == BuildablePaths(ts)
    ensures DeletePass(store, ts, deletions).store == store - RemovedPaths(ts, deletions)
    ensures Elements(DeletePass(store, ts, deletions).removed) == RemovedPaths(ts, deletions)
  {
    if ts == [] {
      assert Elements<string>([]) == {};
    } else {
      var n := |ts| - 1;
      CleanupRemoves(store, ts[..n], deletions);
      RemovedOneMore(ts, deletions);
      if ts[n].path.Ok? {
        RemovedGrows(DeletePass(store, ts[..n], deletions), ts[n], deletions(n));
      }
    }
  }

  lemma RemovedGrows<S>(before: DeleteState, t: Target<S>, a: DeleteAnswer)
    requires t.path.Ok?
    ensures Elements(DeleteOne(before, t.path.value, a).removed) ==
            Elements(before.removed) + if a.Kept? then {} else {t.path.value}
  {
    ElementsAppend(before.removed, t.path.value);
    assert before.removed + [] == before.removed;
  }

  lemma RemovedOneMore<S>(ts: seq<Target<S>>, deletions: nat -> DeleteAnswer)
    requires ts != []
    ensures var n := |ts| - 1;
            RemovedPaths(ts, deletions) ==
            RemovedPaths(ts[..n], deletions) + if ts[n].path.Ok? && !deletions(n).Kept? then {ts[n].path.value} else {}
  {
    var n := |ts| - 1;
    var us := ts[..n];
    assert forall i :: 0 <= i < n ==> us[i] == ts[i];
    forall p | p in RemovedPaths(us, deletions) ensures p in RemovedPaths(ts, deletions) {
      var i :| 0 <= i < n && us[i].path.Ok? && !deletions(i).Kept? && us[i].path.value == p;
      assert ts[i].path.value == p;
    }
    if ts[n].path.Ok? && !deletions(n).Kept? {
      assert ts[n].path.value in RemovedPaths(ts, deletions);
    }
  }

  /** Without faults the cleanup removes all target paths and nothing else. */
  lemma FaultFreeCleanup<S>(store: Store, ts: seq<Target<S>>, deletions: nat -> DeleteAnswer)
    requires forall i :: 0 <= i < |ts| ==> deletions(i).Deleted?
    ensures DeletePass(store, ts, deletions).store == store - Elements(BuildablePaths(ts))
  {
    CleanupRemoves(store, ts, deletions);
    forall p ensures p in RemovedPaths(ts, deletions) <==> p in Elements(BuildablePaths(ts)) {
      BuildablePathsMember(ts, p);
      if i :| 0 <= i < |ts| && ts[i].path == Ok(p) {
        assert !deletions(i).Kept?;
      }
    }
    assert RemovedPaths(ts, deletions) == Elements(BuildablePaths(ts));
  }

  lemma {:induction false} BuildablePathsMember<S>(ts: seq<Target<S>>, p: string)
    ensures p in Elements(BuildablePaths(ts)) <==> exists i :: 0 <= i < |ts| && ts[i].path == Ok(p)
  {
    if ts != [] {
      var n := |ts| - 1;
      var us := ts[..n];
      BuildablePathsMember(us, p);
      if ts[n].path.Ok? {
        ElementsAppend(BuildablePaths(us), ts[n].path.value);
      } else {
        assert BuildablePaths(ts) == BuildablePaths(us);
      }
      if i :| 0 <= i < |us| && us[i].path == Ok(p) {
        assert ts[i].path == Ok(p);
      }
      if i :| 0 <= i < |ts| && ts[i].path == Ok(p) {
        assert i < n ==> us[i].path == Ok(p);
      }
    }
  }
}

/** What concurrent getters answer, compared with a computation without cache: linearizability and the
    refinement of no cache put together. */
module FactoryCurrent {
  import opened Wrappers
  import opened FactoryCache
  import opened FactoryRefinement
  import P = FactoryProtocol

  // ---------------------------------------------------------------- when the operations took place

  /** What the operation in slot `i` read, and needed, it read between its two versions. */
  ghost predicate EntryTimed(
      versions: seq<Option<SecretBackendConfig>>, hist: seq<P.Entry>, i: nat, fromEnv: Result<Config>)
    requires i < |hist|
  {
    var e, st := hist[i], P.After(hist[..i], fromEnv);
    && P.ReadBetween(versions, e.seen, e.from, e.to)
    && (Loads(st, e.op) ==> e.op.read in e.seen) && (Lists(st, e.op, fromEnv) ==> e.op.live in e.seen)
  }

  /** Each operation starts when the one before it is done. */
  ghost predicate Ordered(hist: seq<P.Entry>) {
    forall i, j :: 0 <= i < j < |hist| ==> hist[i].to <= hist[j].from
  }

  ghost predicate DoneBy(hist: seq<P.Entry>, version: nat) {
    forall i :: 0 <= i < |hist| ==> hist[i].to <= version
  }

  ghost predicate Timed(s: P.Proto, fromEnv: Result<Config>) {
    && s.versions != [] && Ordered(s.hist)
    && (forall i :: 0 <= i < |s.hist| ==> EntryTimed(s.versions, s.hist, i, fromEnv))
    && (s.writer.Some? && P.PcOf(s, s.writer.value).Locked? ==> DoneBy(s.hist, P.PcOf(s, s.writer.value).from))
  }

  lemma AllDone(s: P.Proto, fromEnv: Result<Config>)
    requires Timed(s, fromEnv)
    ensures DoneBy(s.hist, s.Version())
  {
    forall i | 0 <= i < |s.hist| ensures s.hist[i].to <= s.Version() {
      assert EntryTimed(s.versions, s.hist, i, fromEnv);
    }
  }

  lemma EntryStaysTimed(
      versions: seq<Option<SecretBackendConfig>>, versions': seq<Option<SecretBackendConfig>>, hist: seq<P.Entry>,
      hist': seq<P.Entry>, i: nat, fromEnv: Result<Config>)
    requires i < |hist| && EntryTimed(versions, hist, i, fromEnv) && hist <= hist' && versions <= versions'
    ensures EntryTimed(versions', hist', i, fromEnv)
  {
    assert hist'[..i] == hist[..i];
    var e := hist[i];
    P.ReadBetweenStays(versions, versions', e.seen, e.from, e.from, e.to, e.to);
  }

  /** One more operation, that starts when all others are done and reads in time. */
  lemma AppendTimed(s: P.Proto, s': P.Proto, e: P.Entry, fromEnv: Result<Config>)
    requires Timed(s, fromEnv) && s'.hist == s.hist + [e] && s'.versions == s.versions && s'.writer.None?
    requires DoneBy(s.hist, e.from) && P.ReadBetween(s.versions, e.seen, e.from, e.to)
    requires var st := P.After(s.hist, fromEnv);
             (Loads(st, e.op) ==> e.op.read in e.seen) && (Lists(st, e.op, fromEnv) ==> e.op.live in e.seen)
    ensures Timed(s', fromEnv)
  {
    forall i | 0 <= i < |s'.hist| ensures EntryTimed(s'.versions, s'.hist, i, fromEnv) {
      if i < |s.hist| {
        EntryStaysTimed(s.versions, s.versions, s.hist, s'.hist, i, fromEnv);
      } else {
        assert s'.hist[..i] == s.hist;
      }
    }
  }

  lemma SameHistory(s: P.Proto, s': P.Proto, fromEnv: Result<Config>)
    requires Timed(s, fromEnv) && s'.hist == s.hist && s.versions <= s'.versions
    requires s'.writer.Some? && P.PcOf(s', s'.writer.value).Locked? ==> DoneBy(s.hist, P.PcOf(s', s'.writer.value).from)
    ensures Timed(s', fromEnv)
  {
    forall i | 0 <= i < |s.hist| ensures EntryTimed(s'.versions, s'.hist, i, fromEnv) {
      EntryStaysTimed(s.versions, s'.versions, s.hist, s'.hist, i, fromEnv);
    }
  }

  lemma HitTimed(s: P.Proto, t: P.Thread, inv: P.Invocation, answer: Answer, fromEnv: Result<Config>)
    requires Timed(s, fromEnv) && P.Inv(s, fromEnv) && P.LogHolds(s, fromEnv)
    requires P.PcOf(s, t) == P.Reading(inv) && P.Peek(inv.call, s.st.cache) == Some(answer)
    ensures Timed(P.TakeHit(s, t, inv, answer), fromEnv)
  {
    assert t in s.readers;
    assert P.ThreadHolds(s, t, fromEnv);
    AllDone(s, fromEnv);
    P.HitFits(inv, s.st, fromEnv);
    AppendTimed(s, P.TakeHit(s, t, inv, answer), P.Hit(s, t, inv, answer), fromEnv);
  }

  lemma FinishTimed(
      s: P.Proto, t: P.Thread, inv: P.Invocation, base: State, op: Op, answer: Answer, from: nat,
      fromEnv: Result<Config>)
    requires Timed(s, fromEnv) && P.Inv(s, fromEnv) && P.LogHolds(s, fromEnv)
    requires P.PcOf(s, t) == P.Locked(inv, base, P.Finished(op, answer), from)
    ensures Timed(P.Finish(s, t, inv, op, answer, from), fromEnv)
  {
    assert s.writer == Some(t);
    assert P.ThreadHolds(s, t, fromEnv);
    var e := P.Entry(t, op, answer, inv.seen, from, s.Version());
    AppendTimed(s, P.Finish(s, t, inv, op, answer, from), e, fromEnv);
  }

  lemma StepKeepsTimed(s: P.Proto, t: P.Thread, ch: P.Choice, fromEnv: Result<Config>)
    requires Timed(s, fromEnv) && P.Inv(s, fromEnv) && P.LogHolds(s, fromEnv)
    ensures Timed(P.Step(s, t, ch, fromEnv), fromEnv)
  {
    var s', pc := P.Step(s, t, ch, fromEnv), P.PcOf(s, t);
    if pc.Reading? && P.Peek(pc.inv.call, s.st.cache).Some? {
      HitTimed(s, t, pc.inv, P.Peek(pc.inv.call, s.st.cache).value, fromEnv);
    } else if pc.Locked? && pc.phase.Finished? {
      FinishTimed(s, t, pc.inv, pc.base, pc.phase.op, pc.phase.answer, pc.from, fromEnv);
    } else {
      AllDone(s, fromEnv);
      WriterStays(s, t, ch, fromEnv);
      SameHistory(s, s', fromEnv);
    }
  }

  lemma WriterStays(s: P.Proto, t: P.Thread, ch: P.Choice, fromEnv: Result<Config>)
    requires Timed(s, fromEnv) && P.LocksHold(s) && DoneBy(s.hist, s.Version())
    requires !(P.PcOf(s, t).Reading? && P.Peek(P.PcOf(s, t).inv.call, s.st.cache).Some?)
    requires !(P.PcOf(s, t).Locked? && P.PcOf(s, t).phase.Finished?)
    ensures var s' := P.Step(s, t, ch, fromEnv);
            && s'.hist == s.hist && s'.versions == s.versions
            && (s'.writer.Some? && P.PcOf(s', s'.writer.value).Locked? ==>
                  DoneBy(s.hist, P.PcOf(s', s'.writer.value).from))
  {
    var s' := P.Step(s, t, ch, fromEnv);
    if s'.writer.Some? && s'.writer.value != t {
      P.OthersUntouched(s, t, ch, s'.writer.value, fromEnv);
    }
  }

  lemma {:induction false} RunKeepsTimed(
      cr: Option<SecretBackendConfig>, acts: seq<P.Act>, fromEnv: Result<Config>)
    ensures Timed(P.Run(cr, acts, fromEnv), fromEnv)
  {
    if acts != [] {
      var before, a := P.Run(cr, acts[..|acts| - 1], fromEnv), acts[|acts| - 1];
      RunKeepsTimed(cr, acts[..|acts| - 1], fromEnv);
      P.RunKeepsInv(cr, acts[..|acts| - 1], fromEnv);
      P.RunKeepsLog(cr, acts[..|acts| - 1], fromEnv);
      match a {
        case ThreadStep(t, ch) => StepKeepsTimed(before, t, ch, fromEnv);
        case EditCR(_) => SameHistory(before, P.Take(before, a, fromEnv), fromEnv);
      }
    }
  }

  // ---------------------------------------------------------------- what a returned getter has answered

  /** Since slot `p` the resource has been at one version until the operation in slot `q` was done: slot
      `p` follows an invalidation that succeeded at that version, or it is the first slot and the resource
      has never been edited. */
  ghost predicate Settled(s: P.Proto, p: nat, q: nat) {
    && p <= q < |s.hist|
    && if p == 0 then s.hist[q].to == 0
       else s.hist[p - 1].op.InvalidateCache? && s.hist[p - 1].answer == Done && s.hist[p - 1].to == s.hist[q].to
  }

  /** No operation in between has cached the environment's configuration in place of another one. */
  ghost predicate NoneMisled(s: P.Proto, p: nat, q: nat, fromEnv: Result<Config>)
    requires p <= q < |s.hist| && s.hist[q].to < |s.versions|
  {
    forall i :: p <= i < q ==>
      !Misled(P.After(s.hist[..i], fromEnv), s.hist[i].op, s.versions[s.hist[q].to], fromEnv)
  }

  lemma SlotSees(s: P.Proto, i: nat, v: nat, fromEnv: Result<Config>)
    requires i < |s.hist| && v < |s.versions| && EntryTimed(s.versions, s.hist, i, fromEnv)
    requires s.hist[i].from == s.hist[i].to == v
    ensures Sees(P.After(s.hist[..i], fromEnv), s.hist[i].op, s.versions[v], fromEnv)
  {
  }

  lemma AfterOneMore(hist: seq<P.Entry>, i: nat, fromEnv: Result<Config>)
    requires i < |hist|
    ensures P.After(hist[..i + 1], fromEnv) == Apply(P.After(hist[..i], fromEnv), hist[i].op, fromEnv).0
  {
    assert P.OpsOf(hist[..i + 1])[..i] == P.OpsOf(hist[..i]);
  }

  /** Every operation in between took place at the one version. */
  lemma VersionFixed(s: P.Proto, p: nat, i: nat, q: nat, fromEnv: Result<Config>)
    requires Timed(s, fromEnv) && Settled(s, p, q) && p <= i <= q
    ensures s.hist[i].from == s.hist[i].to == s.hist[q].to
  {
    assert EntryTimed(s.versions, s.hist, i, fromEnv) && EntryTimed(s.versions, s.hist, q, fromEnv);
    assert i < q ==> s.hist[i].to <= s.hist[q].from;
    assert p > 0 ==> s.hist[p - 1].to <= s.hist[i].from;
  }

  lemma ClearedIsCoherent(st: State, op: Op, cr: Option<SecretBackendConfig>, fromEnv: Result<Config>)
    requires op.InvalidateCache? && Apply(st, op, fromEnv).1 == Done
    ensures Coherent(Apply(st, op, fromEnv).0, cr, fromEnv)
  {
  }

  lemma StartIsCoherent(s: P.Proto, p: nat, q: nat, cr: Option<SecretBackendConfig>, fromEnv: Result<Config>)
    requires P.Legal(s.hist, fromEnv) && Settled(s, p, q)
    ensures Coherent(P.After(s.hist[..p], fromEnv), cr, fromEnv)
  {
    if p == 0 {
      assert P.OpsOf(s.hist[..0]) == [];
    } else {
      AfterOneMore(s.hist, p - 1, fromEnv);
      ClearedIsCoherent(P.After(s.hist[..p - 1], fromEnv), s.hist[p - 1].op, cr, fromEnv);
    }
  }

  ghost predicate CoherentAt(
      hist: seq<P.Entry>, i: nat, cr: Option<SecretBackendConfig>, fromEnv: Result<Config>)
    requires i <= |hist|
  {
    Coherent(P.After(hist[..i], fromEnv), cr, fromEnv)
  }

  /** The operation in slot `i` sees the resource and is not misled. */
  ghost predicate QuietAt(hist: seq<P.Entry>, i: nat, cr: Option<SecretBackendConfig>, fromEnv: Result<Config>)
    requires i < |hist|
  {
    var st := P.After(hist[..i], fromEnv);
    Sees(st, hist[i].op, cr, fromEnv) && !Misled(st, hist[i].op, cr, fromEnv)
  }

  lemma QuietKeepsCoherent(hist: seq<P.Entry>, i: nat, cr: Option<SecretBackendConfig>, fromEnv: Result<Config>)
    requires i < |hist| && QuietAt(hist, i, cr, fromEnv) && CoherentAt(hist, i, cr, fromEnv)
    ensures CoherentAt(hist, i + 1, cr, fromEnv)
  {
    CoherentAnswers(P.After(hist[..i], fromEnv), hist[i].op, cr, fromEnv);
    AfterOneMore(hist, i, fromEnv);
  }

  lemma {:induction false} CoherentSince(
      hist: seq<P.Entry>, p: nat, i: nat, cr: Option<SecretBackendConfig>, fromEnv: Result<Config>)
    requires p <= i <= |hist| && CoherentAt(hist, p, cr, fromEnv)
    requires forall k :: p <= k < i ==> QuietAt(hist, k, cr, fromEnv)
    ensures CoherentAt(hist, i, cr, fromEnv)
  {
    if p < i {
      CoherentSince(hist, p, i - 1, cr, fromEnv);
      QuietKeepsCoherent(hist, i - 1, cr, fromEnv);
    }
  }

  lemma SlotIsQuiet(s: P.Proto, p: nat, i: nat, q: nat, fromEnv: Result<Config>)
    requires Timed(s, fromEnv) && Settled(s, p, q) && s.hist[q].to < |s.versions|
    requires NoneMisled(s, p, q, fromEnv) && p <= i < q
    ensures QuietAt(s.hist, i, s.versions[s.hist[q].to], fromEnv)
  {
    VersionFixed(s, p, i, q, fromEnv);
    assert EntryTimed(s.versions, s.hist, i, fromEnv);
    SlotSees(s, i, s.hist[q].to, fromEnv);
  }

  /** A getter that ran concurrently with any other calls: if the resource was at one version from an
      invalidation that succeeded, or from the start, until the call was done, and no call in between was
      misled, then this version was current between the invocation and the return, and if its own reads
      worked the answer is what a computation without cache gives for it, or a failure to connect. */
  lemma {:induction false} AnswersAreCurrent(
      cr: Option<SecretBackendConfig>, acts: seq<P.Act>, fromEnv: Result<Config>, k: nat, p: nat)
    requires var s := P.Run(cr, acts, fromEnv);
             && k < |s.returned| && Settled(s, p, s.returned[k].slot)
             && !s.returned[k].inv.call.ForInvalidate? && !s.returned[k].inv.call.ForClose?
    requires var s := P.Run(cr, acts, fromEnv);
             var q := s.returned[k].slot;
             && s.hist[q].to < |s.versions| && NoneMisled(s, p, q, fromEnv)
             && ReadsWork(P.After(s.hist[..q], fromEnv), s.hist[q].op, fromEnv)
    ensures var s := P.Run(cr, acts, fromEnv);
            var r, v := s.returned[k], s.hist[s.returned[k].slot].to;
            && r.inv.version <= v <= r.version
            && (r.answer == Uncached(P.HitOp(r.inv.call), s.versions[v], fromEnv)
                || (r.answer == Failed && !Connects(s.hist[r.slot].op)))
  {
    RunKeepsTimed(cr, acts, fromEnv);
    P.Linearizable(cr, acts, fromEnv);
    var s := P.Run(cr, acts, fromEnv);
    CurrentAt(s, s.returned[k], p, fromEnv);
  }

  lemma CurrentAt(s: P.Proto, r: P.Return, p: nat, fromEnv: Result<Config>)
    requires Timed(s, fromEnv) && P.Legal(s.hist, fromEnv) && Settled(s, p, r.slot)
    requires P.Explained(s.hist, r.thread, r.inv, r.answer, r.slot, r.until, r.version, fromEnv)
    requires !r.inv.call.ForInvalidate? && !r.inv.call.ForClose?
    requires s.hist[r.slot].to < |s.versions| && NoneMisled(s, p, r.slot, fromEnv)
    requires ReadsWork(P.After(s.hist[..r.slot], fromEnv), s.hist[r.slot].op, fromEnv)
    ensures var v := s.hist[r.slot].to;
            && r.inv.version <= v <= r.version
            && (r.answer == Uncached(P.HitOp(r.inv.call), s.versions[v], fromEnv)
                || (r.answer == Failed && !Connects(s.hist[r.slot].op)))
  {
    var q := r.slot;
    var st, op, v := P.After(s.hist[..q], fromEnv), s.hist[q].op, s.hist[q].to;
    StartIsCoherent(s, p, q, s.versions[v], fromEnv);
    forall i | p <= i < q ensures QuietAt(s.hist, i, s.versions[v], fromEnv) {
      SlotIsQuiet(s, p, i, q, fromEnv);
    }
    CoherentSince(s.hist, p, q, s.versions[v], fromEnv);
    VersionFixed(s, p, q, q, fromEnv);
    assert EntryTimed(s.versions, s.hist, q, fromEnv);
    SlotSees(s, q, v, fromEnv);
    CoherentAnswers(st, op, s.versions[v], fromEnv);
    SameQuestion(r.inv.call, op, s.versions[v], fromEnv);
  }

  lemma SameQuestion(call: P.Call, op: Op, cr: Option<SecretBackendConfig>, fromEnv: Result<Config>)
    requires P.KindFits(call, op) && !call.ForInvalidate? && !call.ForClose?
    ensures Getter(op) && Uncached(op, cr, fromEnv) == Uncached(P.HitOp(call), cr, fromEnv)
  {
  }
}

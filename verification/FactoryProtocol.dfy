/** Any number of threads calling the factory at once. Each getter looks at its field under the read
    lock, gives the lock up, takes the write lock, looks again and fills the field in several steps;
    the resource may change between any two steps. */
module FactoryProtocol {
  import opened Wrappers
  import opened PathBuilder
  import opened MultiEngine
  import opened FactoryCache
  import opened FactoryRefinement

  type Thread = nat

  datatype Call =
    | ForBackend
    | ForPathBuilder
    | ForRegionLabelKey
    | ForSyncLabel
    | ForEngines(labels: Labels)
    | ForInvalidate
    | ForClose

  /** A call that was made. `since`, `after` and `version` are the lengths of the history and of the
      list of returned calls and the current version of the resource at that moment; `seen` is every
      read of the resource that the call has made so far. */
  datatype Invocation = Invocation(call: Call, since: nat, after: nat, version: nat, seen: seq<Read>)

  /** Where a thread that holds the write lock is, with what it has read and made so far. */
  datatype Phase =
    | Checking
    | Loading
    | HasLoaded(read: Read, l: Loaded)
    | HasCreated(read: Read, l: Loaded)
    | HasStored(read: Read, l: Loaded)
    | HasConfig(read: Read)
    | HasBuilder(read: Read, template: Template)
    | HasEngines(read: Read, live: Read, connects: nat -> bool, all: seq<Engine>)
    | BackendClosed
    | ClosingEngines(i: nat)
    | EnginesCleared
    | ConfigCleared
    | Finished(op: Op, answer: Answer)

  /** Where a thread is. `base` and `from` are the state and the version it found when it got the write
      lock. */
  datatype PC =
    | Idle
    | WantRead(inv: Invocation)
    | Reading(inv: Invocation)
    | Leaving(inv: Invocation, answer: Answer, slot: nat)
    | Missed(inv: Invocation)
    | WantWrite(inv: Invocation)
    | Locked(inv: Invocation, base: State, phase: Phase, from: nat)

  /** An operation, as it is ordered in the history, with what it read, and the versions of the resource
      when it started, holding a lock, and when it was done. */
  datatype Entry = Entry(thread: Thread, op: Op, answer: Answer, seen: seq<Read>, from: nat, to: nat)

  /** What a thread was answered, with the slot of the history that stands for its call. `until` and
      `version` are the length of the history and the current version at the return. */
  datatype Return = Return(
    thread: Thread, inv: Invocation, answer: Answer, slot: nat, until: nat, version: nat)

  /** `versions` are all values the resource has had, the current one last. */
  datatype Proto = Proto(
    versions: seq<Option<SecretBackendConfig>>, st: State, readers: set<Thread>, writer: Option<Thread>,
    pcs: map<Thread, PC>, hist: seq<Entry>, returned: seq<Return>)
  {
    function Version(): nat {
      if versions == [] then 0 else |versions| - 1
    }

    function Current(): Option<SecretBackendConfig> {
      if versions == [] then None else versions[Version()]
    }
  }

  /** What the environment decides in one step. */
  datatype Choice = Choice(call: Call, ok: bool, readFails: bool, connects: nat -> bool)

  datatype Act = ThreadStep(thread: Thread, choice: Choice) | EditCR(cr: Option<SecretBackendConfig>)

  function PcOf(s: Proto, t: Thread): PC {
    if t in s.pcs then s.pcs[t] else Idle
  }

  function Observe(s: Proto, ch: Choice): Read {
    if ch.readFails then ReadFailed else ReadOf(s.Current())
  }

  /** The operation a call performs if its field is filled. */
  function HitOp(call: Call): Op {
    match call
    case ForBackend => GetBackend(NotFound, true)
    case ForPathBuilder => GetPathBuilder(NotFound)
    case ForRegionLabelKey => GetRegionLabelKey(NotFound)
    case ForSyncLabel => GetSyncLabel(NotFound)
    case ForEngines(labels) => GetEngineBackends(NotFound, NotFound, ALWAYS, labels)
    case ForInvalidate => InvalidateCache(true, None)
    case ForClose => Close(true)
  }

  /** The answer, if the field of the call is filled. */
  function Peek(call: Call, c: Cache): Option<Answer> {
    match call
    case ForBackend => if c.backend.Some? then Some(BackendFrom(c.backend.value.config)) else None
    case ForPathBuilder => if c.pathBuilder.Some? then Some(BuilderOf(c.pathBuilder.value.template)) else None
    case ForRegionLabelKey => if c.config.Some? then Some(Text(c.config.value.config.regionLabelKey)) else None
    case ForSyncLabel => if c.config.Some? then Some(Text(c.config.value.config.syncLabel)) else None
    case ForEngines(labels) =>
      if c.engineBackends.Some? then Some(EngineList(FilterEnginesByLabels(c.engineBackends.value.all, labels)))
      else None
    case ForInvalidate => None
    case ForClose => None
  }

  function WithCache(st: State, c: Cache): State {
    st.(cache := c)
  }

  /** The operation of a call that failed to load a configuration. */
  function LoadFailedOp(call: Call, read: Read): Op {
    match call
    case ForBackend => GetBackend(read, true)
    case ForPathBuilder => GetPathBuilder(read)
    case ForRegionLabelKey => GetRegionLabelKey(read)
    case ForSyncLabel => GetSyncLabel(read)
    case ForEngines(labels) => GetEngineBackends(read, NotFound, ALWAYS, labels)
    case ForInvalidate => InvalidateCache(true, None)
    case ForClose => Close(true)
  }

  /** One step under the write lock. */
  function PhaseStep(
      call: Call, st: State, ph: Phase, observed: Read, ch: Choice, fromEnv: Result<Config>): (State, Phase) {
    match ph
    case Checking =>
      if Peek(call, st.cache).Some? then (st, Finished(HitOp(call), Peek(call, st.cache).value))
      else if call.ForInvalidate? || call.ForClose? then
        if st.cache.backend.None? then (st, if call.ForClose? then Finished(Close(ch.ok), Done) else ClosingEngines(0))
        else if !ch.ok then
          (st, Finished(if call.ForClose? then Close(false) else InvalidateCache(false, None), Failed))
        else (st.(closed := st.closed + 1), BackendClosed)
      else if call.ForBackend? || st.cache.config.None? then (st, Loading)
      else (st, HasConfig(NotFound))
    case Loading =>
      (match Load(observed, fromEnv)
       case Err(_) => (st, Finished(LoadFailedOp(call, observed), Failed))
       case Ok(c) => (st.(loads := st.loads + 1), HasLoaded(observed, Loaded(c, st.loads))))
    case HasLoaded(read, l) =>
      if !call.ForBackend? then (WithCache(st, st.cache.(config := Some(l))), HasConfig(read))
      else if Creatable(l.config) && ch.ok then (st.(created := st.created + 1), HasCreated(read, l))
      else (st, Finished(GetBackend(read, ch.ok), Failed))
    case HasCreated(read, l) => (WithCache(st, st.cache.(backend := Some(l))), HasStored(read, l))
    case HasStored(read, l) =>
      (WithCache(st, st.cache.(config := Some(l))), Finished(GetBackend(read, true), BackendFrom(l.config)))
    case HasConfig(read) =>
      if st.cache.config.None? then (st, ph)
      else
        var c := st.cache.config.value.config;
        (match call
         case ForPathBuilder =>
           (match NewPathBuilder(c.pathTemplate)
            case Err(_) => (st, Finished(GetPathBuilder(read), Failed))
            case Ok(t) => (st, HasBuilder(read, t)))
         case ForRegionLabelKey => (st, Finished(GetRegionLabelKey(read), Text(c.regionLabelKey)))
         case ForSyncLabel => (st, Finished(GetSyncLabel(read), Text(c.syncLabel)))
         case ForEngines(labels) =>
           if c.vault.None? then
             (st, Finished(GetEngineBackends(read, NotFound, ch.connects, labels), EngineList([])))
           else
             var op := GetEngineBackends(read, observed, ch.connects, labels);
             if ConfiguredEngines(observed) == [] then (st, Finished(op, EngineList([])))
             else
               (match ParseEngines(ConfiguredEngines(observed), c.vault.value, ch.connects)
                case Err(_) => (st, Finished(op, Failed))
                case Ok(all) => (st, HasEngines(read, observed, ch.connects, all)))
         case _ => (st, ph))
    case HasBuilder(read, t) =>
      if st.cache.config.None? then (st, ph)
      else
        (WithCache(st, st.cache.(pathBuilder := Some(Builder(t, st.cache.config.value)))),
         Finished(GetPathBuilder(read), BuilderOf(t)))
    case HasEngines(read, live, connects, all) =>
      if st.cache.config.None? || !call.ForEngines? then (st, ph)
      else
        (WithCache(st, st.cache.(engineBackends := Some(Engines(all, st.cache.config.value, live, 0)))),
         Finished(GetEngineBackends(read, live, connects, call.labels),
                  EngineList(FilterEnginesByLabels(all, call.labels))))
    case BackendClosed =>
      (WithCache(st, st.cache.(backend := None)),
       if call.ForClose? then Finished(Close(true), Done) else ClosingEngines(0))
    case ClosingEngines(i) =>
      if st.cache.engineBackends.Some? && i < |st.cache.engineBackends.value.all| then
        if ch.ok then (MarkClosed(st, i + 1), ClosingEngines(i + 1))
        else (st, Finished(InvalidateCache(true, Some(i)), Failed))
      else (WithCache(st, st.cache.(engineBackends := None)), EnginesCleared)
    case EnginesCleared => (WithCache(st, st.cache.(config := None)), ConfigCleared)
    case ConfigCleared =>
      (WithCache(st, st.cache.(pathBuilder := None)).(invalidatedAt := st.loads),
       Finished(InvalidateCache(true, None), Done))
    case Finished(_, _) => (st, ph)
  }

  function SetPc(s: Proto, t: Thread, pc: PC): Proto {
    s.(pcs := s.pcs[t := pc])
  }

  /** Whether a step reads the resource: to load a configuration, or for the list of engines. */
  predicate ReadsNow(call: Call, st: State, ph: Phase) {
    || ph.Loading?
    || (ph.HasConfig? && call.ForEngines? && st.cache.config.Some? && st.cache.config.value.config.vault.Some?)
  }

  function Saw(inv: Invocation, st: State, ph: Phase, observed: Read): Invocation {
    if ReadsNow(inv.call, st, ph) then inv.(seen := inv.seen + [observed]) else inv
  }

  /** The thread gives its answer back to the caller. */
  function GiveBack(s: Proto, t: Thread, inv: Invocation, answer: Answer, slot: nat): Proto {
    SetPc(s, t, Idle).(
      returned := s.returned + [Return(t, inv, answer, slot, |s.hist|, s.Version())])
  }

  /** The thread gives the write lock up and returns. */
  function Finish(s: Proto, t: Thread, inv: Invocation, op: Op, answer: Answer, from: nat): Proto {
    var e := Entry(t, op, answer, inv.seen, from, s.Version());
    GiveBack(s.(writer := None, hist := s.hist + [e]), t, inv, answer, |s.hist|)
  }

  /** The next part of the work under the write lock. */
  function Work(
      s: Proto, t: Thread, inv: Invocation, base: State, ph: Phase, from: nat, ch: Choice,
      fromEnv: Result<Config>): Proto
  {
    var observed := Observe(s, ch);
    var (st', ph') := PhaseStep(inv.call, s.st, ph, observed, ch, fromEnv);
    SetPc(s, t, Locked(Saw(inv, s.st, ph, observed), base, ph', from)).(st := st')
  }

  /** What the history records of a call that finds its field filled. */
  function Hit(s: Proto, t: Thread, inv: Invocation, answer: Answer): Entry {
    Entry(t, HitOp(inv.call), answer, inv.seen, s.Version(), s.Version())
  }

  /** The thread takes its answer and is about to return. */
  function TakeHit(s: Proto, t: Thread, inv: Invocation, answer: Answer): Proto {
    SetPc(s, t, Leaving(inv, answer, |s.hist|)).(hist := s.hist + [Hit(s, t, inv, answer)])
  }

  /** One step of a thread; a thread that waits for a lock stays where it is. */
  function Step(s: Proto, t: Thread, ch: Choice, fromEnv: Result<Config>): Proto {
    match PcOf(s, t)
    case Idle =>
      var inv := Invocation(ch.call, |s.hist|, |s.returned|, s.Version(), []);
      SetPc(s, t, if ch.call.ForInvalidate? || ch.call.ForClose? then WantWrite(inv) else WantRead(inv))
    case WantRead(inv) =>
      if s.writer.Some? then s else SetPc(s, t, Reading(inv)).(readers := s.readers + {t})
    case Reading(inv) =>
      (match Peek(inv.call, s.st.cache)
       case None => SetPc(s, t, Missed(inv))
       case Some(answer) => TakeHit(s, t, inv, answer))
    case Leaving(inv, answer, slot) => GiveBack(s, t, inv, answer, slot).(readers := s.readers - {t})
    case Missed(inv) => SetPc(s, t, WantWrite(inv)).(readers := s.readers - {t})
    case WantWrite(inv) =>
      if s.writer.Some? || s.readers != {} then s
      else SetPc(s, t, Locked(inv, s.st, Checking, s.Version())).(writer := Some(t))
    case Locked(inv, base, Finished(op, answer), from) => Finish(s, t, inv, op, answer, from)
    case Locked(inv, base, ph, from) => Work(s, t, inv, base, ph, from, ch, fromEnv)
  }

  function Take(s: Proto, a: Act, fromEnv: Result<Config>): Proto {
    match a
    case ThreadStep(t, ch) => Step(s, t, ch, fromEnv)
    case EditCR(cr) => s.(versions := s.versions + [cr])
  }

  function Initial(cr: Option<SecretBackendConfig>): Proto {
    Proto([cr], FRESH, {}, None, map[], [], [])
  }

  function Run(cr: Option<SecretBackendConfig>, acts: seq<Act>, fromEnv: Result<Config>): Proto {
    if acts == [] then Initial(cr) else Take(Run(cr, acts[..|acts| - 1], fromEnv), acts[|acts| - 1], fromEnv)
  }

  // ---------------------------------------------------------------- the invariant

  function OpsOf(hist: seq<Entry>): seq<Op> {
    seq(|hist|, i requires 0 <= i < |hist| => hist[i].op)
  }

  function After(hist: seq<Entry>, fromEnv: Result<Config>): State {
    Replay(OpsOf(hist), fromEnv)
  }

  /** Each call in the history answered what the sequential factory answers at that point. */
  ghost predicate Legal(hist: seq<Entry>, fromEnv: Result<Config>) {
    forall i :: 0 <= i < |hist| ==> Apply(After(hist[..i], fromEnv), hist[i].op, fromEnv).1 == hist[i].answer
  }

  predicate LoadsNow(call: Call, base: State) {
    && Peek(call, base.cache).None? && !call.ForInvalidate? && !call.ForClose?
    && (call.ForBackend? || base.cache.config.None?)
  }

  predicate ConfigReady(call: Call, base: State, st: State, read: Read, fromEnv: Result<Config>) {
    && !call.ForInvalidate? && !call.ForClose? && !call.ForBackend? && Peek(call, base.cache).None?
    && EnsureConfig(base, read, fromEnv) == (st, st.cache.config) && st.cache.config.Some?
  }

  /** How far the state has moved from `base`, phase by phase. */
  predicate PhaseHolds(call: Call, base: State, st: State, ph: Phase, fromEnv: Result<Config>) {
    match ph
    case Checking => st == base
    case Loading => st == base && LoadsNow(call, base)
    case HasLoaded(read, l) =>
      && LoadsNow(call, base) && Load(read, fromEnv) == Ok(l.config) && l.stamp == base.loads
      && st == base.(loads := base.loads + 1)
    case HasCreated(read, l) =>
      && call.ForBackend? && LoadsNow(call, base) && Load(read, fromEnv) == Ok(l.config) && l.stamp == base.loads
      && Creatable(l.config) && st == base.(loads := base.loads + 1, created := base.created + 1)
    case HasStored(read, l) =>
      && call.ForBackend? && LoadsNow(call, base) && Load(read, fromEnv) == Ok(l.config) && l.stamp == base.loads
      && Creatable(l.config)
      && st == base.(loads := base.loads + 1, created := base.created + 1, cache := base.cache.(backend := Some(l)))
    case HasConfig(read) => ConfigReady(call, base, st, read, fromEnv)
    case HasBuilder(read, t) =>
      && call.ForPathBuilder? && ConfigReady(call, base, st, read, fromEnv)
      && NewPathBuilder(st.cache.config.value.config.pathTemplate) == Ok(t)
    case HasEngines(read, live, connects, all) =>
      && call.ForEngines? && ConfigReady(call, base, st, read, fromEnv)
      && st.cache.config.value.config.vault.Some? && ConfiguredEngines(live) != []
      && ParseEngines(ConfiguredEngines(live), st.cache.config.value.config.vault.value, connects) == Ok(all)
    case BackendClosed =>
      (call.ForInvalidate? || call.ForClose?) && base.cache.backend.Some? && st == base.(closed := base.closed + 1)
    case ClosingEngines(i) => call.ForInvalidate? && st == MarkClosed(WithoutBackend(base), i)
    case EnginesCleared =>
      call.ForInvalidate? && st == WithCache(WithoutBackend(base), WithoutBackend(base).cache.(engineBackends := None))
    case ConfigCleared =>
      && call.ForInvalidate?
      && st == WithCache(WithoutBackend(base), WithoutBackend(base).cache.(engineBackends := None, config := None))
    case Finished(op, answer) => Apply(base, op, fromEnv) == (st, answer)
  }

  predicate HoldsRead(pc: PC) {
    pc.Reading? || pc.Leaving? || pc.Missed?
  }

  /** The lock part of the invariant. */
  ghost predicate LocksHold(s: Proto) {
    && (s.writer.Some? ==> s.readers == {})
    && (forall t: Thread :: HoldsRead(PcOf(s, t)) <==> t in s.readers)
    && (forall t: Thread :: PcOf(s, t).Locked? <==> s.writer == Some(t))
  }

  /** The history and state part of the invariant. */
  ghost predicate HistoryHolds(s: Proto, fromEnv: Result<Config>) {
    && Legal(s.hist, fromEnv)
    && (s.writer.None? ==> s.st == After(s.hist, fromEnv))
    && (s.writer.Some? ==>
          var pc := PcOf(s, s.writer.value);
          pc.Locked? && pc.base == After(s.hist, fromEnv) && PhaseHolds(pc.inv.call, pc.base, s.st, pc.phase, fromEnv))
  }

  /** The lock is held as the program counters say, the history is legal, and the shared state is what
      the history leads to, except for the part that the writer has done of its call. */
  ghost predicate Inv(s: Proto, fromEnv: Result<Config>) {
    LocksHold(s) && HistoryHolds(s, fromEnv)
  }

  lemma HitAgrees(call: Call, st: State, fromEnv: Result<Config>)
    requires Peek(call, st.cache).Some?
    ensures Apply(st, HitOp(call), fromEnv) == (st, Peek(call, st.cache).value)
  {
  }

  lemma CheckingHolds(call: Call, base: State, observed: Read, ch: Choice, fromEnv: Result<Config>)
    ensures var (st', ph') := PhaseStep(call, base, Checking, observed, ch, fromEnv);
            PhaseHolds(call, base, st', ph', fromEnv)
  {
    if Peek(call, base.cache).Some? {
      HitAgrees(call, base, fromEnv);
    }
  }

  lemma LoadingHolds(call: Call, base: State, st: State, ph: Phase, observed: Read, ch: Choice, fromEnv: Result<Config>)
    requires ph.Loading? || ph.HasLoaded? || ph.HasCreated? || ph.HasStored?
    requires PhaseHolds(call, base, st, ph, fromEnv)
    ensures var (st', ph') := PhaseStep(call, st, ph, observed, ch, fromEnv);
            PhaseHolds(call, base, st', ph', fromEnv)
  {
  }

  lemma ConfigHolds(
      call: Call, base: State, st: State, ph: Phase, observed: Read, ch: Choice, fromEnv: Result<Config>)
    requires ph.HasConfig? && PhaseHolds(call, base, st, ph, fromEnv)
    ensures var (st', ph') := PhaseStep(call, st, ph, observed, ch, fromEnv);
            PhaseHolds(call, base, st', ph', fromEnv)
  {
  }

  lemma BuilderHolds(
      call: Call, base: State, st: State, ph: Phase, observed: Read, ch: Choice, fromEnv: Result<Config>)
    requires ph.HasBuilder? && PhaseHolds(call, base, st, ph, fromEnv)
    ensures var (st', ph') := PhaseStep(call, st, ph, observed, ch, fromEnv);
            PhaseHolds(call, base, st', ph', fromEnv)
  {
  }

  /** What filling the engines comes to as one operation. */
  lemma EnginesApply(
      base: State, st: State, read: Read, live: Read, connects: nat -> bool, all: seq<Engine>, labels: Labels,
      fromEnv: Result<Config>)
    requires base.cache.engineBackends.None? && st.cache.config.Some?
    requires EnsureConfig(base, read, fromEnv) == (st, st.cache.config)
    requires st.cache.config.value.config.vault.Some? && ConfiguredEngines(live) != []
    requires ParseEngines(ConfiguredEngines(live), st.cache.config.value.config.vault.value, connects) == Ok(all)
    ensures Apply(base, GetEngineBackends(read, live, connects, labels), fromEnv) ==
            (st.(cache := st.cache.(engineBackends := Some(Engines(all, st.cache.config.value, live, 0)))),
             EngineList(FilterEnginesByLabels(all, labels)))
  {
  }

  lemma EnginesHold(
      call: Call, base: State, st: State, ph: Phase, observed: Read, ch: Choice, fromEnv: Result<Config>)
    requires ph.HasEngines? && PhaseHolds(call, base, st, ph, fromEnv)
    ensures var (st', ph') := PhaseStep(call, st, ph, observed, ch, fromEnv);
            PhaseHolds(call, base, st', ph', fromEnv)
  {
    EnginesApply(base, st, ph.read, ph.live, ph.connects, ph.all, call.labels, fromEnv);
  }

  lemma ClearingHolds(
      call: Call, base: State, st: State, ph: Phase, observed: Read, ch: Choice, fromEnv: Result<Config>)
    requires ph.BackendClosed? || ph.ClosingEngines? || ph.EnginesCleared? || ph.ConfigCleared?
    requires PhaseHolds(call, base, st, ph, fromEnv)
    ensures var (st', ph') := PhaseStep(call, st, ph, observed, ch, fromEnv);
            PhaseHolds(call, base, st', ph', fromEnv)
  {
  }

  /** Every step under the write lock does the next part of one atomic operation. */
  lemma {:induction false} PhaseStepHolds(
      call: Call, base: State, st: State, ph: Phase, observed: Read, ch: Choice, fromEnv: Result<Config>)
    requires PhaseHolds(call, base, st, ph, fromEnv)
    ensures var (st', ph') := PhaseStep(call, st, ph, observed, ch, fromEnv);
            PhaseHolds(call, base, st', ph', fromEnv)
  {
    if ph.Checking? {
      CheckingHolds(call, base, observed, ch, fromEnv);
    } else if ph.Loading? || ph.HasLoaded? || ph.HasCreated? || ph.HasStored? {
      LoadingHolds(call, base, st, ph, observed, ch, fromEnv);
    } else if ph.HasConfig? {
      ConfigHolds(call, base, st, ph, observed, ch, fromEnv);
    } else if ph.HasEngines? {
      EnginesHold(call, base, st, ph, observed, ch, fromEnv);
    } else if ph.HasBuilder? {
      BuilderHolds(call, base, st, ph, observed, ch, fromEnv);
    } else if !ph.Finished? {
      ClearingHolds(call, base, st, ph, observed, ch, fromEnv);
    }
  }

  lemma HistoryGrows(hist: seq<Entry>, e: Entry, fromEnv: Result<Config>)
    requires Legal(hist, fromEnv)
    requires Apply(After(hist, fromEnv), e.op, fromEnv).1 == e.answer
    ensures Legal(hist + [e], fromEnv)
    ensures After(hist + [e], fromEnv) == Apply(After(hist, fromEnv), e.op, fromEnv).0
  {
    var all := hist + [e];
    assert OpsOf(all) == OpsOf(hist) + [e.op];
    assert OpsOf(all)[..|hist|] == OpsOf(hist);
    forall i | 0 <= i < |all| ensures Apply(After(all[..i], fromEnv), all[i].op, fromEnv).1 == all[i].answer {
      if i < |hist| {
        assert all[..i] == hist[..i];
      } else {
        assert all[..i] == hist;
      }
    }
  }

  lemma {:induction false} StepKeepsInv(s: Proto, t: Thread, ch: Choice, fromEnv: Result<Config>)
    requires Inv(s, fromEnv)
    ensures Inv(Step(s, t, ch, fromEnv), fromEnv)
  {
    LocksFollow(s, t, ch, fromEnv);
    var pc := PcOf(s, t);
    if pc.Reading? {
      ReadingFollows(s, t, ch, fromEnv);
    } else if pc.Locked? {
      WritingFollows(s, t, ch, fromEnv);
    }
  }

  lemma ReadingFollows(s: Proto, t: Thread, ch: Choice, fromEnv: Result<Config>)
    requires Inv(s, fromEnv) && PcOf(s, t).Reading?
    ensures HistoryHolds(Step(s, t, ch, fromEnv), fromEnv)
  {
    var call := PcOf(s, t).inv.call;
    assert t in s.readers;
    if Peek(call, s.st.cache).Some? {
      HitAgrees(call, s.st, fromEnv);
      HistoryGrows(s.hist, Hit(s, t, PcOf(s, t).inv, Peek(call, s.st.cache).value), fromEnv);
    }
  }

  lemma WritingFollows(s: Proto, t: Thread, ch: Choice, fromEnv: Result<Config>)
    requires Inv(s, fromEnv) && PcOf(s, t).Locked?
    ensures HistoryHolds(Step(s, t, ch, fromEnv), fromEnv)
  {
    var pc := PcOf(s, t);
    if pc.phase.Finished? {
      FinishFollows(s, t, pc.inv, pc.base, pc.phase.op, pc.phase.answer, pc.from, fromEnv);
    } else {
      WorkFollows(s, t, pc.inv, pc.base, pc.phase, pc.from, ch, fromEnv);
    }
  }

  lemma FinishFollows(
      s: Proto, t: Thread, inv: Invocation, base: State, op: Op, answer: Answer, from: nat, fromEnv: Result<Config>)
    requires Legal(s.hist, fromEnv) && base == After(s.hist, fromEnv) && Apply(base, op, fromEnv) == (s.st, answer)
    ensures HistoryHolds(Finish(s, t, inv, op, answer, from), fromEnv)
  {
    HistoryGrows(s.hist, Entry(t, op, answer, inv.seen, from, s.Version()), fromEnv);
  }

  lemma WorkFollows(
      s: Proto, t: Thread, inv: Invocation, base: State, ph: Phase, from: nat, ch: Choice, fromEnv: Result<Config>)
    requires Legal(s.hist, fromEnv) && s.writer == Some(t)
    requires base == After(s.hist, fromEnv) && PhaseHolds(inv.call, base, s.st, ph, fromEnv)
    ensures HistoryHolds(Work(s, t, inv, base, ph, from, ch, fromEnv), fromEnv)
  {
    PhaseStepHolds(inv.call, base, s.st, ph, Observe(s, ch), ch, fromEnv);
  }

  lemma LocksFollow(s: Proto, t: Thread, ch: Choice, fromEnv: Result<Config>)
    requires LocksHold(s)
    ensures LocksHold(Step(s, t, ch, fromEnv))
  {
    var s' := Step(s, t, ch, fromEnv);
    assert forall u: Thread :: u != t ==> PcOf(s', u) == PcOf(s, u);
  }

  lemma {:induction false} RunKeepsInv(cr: Option<SecretBackendConfig>, acts: seq<Act>, fromEnv: Result<Config>)
    ensures Inv(Run(cr, acts, fromEnv), fromEnv)
  {
    if acts != [] {
      var before, a := Run(cr, acts[..|acts| - 1], fromEnv), acts[|acts| - 1];
      RunKeepsInv(cr, acts[..|acts| - 1], fromEnv);
      if a.ThreadStep? {
        StepKeepsInv(before, a.thread, a.choice, fromEnv);
      } else {
        assert forall t: Thread :: PcOf(Take(before, a, fromEnv), t) == PcOf(before, t);
      }
    }
  }

  // ---------------------------------------------------------------- what the calls have to do with the history

  /** The operation is of the same kind as the call, with the same labels. */
  predicate KindFits(call: Call, op: Op) {
    match op
    case GetBackend(_, _) => call.ForBackend?
    case GetPathBuilder(_) => call.ForPathBuilder?
    case GetRegionLabelKey(_) => call.ForRegionLabelKey?
    case GetSyncLabel(_) => call.ForSyncLabel?
    case GetEngineBackends(_, _, _, labels) => call == ForEngines(labels)
    case HasMultiEngineConfig(_) => false
    case InvalidateCache(_, _) => call.ForInvalidate?
    case Close(_) => call.ForClose?
  }

  /** The operation is one that the call performs in this state, and each read of the resource that
      decides anything is one that the call made. */
  ghost predicate OpFits(call: Call, seen: seq<Read>, st: State, op: Op, fromEnv: Result<Config>) {
    && KindFits(call, op)
    && (Loads(st, op) ==> op.read in seen) && (Lists(st, op, fromEnv) ==> op.live in seen)
  }

  /** What the call has read so far fits what it is going to record. */
  ghost predicate PhaseFits(call: Call, seen: seq<Read>, base: State, ph: Phase, fromEnv: Result<Config>) {
    match ph
    case HasLoaded(read, _) => read in seen
    case HasCreated(read, _) => read in seen
    case HasStored(read, _) => read in seen
    case HasConfig(read) => base.cache.config.Some? || read in seen
    case HasBuilder(read, _) => base.cache.config.Some? || read in seen
    case HasEngines(read, live, _, _) => (base.cache.config.Some? || read in seen) && live in seen
    case Finished(op, _) => OpFits(call, seen, base, op, fromEnv)
    case _ => true
  }

  lemma PhaseStepFits(
      inv: Invocation, base: State, st: State, ph: Phase, observed: Read, ch: Choice, fromEnv: Result<Config>)
    requires PhaseHolds(inv.call, base, st, ph, fromEnv) && PhaseFits(inv.call, inv.seen, base, ph, fromEnv)
    ensures var ph' := PhaseStep(inv.call, st, ph, observed, ch, fromEnv).1;
            PhaseFits(inv.call, Saw(inv, st, ph, observed).seen, base, ph', fromEnv)
  {
  }

  /** Everything that was read is a value the resource had between the two versions, or a failed read. */
  ghost predicate ReadBetween(versions: seq<Option<SecretBackendConfig>>, seen: seq<Read>, from: nat, to: nat) {
    && from <= to < |versions|
    && forall r :: r in seen ==> r == ReadFailed || exists v :: from <= v <= to && r == ReadOf(versions[v])
  }

  /** The slot lies between the invocation and the return, and holds the answer and an operation of
      the call, done between the same versions, with what the call has read. */
  ghost predicate Explained(
      hist: seq<Entry>, t: Thread, inv: Invocation, answer: Answer, slot: nat, until: nat, version: nat,
      fromEnv: Result<Config>)
  {
    && inv.since <= slot < until <= |hist|
    && hist[slot].thread == t && hist[slot].answer == answer && hist[slot].seen == inv.seen
    && inv.version <= hist[slot].from <= hist[slot].to <= version
    && OpFits(inv.call, inv.seen, After(hist[..slot], fromEnv), hist[slot].op, fromEnv)
  }

  /** What had been returned before the invocation was in the history before it. */
  ghost predicate EarlierDone(returned: seq<Return>, inv: Invocation) {
    && inv.after <= |returned|
    && forall i :: 0 <= i < inv.after ==> returned[i].until <= inv.since
  }

  ghost predicate ReturnHolds(s: Proto, r: Return, fromEnv: Result<Config>) {
    && Explained(s.hist, r.thread, r.inv, r.answer, r.slot, r.until, r.version, fromEnv)
    && ReadBetween(s.versions, r.inv.seen, r.inv.version, r.version)
    && EarlierDone(s.returned, r.inv)
  }

  /** The slots of a thread in the history, in order. */
  function SlotsOf(hist: seq<Entry>, t: Thread): seq<nat> {
    if hist == [] then []
    else
      var n := |hist| - 1;
      SlotsOf(hist[..n], t) + if hist[n].thread == t then [n] else []
  }

  /** The slots of the calls that a thread has returned from, in the order of the returns. */
  function SlotsReturned(returned: seq<Return>, t: Thread): seq<nat> {
    if returned == [] then []
    else
      var n := |returned| - 1;
      SlotsReturned(returned[..n], t) + if returned[n].thread == t then [returned[n].slot] else []
  }

  function Pending(pc: PC): seq<nat> {
    if pc.Leaving? then [pc.slot] else []
  }

  ghost predicate ThreadHolds(s: Proto, t: Thread, fromEnv: Result<Config>) {
    var pc := PcOf(s, t);
    && SlotsOf(s.hist, t) == SlotsReturned(s.returned, t) + Pending(pc)
    && (!pc.Idle? ==>
          && pc.inv.since <= |s.hist| && ReadBetween(s.versions, pc.inv.seen, pc.inv.version, s.Version())
          && EarlierDone(s.returned, pc.inv))
    && (pc.Leaving? ==> Explained(s.hist, t, pc.inv, pc.answer, pc.slot, |s.hist|, s.Version(), fromEnv))
    && (pc.Locked? ==>
          && pc.inv.version <= pc.from && ReadBetween(s.versions, pc.inv.seen, pc.from, s.Version())
          && PhaseFits(pc.inv.call, pc.inv.seen, pc.base, pc.phase, fromEnv))
    && (!pc.Idle? && !pc.Locked? ==> pc.inv.seen == [])
  }

  ghost predicate LogHolds(s: Proto, fromEnv: Result<Config>) {
    && s.versions != []
    && (forall t: Thread :: ThreadHolds(s, t, fromEnv))
    && (forall i :: 0 <= i < |s.returned| ==> ReturnHolds(s, s.returned[i], fromEnv))
    && (forall i :: 0 <= i < |s.returned| ==> s.returned[i].until <= |s.hist|)
  }

  /** The log of `s` is an initial part of the log of `s'`, and what is new is not of thread `t`. */
  ghost predicate Extends(s: Proto, s': Proto, t: Thread) {
    && s.versions <= s'.versions && s.hist <= s'.hist && s.returned <= s'.returned
    && |s'.hist| <= |s.hist| + 1 && (|s'.hist| == |s.hist| + 1 ==> s'.hist[|s.hist|].thread != t)
    && |s'.returned| <= |s.returned| + 1
    && (|s'.returned| == |s.returned| + 1 ==> s'.returned[|s.returned|].thread != t)
  }

  lemma SlotsGrow(hist: seq<Entry>, e: Entry, t: Thread)
    ensures SlotsOf(hist + [e], t) == SlotsOf(hist, t) + if e.thread == t then [|hist|] else []
  {
    assert (hist + [e])[..|hist|] == hist;
  }

  lemma ReturnsGrow(returned: seq<Return>, r: Return, t: Thread)
    ensures SlotsReturned(returned + [r], t) == SlotsReturned(returned, t) + if r.thread == t then [r.slot] else []
  {
    assert (returned + [r])[..|returned|] == returned;
  }

  lemma ExplainedStays(
      hist: seq<Entry>, hist': seq<Entry>, t: Thread, inv: Invocation, answer: Answer, slot: nat, until: nat,
      until': nat, version: nat, version': nat, fromEnv: Result<Config>)
    requires Explained(hist, t, inv, answer, slot, until, version, fromEnv)
    requires hist <= hist' && until <= until' <= |hist'| && version <= version'
    ensures Explained(hist', t, inv, answer, slot, until', version', fromEnv)
  {
    assert hist'[..slot] == hist[..slot];
  }

  lemma ReadBetweenStays(
      versions: seq<Option<SecretBackendConfig>>, versions': seq<Option<SecretBackendConfig>>, seen: seq<Read>,
      from: nat, from': nat, to: nat, to': nat)
    requires ReadBetween(versions, seen, from, to) && versions <= versions'
    requires from' <= from && to <= to' < |versions'|
    ensures ReadBetween(versions', seen, from', to')
  {
    forall r | r in seen && r != ReadFailed
      ensures exists v :: from' <= v <= to' && r == ReadOf(versions'[v])
    {
      var v :| from <= v <= to && r == ReadOf(versions[v]);
      assert r == ReadOf(versions'[v]);
    }
  }

  lemma SlotsStay(s: Proto, s': Proto, t: Thread)
    requires Extends(s, s', t)
    ensures SlotsOf(s'.hist, t) == SlotsOf(s.hist, t) && SlotsReturned(s'.returned, t) == SlotsReturned(s.returned, t)
  {
    if |s'.hist| > |s.hist| {
      assert s'.hist == s.hist + [s'.hist[|s.hist|]];
      SlotsGrow(s.hist, s'.hist[|s.hist|], t);
    } else {
      assert s'.hist == s.hist;
    }
    if |s'.returned| > |s.returned| {
      assert s'.returned == s.returned + [s'.returned[|s.returned|]];
      ReturnsGrow(s.returned, s'.returned[|s.returned|], t);
    } else {
      assert s'.returned == s.returned;
    }
  }

  lemma ThreadStays(s: Proto, s': Proto, t: Thread, fromEnv: Result<Config>)
    requires ThreadHolds(s, t, fromEnv) && s.versions != [] && Extends(s, s', t) && PcOf(s', t) == PcOf(s, t)
    ensures ThreadHolds(s', t, fromEnv)
  {
    var pc := PcOf(s, t);
    SlotsStay(s, s', t);
    if !pc.Idle? {
      ReadBetweenStays(
        s.versions, s'.versions, pc.inv.seen, pc.inv.version, pc.inv.version, s.Version(), s'.Version());
    }
    if pc.Locked? {
      ReadBetweenStays(s.versions, s'.versions, pc.inv.seen, pc.from, pc.from, s.Version(), s'.Version());
    }
    if pc.Leaving? {
      ExplainedStays(
        s.hist, s'.hist, t, pc.inv, pc.answer, pc.slot, |s.hist|, |s'.hist|, s.Version(), s'.Version(), fromEnv);
    }
  }

  lemma ReturnStays(s: Proto, s': Proto, r: Return, fromEnv: Result<Config>)
    requires ReturnHolds(s, r, fromEnv)
    requires s.versions <= s'.versions && s.hist <= s'.hist && s.returned <= s'.returned
    ensures ReturnHolds(s', r, fromEnv)
  {
    ExplainedStays(
      s.hist, s'.hist, r.thread, r.inv, r.answer, r.slot, r.until, r.until, r.version, r.version, fromEnv);
    ReadBetweenStays(s.versions, s'.versions, r.inv.seen, r.inv.version, r.inv.version, r.version, r.version);
  }

  lemma OthersUntouched(s: Proto, t: Thread, ch: Choice, u: Thread, fromEnv: Result<Config>)
    requires u != t
    ensures PcOf(Step(s, t, ch, fromEnv), u) == PcOf(s, u) && Extends(s, Step(s, t, ch, fromEnv), u)
  {
    var pc := PcOf(s, t);
    if pc.Locked? {
      if pc.phase.Finished? {
        FinishExtends(s, t, pc.inv, pc.phase.op, pc.phase.answer, pc.from, u);
      } else {
        WorkExtends(s, t, pc.inv, pc.base, pc.phase, pc.from, ch, u, fromEnv);
      }
    } else if pc.Reading? || pc.Leaving? {
      ReaderExtends(s, t, ch, u, fromEnv);
    } else {
      MoveExtends(s, t, ch, u, fromEnv);
    }
  }

  lemma ReaderExtends(s: Proto, t: Thread, ch: Choice, u: Thread, fromEnv: Result<Config>)
    requires u != t && (PcOf(s, t).Reading? || PcOf(s, t).Leaving?)
    ensures PcOf(Step(s, t, ch, fromEnv), u) == PcOf(s, u) && Extends(s, Step(s, t, ch, fromEnv), u)
  {
  }

  lemma MoveExtends(s: Proto, t: Thread, ch: Choice, u: Thread, fromEnv: Result<Config>)
    requires u != t && !PcOf(s, t).Reading? && !PcOf(s, t).Leaving? && !PcOf(s, t).Locked?
    ensures PcOf(Step(s, t, ch, fromEnv), u) == PcOf(s, u) && Extends(s, Step(s, t, ch, fromEnv), u)
  {
  }

  lemma FinishExtends(s: Proto, t: Thread, inv: Invocation, op: Op, answer: Answer, from: nat, u: Thread)
    requires u != t
    ensures var s' := Finish(s, t, inv, op, answer, from);
            PcOf(s', u) == PcOf(s, u) && Extends(s, s', u)
  {
  }

  lemma WorkExtends(
      s: Proto, t: Thread, inv: Invocation, base: State, ph: Phase, from: nat, ch: Choice, u: Thread,
      fromEnv: Result<Config>)
    requires u != t
    ensures var s' := Work(s, t, inv, base, ph, from, ch, fromEnv);
            PcOf(s', u) == PcOf(s, u) && Extends(s, s', u)
  {
  }

  /** What a step of `t` adds to the log fits the rest of it. */
  ghost predicate Adds(s: Proto, s': Proto, t: Thread, fromEnv: Result<Config>) {
    && ThreadHolds(s', t, fromEnv)
    && (|s'.returned| > |s.returned| ==> ReturnHolds(s', s'.returned[|s.returned|], fromEnv))
  }

  /** A thread that waits for a lock, takes one, or gives the read lock up after a miss. */
  lemma MoveHolds(s: Proto, t: Thread, ch: Choice, fromEnv: Result<Config>)
    requires LogHolds(s, fromEnv) && (PcOf(s, t).WantRead? || PcOf(s, t).Missed? || PcOf(s, t).WantWrite?)
    ensures Adds(s, Step(s, t, ch, fromEnv), t, fromEnv)
  {
    assert ThreadHolds(s, t, fromEnv);
  }

  /** A thread that makes a call. */
  lemma InvokeHolds(s: Proto, t: Thread, ch: Choice, fromEnv: Result<Config>)
    requires LogHolds(s, fromEnv) && PcOf(s, t).Idle?
    ensures Adds(s, Step(s, t, ch, fromEnv), t, fromEnv)
  {
    assert ThreadHolds(s, t, fromEnv);
  }

  /** A thread that finds its field filled. */
  lemma HitHolds(s: Proto, t: Thread, inv: Invocation, answer: Answer, fromEnv: Result<Config>)
    requires LogHolds(s, fromEnv) && PcOf(s, t) == Reading(inv) && s.st == After(s.hist, fromEnv)
    requires Peek(inv.call, s.st.cache) == Some(answer)
    ensures Adds(s, TakeHit(s, t, inv, answer), t, fromEnv)
  {
    assert ThreadHolds(s, t, fromEnv);
    var e := Hit(s, t, inv, answer);
    SlotsGrow(s.hist, e, t);
    assert (s.hist + [e])[..|s.hist|] == s.hist;
    HitFits(inv, s.st, fromEnv);
  }

  lemma HitFits(inv: Invocation, st: State, fromEnv: Result<Config>)
    requires Peek(inv.call, st.cache).Some?
    ensures OpFits(inv.call, inv.seen, st, HitOp(inv.call), fromEnv)
  {
  }

  /** A thread that looks at its field under the read lock. */
  lemma ReadHolds(s: Proto, t: Thread, ch: Choice, fromEnv: Result<Config>)
    requires LogHolds(s, fromEnv) && PcOf(s, t).Reading? && s.st == After(s.hist, fromEnv)
    ensures Adds(s, Step(s, t, ch, fromEnv), t, fromEnv)
  {
    assert ThreadHolds(s, t, fromEnv);
    var inv := PcOf(s, t).inv;
    if Peek(inv.call, s.st.cache).Some? {
      HitHolds(s, t, inv, Peek(inv.call, s.st.cache).value, fromEnv);
    }
  }

  /** A thread that returns after a hit. */
  lemma LeaveHolds(s: Proto, t: Thread, ch: Choice, fromEnv: Result<Config>)
    requires LogHolds(s, fromEnv) && PcOf(s, t).Leaving?
    ensures Adds(s, Step(s, t, ch, fromEnv), t, fromEnv)
  {
    assert ThreadHolds(s, t, fromEnv);
    ReturnsGrow(s.returned, Step(s, t, ch, fromEnv).returned[|s.returned|], t);
  }

  /** A thread that returns and gives the write lock up. */
  lemma FinishHolds(
      s: Proto, t: Thread, inv: Invocation, base: State, op: Op, answer: Answer, from: nat, fromEnv: Result<Config>)
    requires LogHolds(s, fromEnv) && PcOf(s, t) == Locked(inv, base, Finished(op, answer), from)
    requires base == After(s.hist, fromEnv)
    ensures Adds(s, Finish(s, t, inv, op, answer, from), t, fromEnv)
  {
    assert ThreadHolds(s, t, fromEnv);
    var e, s' := Entry(t, op, answer, inv.seen, from, s.Version()), Finish(s, t, inv, op, answer, from);
    SlotsGrow(s.hist, e, t);
    ReturnsGrow(s.returned, s'.returned[|s.returned|], t);
    assert (s.hist + [e])[..|s.hist|] == s.hist;
  }

  /** A thread that does the next part of its work under the write lock. */
  lemma WorkHolds(s: Proto, t: Thread, ch: Choice, fromEnv: Result<Config>)
    requires LogHolds(s, fromEnv) && PcOf(s, t).Locked? && !PcOf(s, t).phase.Finished?
    requires PhaseHolds(PcOf(s, t).inv.call, PcOf(s, t).base, s.st, PcOf(s, t).phase, fromEnv)
    ensures Adds(s, Step(s, t, ch, fromEnv), t, fromEnv)
  {
    var pc := PcOf(s, t);
    assert ThreadHolds(s, t, fromEnv);
    PhaseStepFits(pc.inv, pc.base, s.st, pc.phase, Observe(s, ch), ch, fromEnv);
    SawInTime(s, pc.inv, pc.phase, pc.from, ch);
    SawInTime(s, pc.inv, pc.phase, pc.inv.version, ch);
    WorkKeepsThread(s, t, pc.inv, pc.base, pc.phase, pc.from, ch, fromEnv);
  }

  lemma SawInTime(s: Proto, inv: Invocation, ph: Phase, from: nat, ch: Choice)
    requires s.versions != [] && ReadBetween(s.versions, inv.seen, from, s.Version())
    ensures ReadBetween(s.versions, Saw(inv, s.st, ph, Observe(s, ch)).seen, from, s.Version())
  {
    assert Observe(s, ch) == ReadFailed || Observe(s, ch) == ReadOf(s.versions[s.Version()]);
  }

  lemma WorkKeepsThread(
      s: Proto, t: Thread, inv: Invocation, base: State, ph: Phase, from: nat, ch: Choice, fromEnv: Result<Config>)
    requires ThreadHolds(s, t, fromEnv) && PcOf(s, t) == Locked(inv, base, ph, from)
    requires var seen := Saw(inv, s.st, ph, Observe(s, ch)).seen;
             ReadBetween(s.versions, seen, from, s.Version()) && ReadBetween(s.versions, seen, inv.version, s.Version())
    requires var observed := Observe(s, ch);
             PhaseFits(inv.call, Saw(inv, s.st, ph, observed).seen, base,
                       PhaseStep(inv.call, s.st, ph, observed, ch, fromEnv).1, fromEnv)
    ensures ThreadHolds(Work(s, t, inv, base, ph, from, ch, fromEnv), t, fromEnv)
  {
  }

  lemma OwnThreadHolds(s: Proto, t: Thread, ch: Choice, fromEnv: Result<Config>)
    requires Inv(s, fromEnv) && LogHolds(s, fromEnv)
    ensures Adds(s, Step(s, t, ch, fromEnv), t, fromEnv)
  {
    var pc := PcOf(s, t);
    assert ThreadHolds(s, t, fromEnv);
    match pc {
      case Idle => InvokeHolds(s, t, ch, fromEnv);
      case Reading(_) =>
        assert t in s.readers;
        ReadHolds(s, t, ch, fromEnv);
      case Leaving(_, _, _) => LeaveHolds(s, t, ch, fromEnv);
      case Locked(inv, base, Finished(op, answer), from) => FinishHolds(s, t, inv, base, op, answer, from, fromEnv);
      case Locked(_, _, _, _) => WorkHolds(s, t, ch, fromEnv);
      case _ => MoveHolds(s, t, ch, fromEnv);
    }
  }

  /** What a step adds to the log is about its own thread, so everything else stays as it was. */
  lemma LogStays(s: Proto, s': Proto, t: Thread, fromEnv: Result<Config>)
    requires LogHolds(s, fromEnv) && Adds(s, s', t, fromEnv)
    requires forall u: Thread :: u != t ==> PcOf(s', u) == PcOf(s, u) && Extends(s, s', u)
    ensures LogHolds(s', fromEnv)
  {
    assert Extends(s, s', t + 1);
    forall u: Thread | u != t ensures ThreadHolds(s', u, fromEnv) {
      ThreadStays(s, s', u, fromEnv);
    }
    forall i | 0 <= i < |s'.returned| ensures ReturnHolds(s', s'.returned[i], fromEnv) {
      if i < |s.returned| {
        ReturnStays(s, s', s.returned[i], fromEnv);
      }
    }
  }

  // ---------------------------------------------------------------- what holds in every interleaving

  lemma {:induction false} StepKeepsLog(s: Proto, t: Thread, ch: Choice, fromEnv: Result<Config>)
    requires Inv(s, fromEnv) && LogHolds(s, fromEnv)
    ensures LogHolds(Step(s, t, ch, fromEnv), fromEnv)
  {
    OwnThreadHolds(s, t, ch, fromEnv);
    forall u: Thread | u != t
      ensures PcOf(Step(s, t, ch, fromEnv), u) == PcOf(s, u) && Extends(s, Step(s, t, ch, fromEnv), u)
    {
      OthersUntouched(s, t, ch, u, fromEnv);
    }
    LogStays(s, Step(s, t, ch, fromEnv), t, fromEnv);
  }

  lemma {:induction false} RunKeepsLog(cr: Option<SecretBackendConfig>, acts: seq<Act>, fromEnv: Result<Config>)
    ensures LogHolds(Run(cr, acts, fromEnv), fromEnv)
  {
    if acts != [] {
      var before, a := Run(cr, acts[..|acts| - 1], fromEnv), acts[|acts| - 1];
      RunKeepsLog(cr, acts[..|acts| - 1], fromEnv);
      RunKeepsInv(cr, acts[..|acts| - 1], fromEnv);
      match a {
        case ThreadStep(t, ch) => StepKeepsLog(before, t, ch, fromEnv);
        case EditCR(_) => EditKeepsLog(before, a, fromEnv);
      }
    }
  }

  lemma EditKeepsLog(s: Proto, a: Act, fromEnv: Result<Config>)
    requires LogHolds(s, fromEnv) && a.EditCR?
    ensures LogHolds(Take(s, a, fromEnv), fromEnv)
  {
    var s' := Take(s, a, fromEnv);
    forall t: Thread ensures ThreadHolds(s', t, fromEnv) {
      ThreadStays(s, s', t, fromEnv);
    }
    forall i | 0 <= i < |s'.returned| ensures ReturnHolds(s', s'.returned[i], fromEnv) {
      ReturnStays(s, s', s.returned[i], fromEnv);
    }
  }

  /** Linearizability: in every interleaving of any number of threads, with the resource changing at
      any time, the history is legal for the sequential factory, and whenever no writer holds the lock
      the shared state is the one it leads to. Each thread's slots in the history are those of the
      calls it has returned from, in that order, and after them the one of the call that it is about to
      return from. Such a slot was filled between the invocation and the return, with the answer that
      was returned and with an operation of that very call, whose reads of the resource are failed ones
      or values that the resource had during the call. */
  lemma {:induction false} Linearizable(cr: Option<SecretBackendConfig>, acts: seq<Act>, fromEnv: Result<Config>)
    ensures var s := Run(cr, acts, fromEnv);
            && Legal(s.hist, fromEnv)
            && (s.writer.None? ==> s.st == After(s.hist, fromEnv))
            && (s.writer.Some? ==> s.readers == {})
            && (forall t: Thread :: SlotsOf(s.hist, t) == SlotsReturned(s.returned, t) + Pending(PcOf(s, t)))
            && (forall i :: 0 <= i < |s.returned| ==>
                  var r := s.returned[i];
                  && Explained(s.hist, r.thread, r.inv, r.answer, r.slot, r.until, r.version, fromEnv)
                  && ReadBetween(s.versions, r.inv.seen, r.inv.version, r.version))
  {
    RunKeepsInv(cr, acts, fromEnv);
    RunKeepsLog(cr, acts, fromEnv);
    var s := Run(cr, acts, fromEnv);
    forall t: Thread ensures SlotsOf(s.hist, t) == SlotsReturned(s.returned, t) + Pending(PcOf(s, t)) {
      assert ThreadHolds(s, t, fromEnv);
    }
    forall i | 0 <= i < |s.returned|
      ensures var r := s.returned[i];
              && Explained(s.hist, r.thread, r.inv, r.answer, r.slot, r.until, r.version, fromEnv)
              && ReadBetween(s.versions, r.inv.seen, r.inv.version, r.version)
    {
      assert ReturnHolds(s, s.returned[i], fromEnv);
    }
  }

  /** The history respects real time: what had been returned when a call was made comes before it. */
  lemma {:induction false} RealTimeOrder(
      cr: Option<SecretBackendConfig>, acts: seq<Act>, fromEnv: Result<Config>, i: nat, j: nat)
    requires var s := Run(cr, acts, fromEnv);
             j < |s.returned| && i < s.returned[j].inv.after
    ensures var s := Run(cr, acts, fromEnv);
            i < |s.returned| && s.returned[i].slot < s.returned[j].slot
  {
    RunKeepsLog(cr, acts, fromEnv);
    var s := Run(cr, acts, fromEnv);
    assert ReturnHolds(s, s.returned[j], fromEnv);
    assert ReturnHolds(s, s.returned[i], fromEnv);
  }

  /** In every interleaving, whenever no writer holds the lock: default backends created equal default
      backends closed plus the cached one; a cached backend was built from exactly the cached
      configuration; and every cached value is newer than the last successful invalidation. */
  lemma {:induction false} ValidWhenUnlocked(cr: Option<SecretBackendConfig>, acts: seq<Act>, fromEnv: Result<Config>)
    ensures var s := Run(cr, acts, fromEnv);
            s.writer.None? ==>
              && Valid(s.st)
              && s.st.created == s.st.closed + if s.st.cache.backend.Some? then 1 else 0
  {
    RunKeepsInv(cr, acts, fromEnv);
    ReachableValid(OpsOf(Run(cr, acts, fromEnv).hist), fromEnv);
  }

  lemma PhaseKeepsBackend(
      call: Call, base: State, st: State, ph: Phase, observed: Read, ch: Choice, fromEnv: Result<Config>)
    requires PhaseHolds(call, base, st, ph, fromEnv) && st.cache.backend.Some?
    ensures var after := PhaseStep(call, st, ph, observed, ch, fromEnv).0;
            after.cache.backend == st.cache.backend
            || (after.cache.backend.None? && ph.BackendClosed? && (call.ForInvalidate? || call.ForClose?))
  {
  }

  /** No step of any thread replaces a cached backend by another one: it stays until a thread that
      invalidates or closes, and holds the lock, has closed it. */
  lemma {:induction false} BackendNeverOverwritten(
      cr: Option<SecretBackendConfig>, acts: seq<Act>, t: Thread, ch: Choice, fromEnv: Result<Config>)
    ensures var s := Run(cr, acts, fromEnv);
            var s' := Step(s, t, ch, fromEnv);
            s.st.cache.backend.Some? && s'.st.cache.backend != s.st.cache.backend ==>
              && s'.st.cache.backend.None? && s.writer == Some(t)
              && PcOf(s, t).phase.BackendClosed?
              && (PcOf(s, t).inv.call.ForInvalidate? || PcOf(s, t).inv.call.ForClose?)
  {
    RunKeepsInv(cr, acts, fromEnv);
    OverwriteNeedsClose(Run(cr, acts, fromEnv), t, ch, fromEnv);
  }

  lemma OverwriteNeedsClose(s: Proto, t: Thread, ch: Choice, fromEnv: Result<Config>)
    requires Inv(s, fromEnv)
    ensures var s' := Step(s, t, ch, fromEnv);
            s.st.cache.backend.Some? && s'.st.cache.backend != s.st.cache.backend ==>
              && s'.st.cache.backend.None? && s.writer == Some(t)
              && PcOf(s, t).phase.BackendClosed?
              && (PcOf(s, t).inv.call.ForInvalidate? || PcOf(s, t).inv.call.ForClose?)
  {
    var pc := PcOf(s, t);
    if pc.Locked? && !pc.phase.Finished? && s.st.cache.backend.Some? {
      PhaseKeepsBackend(pc.inv.call, pc.base, s.st, pc.phase, Observe(s, ch), ch, fromEnv);
    }
  }

  /** The steps that a writer still has to take before it gives the lock up. */
  function Remaining(st: State, ph: Phase): nat {
    match ph
    case Checking => 10 + EnginesLeft(st, 0)
    case Loading => 9
    case HasLoaded(_, _) => 8
    case HasCreated(_, _) => 7
    case HasStored(_, _) => 6
    case HasConfig(_) => 5
    case HasBuilder(_, _) => 4
    case HasEngines(_, _, _, _) => 4
    case BackendClosed => 5 + EnginesLeft(st, 0)
    case ClosingEngines(i) => 4 + EnginesLeft(st, i)
    case EnginesCleared => 3
    case ConfigCleared => 2
    case Finished(_, _) => 1
  }

  function EnginesLeft(st: State, i: nat): nat {
    if st.cache.engineBackends.Some? && i < |st.cache.engineBackends.value.all| then
      |st.cache.engineBackends.value.all| - i
    else 0
  }

  /** The lock is never held for good: in every interleaving each step of the writer, whatever the
      environment answers, brings it closer to giving the lock up. */
  lemma {:induction false} WriterFinishes(
      cr: Option<SecretBackendConfig>, acts: seq<Act>, t: Thread, ch: Choice, fromEnv: Result<Config>)
    ensures var s := Run(cr, acts, fromEnv);
            var s' := Step(s, t, ch, fromEnv);
            s.writer == Some(t) ==>
              && PcOf(s, t).Locked?
              && (s'.writer.None?
                  || (PcOf(s', t).Locked?
                      && Remaining(s'.st, PcOf(s', t).phase) < Remaining(s.st, PcOf(s, t).phase)))
  {
    RunKeepsInv(cr, acts, fromEnv);
    var s := Run(cr, acts, fromEnv);
    var pc := PcOf(s, t);
    if s.writer == Some(t) && !pc.phase.Finished? {
      PhaseAdvances(pc.inv.call, pc.base, s.st, pc.phase, Observe(s, ch), ch, fromEnv);
    }
  }

  lemma PhaseAdvances(
      call: Call, base: State, st: State, ph: Phase, observed: Read, ch: Choice, fromEnv: Result<Config>)
    requires PhaseHolds(call, base, st, ph, fromEnv) && !ph.Finished?
    ensures var (st', ph') := PhaseStep(call, st, ph, observed, ch, fromEnv);
            Remaining(st', ph') < Remaining(st, ph)
  {
  }

  /** No call returns without an entry, and none has two: in every interleaving, a step takes a thread
      back to where it makes calls exactly if it logs a return of the call that this thread had made,
      and that return brings the thread's slots in the history level with its returns. */
  lemma {:induction false} OneEntryPerCall(
      cr: Option<SecretBackendConfig>, acts: seq<Act>, t: Thread, ch: Choice, fromEnv: Result<Config>)
    ensures var s := Run(cr, acts, fromEnv);
            var s' := Step(s, t, ch, fromEnv);
            && (!PcOf(s, t).Idle? && PcOf(s', t).Idle? <==> |s'.returned| == |s.returned| + 1)
            && (|s'.returned| == |s.returned| + 1 ==>
                  var r := s'.returned[|s.returned|];
                  && r.thread == t && r.inv == PcOf(s, t).inv
                  && Explained(s'.hist, t, r.inv, r.answer, r.slot, r.until, r.version, fromEnv)
                  && SlotsOf(s'.hist, t) == SlotsReturned(s'.returned, t) == SlotsReturned(s.returned, t) + [r.slot])
  {
    RunKeepsInv(cr, acts, fromEnv);
    RunKeepsLog(cr, acts, fromEnv);
    var s, s' := Run(cr, acts, fromEnv), Step(Run(cr, acts, fromEnv), t, ch, fromEnv);
    StepKeepsLog(s, t, ch, fromEnv);
    ReturnIsLogged(s, t, ch, fromEnv);
    if |s'.returned| == |s.returned| + 1 {
      ReturnIsExplained(s, s', t, fromEnv);
    }
  }

  lemma ReturnIsLogged(s: Proto, t: Thread, ch: Choice, fromEnv: Result<Config>)
    ensures var s' := Step(s, t, ch, fromEnv);
            && s.returned <= s'.returned && |s'.returned| <= |s.returned| + 1
            && (!PcOf(s, t).Idle? && PcOf(s', t).Idle? <==> |s'.returned| == |s.returned| + 1)
            && (|s'.returned| == |s.returned| + 1 ==>
                  s'.returned[|s.returned|].thread == t && s'.returned[|s.returned|].inv == PcOf(s, t).inv)
  {
  }

  lemma ReturnIsExplained(s: Proto, s': Proto, t: Thread, fromEnv: Result<Config>)
    requires LogHolds(s', fromEnv) && s.returned <= s'.returned && |s'.returned| == |s.returned| + 1
    requires s'.returned[|s.returned|].thread == t && PcOf(s', t).Idle?
    ensures var r := s'.returned[|s.returned|];
            && Explained(s'.hist, t, r.inv, r.answer, r.slot, r.until, r.version, fromEnv)
            && SlotsOf(s'.hist, t) == SlotsReturned(s'.returned, t) == SlotsReturned(s.returned, t) + [r.slot]
  {
    var r := s'.returned[|s.returned|];
    assert ReturnHolds(s', r, fromEnv) && ThreadHolds(s', t, fromEnv);
    ReturnsGrow(s.returned, r, t);
    assert s'.returned == s.returned + [r];
  }
}

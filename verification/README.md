# Verification of the BMC secret operator

The operator copies the credentials of `BMCSecret` objects into a secret backend such as Vault. For
every BMC that references a secret it builds a path from a template and keeps the secret's username
and password there; a finalizer lets it clean up when the secret is deleted. Several secret engines
may be configured, each with a label specification that selects the secrets it receives. A factory
caches the backend, the path builder, the configuration and the engines, and a second controller
invalidates that cache when the configuration resource changes.

This project models the operator in Dafny and proves what it promises. `dafny verify dfyconfig.toml`
checks everything.

| file | contents |
|---|---|
| `Wrappers.dfy`, `Sequences.dfy` | optional values, results, order-preserving selection |
| `PathBuilder.dfy` | templates, building a path, reading the values back out of it, when paths can collide |
| `MultiEngine.dfy` | label specifications, engine selection, the second matcher of the test factory |
| `Resolver.dfy` | BMCs of a secret, region, hostname, credentials |
| `Metrics.dfy` | the collector as a class, its conservation laws, the error classifier |
| `SyncPass.dfy`, `SyncTheorems.dfy` | one pass over targets as a function of the stores and of all backend answers; closed form, minimal writes, status soundness, isolation, convergence |
| `Deletion.dfy` | the cleanup loop as a function of the default store and of all delete answers |
| `Backend.dfy` | the backend as a mutable object, the loops that write to it and delete from it, and the recorder of what takes effect |
| `SyncStatus.dfy` | the status resource and its condition history |
| `Operator.dfy`, `OperatorRuns.dfy` | a reconcile call as a state transition; finalizer safety over all runs |
| `OperatorStatus.dfy` | what the status resources say over all runs |
| `OperatorTheorems.dfy`, `OperatorExamples.dfy` | round trips and convergence of whole runs; concrete inputs at which the operator does less than one may expect |
| `Reconciler.dfy` | the controller as a class, each method proved to perform that transition |
| `FactoryCache.dfy`, `BackendFactory.dfy` | the cache as a sequential object: specification and invariants; the factory as a class |
| `FactoryRefinement.dfy`, `FactorySetting.dfy` | the cache against a computation without one, under failing reads and connections; exactly when a reconcile call is answered from one setting |
| `FactoryProtocol.dfy` | any number of threads under the read-write lock with double checking; linearizability |
| `FactoryCurrent.dfy` | what concurrent getters answer, compared with the resource as it was while they ran |

How the environment enters. Every call that can fail takes its outcome as a parameter (`Answers`,
`Env`, `StatusAnswers`, `Read`, `Choice`), so a theorem that does not restrict them holds for every
failure pattern. A failed write or delete may or may not have taken effect. `Env` also carries what
the factory's getters return; where a theorem needs a fixed configuration, `Setting` and
`AnswersFrom` say that every getter answers from it or fails. A factory whose resource stays the same
answers in that way exactly unless a read of the resource fails in one of three places
(`AnswersAreOneSetting`, with the cases in `LeavesIff`); this presupposes that each change of the
resource, and each failed load that cached another configuration, has been followed by a successful
invalidation. Stores are named by any type `S`: the
lemmas hold for all of them, and the class instantiates `S` with mutable backend objects, so two
engines that hold the same object alias one store.

Behaviour of the code that the theorems bring out:

* Cleanup covers the default backend only, also when engines are configured, although
  `IMPLEMENTATION.md` promises that finalizers remove backend secrets. `MultiEngineLeftovers` says
  exactly which entries remain, `EngineEntryLeftBehind` gives a cluster where one does, `RoundTrip`
  says that nothing remains in single-engine mode.
* A failed read of the resource is not reported. The multi-engine check then answers false
  (`FailedReadHidesEngines`), so a cluster with engines writes to the default store for one call, although
  `docs/multi-team-config.md` promises isolated engines: `FailedCheckWritesDefault` and
  `FailedCheckSpoilsOther` are such calls, `StrayChangeIff` says exactly when one changes a path outside the
  selected engines, and `CallSpoilsIff` when a call makes a right path wrong. `OperatorNeverWorsens` and
  `OperatorConverges` hold for calls with any answers that do not stray to a path of a secret with another
  password.
* A failed load takes the configuration of the environment and caches it: `FallbackSticks`. From then on,
  until an invalidation, the cache disagrees with the resource, exactly if the two configurations differ
  (`CoherentAnswers`).
* An invalidation that fails to close an engine leaves engines cached that it has closed already, and they
  are handed out: `CachedClosedIff`, `ServesClosedIff`.
* Only passwords are compared. `UsernameFollows` says exactly when the username is current too,
  `OldUsernameStays` gives a store where it is not.
* The sync-label check comes before the deletion branch: `UnlabelledKeepsFinalizer`.
* The condition is replaced only when status or reason changes: `MessageMayLag` says exactly when its
  message still shows the latest counts, `MessageLags` shows that it may not.
* A cached path builder can be older than the cached configuration: `BuilderBecomesOld` says exactly
  which call makes it so, `BuilderMayBeOld` that it happens, and `TemplatesDifferIff` after exactly
  which sequences of calls the two disagree on the template.
* The default template tells any two triples apart, whatever the username; the template with
  underscores that the path builder's tests use does not: `UnderscoreTemplateCollides`. The exact
  condition for templates that mention no field twice is `TellsApartIffSeparated`.
* Secrets whose paths collide with different passwords overwrite each other for ever;
  `OperatorConverges` says that the operator settles exactly if there is no such conflict, and
  `DifferentTriplesPlansDisjoint` what rules it out.
* The engine matcher and the test factory's matcher differ on label maps with odd keys:
  `MatchersAgreeExactly` gives the exact condition, which Kubernetes label keys always meet.

Assumptions of the run theorems: a reconcile call reads the current object; a user may do anything to
a secret except remove the operator's own finalizer by hand.

## Model

| member | source | states |
|---|---|---|
| FactoryProtocol.Linearizable | internal/secretbackend/factory.go:61-188 | in every interleaving of any number of threads, with the resource changing between any two steps: the history is legal for the sequential factory and leads to the cached fields whenever no writer holds the lock; each thread's slots in it are those of its returned calls in order, then the one it is about to return from; and each returned call's slot was filled between its invocation and its return, in time and in versions of the resource, with the answer returned and an operation of that call whose reads the call made while it ran |
| FactoryProtocol.RealTimeOrder | internal/secretbackend/factory.go:61-188 | in every interleaving, what had been returned when a call was made comes before it in the history |
| FactoryCurrent.AnswersAreCurrent | internal/secretbackend/factory.go:61-188 | in every interleaving, if the resource was at one version from a successful invalidation, or from the start, until a getter was done, and no operation in between was misled by a failed read: that version was current between invocation and return, and if the getter's own reads worked its answer is the uncached one for it, or a failure to connect |
| FactoryProtocol.ValidWhenUnlocked | internal/secretbackend/factory.go:405-448 | whenever no writer holds the lock: default backends created equal those closed plus the cached one, and the cache invariant holds |
| FactoryProtocol.BackendNeverOverwritten | internal/secretbackend/factory.go:61-93 | a cached backend is never replaced by another; it only becomes nil, in a thread that holds the write lock and has just closed it |
| FactoryProtocol.WriterFinishes | internal/secretbackend/factory.go:452-515 | in every reachable state each step of the lock holder, whatever the environment answers, strictly decreases the work left before it unlocks |
| FactoryProtocol.OneEntryPerCall | internal/secretbackend/factory.go:132-175 | in every reachable state a step takes a thread back to where it makes calls exactly if it logs a return of the call that thread had made, explained by one slot of the history, and then the thread has as many slots as returns |
| FactoryProtocol.StepKeepsInv | internal/secretbackend/factory.go:61-188 | every step of a getter, of invalidation and of close keeps lock discipline and the relation between shared fields, phase and history |
| FactoryCache.ReachableValid | internal/secretbackend/factory.go:405-515 | after any calls with any failures, including an invalidation that stopped halfway: a cached backend was built from exactly the cached configuration; every cached value implies a cached configuration and stems from a load after the last successful invalidation; the path builder is what that load's configuration builds, the engines are what it builds from the list that a call for engines read; and created equals closed plus cached |
| FactoryCache.BuilderBecomesOld | internal/secretbackend/factory.go:77-128 | the path builder stops stemming from the cached configuration exactly when, with a builder cached, `GetBackend` finds no backend, connects, and loads a configuration a backend can be created from |
| FactoryCache.TemplatesDifferIff | internal/secretbackend/factory.go:77-128 | after any calls with any failures, builder and cached configuration have different templates if and only if some call created a backend from a resource with another template than the builder cached then, and no later call created a backend or cleared the cache |
| FactoryCache.BuilderMayBeOld | internal/secretbackend/factory.go:77-128 | this happens whenever the resource changes its template between the two calls |
| FactoryCache.CachedClosedIff | internal/secretbackend/factory.go:433-441 | after any calls with any failures, engine j of the cached list is closed if and only if some invalidation closed it, failed to close a later engine, and no invalidation succeeded after that |
| FactoryCache.ServesClosedIff | internal/secretbackend/factory.go:454-458 | of the engines that are cached and closed, a call hands out exactly those that the labels match |
| FactoryRefinement.CacheRefinesUncached | internal/secretbackend/factory.go:61-188 | if every resource change, and every call misled by a failed read, is followed by a successful invalidation before the next getter: every getter whose own reads work answers what a computation without cache would, or fails because it cannot connect, whatever reads, connections and closes failed before |
| FactoryRefinement.CoherentAnswers | internal/secretbackend/factory.go:452-526 | from a cache that agrees with the resource, whatever reads and connections fail: it goes on agreeing exactly unless a failed load caches a configuration of the environment that differs, and a getter whose reads work answers the uncached value or a failure to connect |
| FactoryRefinement.EnginesIffMultiEngine | internal/secretbackend/factory.go:529-541 | from a cache that agrees with the resource, if its engines can be created and the call's reads and connections work: after the engines were asked for they are cached exactly if the multi-engine check answers true, and the answer is the filtered list of all of them or an empty one |
| FactoryRefinement.StaleWithoutInvalidation | internal/secretbackend/factory.go:132-152 | without an invalidation the cached region key is right exactly if the old and new resource agree on it |
| FactoryRefinement.FallbackSticks | internal/secretbackend/factory.go:178-188 | one failed read caches the environment's configuration; a later call that could read the resource answers from it, rightly exactly if both agree |
| FactoryRefinement.FailedReadHidesEngines | internal/secretbackend/factory.go:529-534 | after a failed read the multi-engine check answers false without an error, rightly exactly if the resource lists no engines |
| FactorySetting.LeavesIff | internal/secretbackend/factory.go:452-541 | from a cache that agrees with the resource, whatever reads and connections fail, an answer is not the setting's exactly if the call falls back on an environment that differs in what is asked, or cannot read the list of engines although some match, or is the multi-engine check and cannot read a resource that lists engines |
| FactorySetting.AnswersAreOneSetting | internal/secretbackend/factory.go:61-188 | over a disciplined sequence with failing reads and connections: what a reconcile call gets while the resource stays the same comes from the one setting that the resource gives, or fails, if and only if none of its questions leaves the setting |
| FactorySetting.OnlyTheCheckLeaves | internal/secretbackend/factory.go:529-541 | it comes from that setting up to the answer of the multi-engine check if and only if no other question leaves the setting, and the check leaves it exactly if it answers false although engines are listed |
| FactorySetting.CompleteNeverFails | internal/secretbackend/factory.go:61-188 | over a disciplined sequence, while the resource names a creatable backend and templates that parse, every getter succeeds whose own reads and connections work, whatever failed before |
| FactoryCache.ConfigFromResource | internal/secretbackend/config.go:59-118 | what is loaded from the resource are its own values, with the documented template and region key where they are empty; a failed read and a missing resource give the environment's configuration; a backend can be created exactly if it is named vault and has a Vault section |
| FactoryCache.VaultConfigFromResource | internal/secretbackend/config.go:80-107 | field by field, the Vault section with its documented defaults, with and without Kubernetes authentication and TLS |
| FactoryCache.EnginesListedBy | internal/secretbackend/factory.go:482-541 | a read lists the engines of the Vault section, all of them and in order; a resource without one, a missing resource and a failed read list none |
| FactoryCache.AnsweredOnceIsCached | internal/secretbackend/factory.go:61-175 | a getter that has answered answers the same question again with the same, and changes nothing, whatever the resource and the connections do by then |
| FactoryCache.EnginesHandedOut | internal/secretbackend/multi_engine.go:55-116 | from the cache or from a new list, in every reachable state: the engines handed out are exactly those whose specification, read as documented, selects the labels, each built field by field as its configuration says |
| BackendFactory.Factory.GetBackend | internal/secretbackend/factory.go:61-93 | the new fields and the answer are those of the sequential specification; the configuration is always reloaded when a backend is created |
| BackendFactory.Factory.GetPathBuilder | internal/secretbackend/factory.go:96-129 | the new fields and the answer are those of the specification; the configuration is loaded only when none is cached |
| BackendFactory.Factory.GetRegionLabelKey | internal/secretbackend/factory.go:132-152 | the new fields and the answer are those of the specification |
| BackendFactory.Factory.GetSyncLabel | internal/secretbackend/factory.go:155-175 | the new fields and the answer are those of the specification |
| BackendFactory.Factory.GetEngineBackends | internal/secretbackend/factory.go:452-515 | the new fields and the answer are those of the specification: cached base configuration, live engine list, filtered by the labels passed; in every reachable state the engines handed out are exactly those whose specification, read as documented, selects the labels, each built as its configuration says |
| BackendFactory.Factory.InvalidateCache | internal/secretbackend/factory.go:421-448 | all four fields are cleared, or, if a close fails, exactly what was cleared before it |
| BackendFactory.Factory.Close | internal/secretbackend/factory.go:405-417 | only the default backend is closed and forgotten, and it is kept if closing fails |
| BackendFactory.Factory.ReconcileConfig | internal/controller/secretbackendconfig_controller.go:46-82 | a changed or deleted resource invalidates the cache; any other read error leaves it untouched |
| BackendFactory.Factory.LoadConfig | internal/secretbackend/factory.go:178-188 | the resource if it can be read, otherwise the environment, for every kind of read failure |
| BackendFactory.ParseSecretEngineConfig | internal/secretbackend/multi_engine.go:55-105 | success exactly if every engine connects and its template parses, and then engine by engine in order, field by field: the base configuration with the engine's mount path, its name, its own template or the default one, and a matcher that decides the documented meaning of its sync label for all labels |
| MultiEngine.SelectsAsDocumented | internal/secretbackend/multi_engine.go:38-52 | parsing a specification and matching decides exactly the documented `key` / `key=value` meaning, `key=` asking for the key only |
| MultiEngine.SplitInTwo | internal/secretbackend/multi_engine.go:110-116 | the parts around the first separator put together again give the text, and the first part has no separator |
| MultiEngine.FilterEngines | internal/secretbackend/factory.go:518-526 | the loop returns the filtered list |
| MultiEngine.MatchesLabel | internal/controller/mock/mock_multi_engine.go:169-199 | what the loop-based matcher decides, in terms of the first `=` |
| MultiEngine.MatchersAgreeExactly | internal/controller/mock/mock_multi_engine.go:169-199 | on a label map the two matchers agree on every specification exactly if it has no empty key, no key `=`, and no key `=v` with value `v` |
| MultiEngine.MatchersAgreeOnLabelKeys | internal/controller/mock/mock_multi_engine.go:169-199 | on maps with non-empty keys without `=` the two matchers agree on every specification |
| Sequences.FilterIsSubsequence | internal/secretbackend/factory.go:518-526 | the filtered list reads the configured list at all matching positions, each once, in order |
| PathBuilder.Build | internal/secretbackend/pathbuilder.go:50-56 | the buffer ends up holding the text of the template, or the execution fails if a variable does not exist |
| PathBuilder.TextToPath | internal/secretbackend/pathbuilder.go:38-56 | a malformed text gives no path builder, a blank one builds the empty path, and any other one the path of its template |
| PathBuilder.PieceByPiece | internal/secretbackend/pathbuilder.go:50-56 | literal text stands for itself and each variable for its own value, and a template with a variable that does not exist builds nothing |
| PathBuilder.DefaultPath | internal/secretbackend/config.go:72-74 | the default template builds `bmc/`, region, hostname and username, separated by slashes |
| PathBuilder.InvertText | internal/secretbackend/pathbuilder.go:50-56 | a parser that splits at slashes reads every field value back out of the path |
| PathBuilder.PathInjective | internal/secretbackend/pathbuilder.go:50-56 | with a slash between every two consecutive fields and values that are slash-free except for the last, equal paths mean equal values of all fields mentioned |
| PathBuilder.DefaultTemplateInjective | internal/secretbackend/config.go:72-74 | the default template maps different triples to different paths, the username being any text |
| PathBuilder.TellsApartIffSeparated | internal/secretbackend/pathbuilder.go:50-56 | a template that mentions no field twice is injective on slash-free values exactly if a slash separates every two consecutive fields |
| PathBuilder.UnderscoreTemplateCollides | internal/secretbackend/pathbuilder_test.go:72-83 | the underscore template maps two different slash-free triples to one path |
| Resolver.FindBMCsForSecret | internal/controller/bmcresolver/resolver.go:28-42 | the BMCs whose reference names the secret, in list order, or the list error |
| Resolver.BMCsOfSecret | internal/controller/bmcresolver/resolver.go:34-41 | one BMC at a time, in list order, those and only those whose reference names the secret |
| Resolver.HostPart | internal/controller/bmcresolver/resolver.go:58-71 | a non-empty hostname is the host part whatever else the BMC has; without one it is a non-empty endpoint reference, and without that the BMC's name |
| Resolver.RegionPart | internal/controller/bmcresolver/resolver.go:44-56 | the region is the value of the region label exactly if it is present and not empty, and `unknown` otherwise |
| Resolver.CredentialsRead | internal/controller/bmcresolver/credentials.go:26-47 | credentials are read exactly if username and password are both there and not empty |
| Backend.NeedsUpdateOf | internal/controller/bmcsecret_controller.go:621-645 | the exists, read and compare steps give the specified verdict or error, and the backend is asked once whether the path exists, and to read it only if it does |
| Backend.SyncTarget | internal/controller/bmcsecret_controller.go:222-315 | one loop iteration: status entry, success flag, new stores of all backends, calls to the backend and recorded write for each of its five exits |
| Backend.SyncDefault | internal/controller/bmcsecret_controller.go:216-315 | the single-engine loop performs the pass over the default targets and records exactly its landed writes, in order |
| Backend.SyncEngines | internal/controller/bmcsecret_controller.go:374-477 | the nested loop performs the pass over engines times BMCs, also when engines share a store, and records exactly its landed writes, in order |
| Backend.DeleteSecrets | internal/controller/bmcsecret_controller.go:587-609 | the cleanup loop tries every path that can be built, skips failed deletes, and records exactly those that took effect, in order |
| Backend.SecretBackend.WriteSecret | internal/controller/mock/mock_backend.go:60-76 | the call is logged, the record stored and the write recorded unless it is lost, and the error reported |
| Backend.SecretBackend.ReadSecret | internal/controller/mock/mock_backend.go:79-99 | the call is logged; the stored record, or an error if it is missing or the call fails |
| Backend.SecretBackend.DeleteSecret | internal/controller/mock/mock_backend.go:102-114 | the call is logged, and the entry removed and the delete recorded unless it is lost |
| Backend.SecretBackend.SecretExists | internal/controller/mock/mock_backend.go:117-129 | the call is logged; whether the path is stored, or the injected error |
| SyncPass.PassLands | internal/controller/bmcsecret_controller.go:385-477 | under any answers a pass puts the record at the spots it landed on, which are distinct and were wrong targets, and changes nothing else |
| SyncPass.TargetAt | internal/controller/bmcsecret_controller.go:385-396 | target number e times the number of BMCs plus b is engine e with BMC b |
| SyncTheorems.PassChangesIff | internal/controller/bmcsecret_controller.go:385-477 | under any answers a pass changes what a path holds exactly if, judged by the stores before the pass, a write for some target lands there, and then the path holds the password |
| SyncTheorems.PassIsRun | internal/controller/bmcsecret_controller.go:385-396 | a pass is the run of its loop iterations |
| SyncTheorems.ClosedForm | internal/controller/bmcsecret_controller.go:385-477 | a fault-free pass is one update: each target that is missing or has the wrong password becomes the new record, everything else is unchanged, and the number of writes is the number of distinct wrong targets |
| SyncTheorems.OrderIndependent | internal/controller/bmcsecret_controller.go:385-477 | reordering or repeating engines and BMCs does not change the final stores, with colliding paths and shared stores |
| SyncTheorems.WritesCountDown | internal/controller/bmcsecret_controller.go:281-302 | under any answers no spot is written twice in a pass and wrong targets before equal wrong targets after plus landed writes |
| SyncTheorems.SecondPassIdle | internal/controller/bmcsecret_controller.go:248-279 | a second fault-free pass writes nothing and reports the same counts |
| SyncTheorems.StatusSound | internal/controller/bmcsecret_controller.go:374-477 | the entry for engine e and BMC b describes them, the counters count the entries, and a success entry's path holds the current password in the final store, under any answers |
| SyncTheorems.EntrySucceedsIff | internal/controller/bmcsecret_controller.go:222-315 | under any answers, entry k describes target k, and it is a success if and only if the path can be built, the existence check answers, what is there can be read, and it holds the password already or the write is accepted; every error that a backend call returns makes it a failure, also that of a write which took effect all the same |
| SyncTheorems.DefaultTargetPath | internal/controller/bmcsecret_controller.go:222-241 | with the default template the credentials of a BMC go to `bmc/`, its region label's value or `unknown`, its hostname, endpoint reference or name, and the username |
| SyncTheorems.EngineIsolation | internal/controller/bmcsecret_controller.go:357-477 | a pass changes a path of a store only if a configured engine on that store matches the labels and builds that path for one of the BMCs |
| SyncTheorems.UsernameFollows | internal/controller/bmcsecret_controller.go:638-644 | after a fault-free pass the password is current, and the username exactly if the target was wrong or already had it |
| OperatorExamples.OldUsernameStays | internal/controller/bmcsecret_controller.go:638-644 | a concrete store that keeps another username after a fault-free pass that reports success |
| SyncTheorems.WrongCountsDown | internal/controller/bmcsecret_controller.go:222-315 | for secrets with disjoint paths, under any interleaving of loop iterations and any answers, the number of wrong paths plus the number of landed writes is constant |
| SyncTheorems.Converges | internal/controller/bmcsecret_controller.go:222-315 | once every target has been served without faults at some point of an interleaved run, no path is wrong if and only if no two secrets with different passwords share a path of a store |
| SyncTheorems.ConflictStaysWrong | internal/controller/bmcsecret_controller.go:638-644 | secrets that share a path and differ in the password are never all right, whatever the stores hold |
| SyncTheorems.WrongNeverGrows | internal/controller/bmcsecret_controller.go:222-315 | without such a conflict no interleaved run with any faults increases the number of wrong paths |
| SyncTheorems.DifferentTriplesDisjoint | internal/controller/bmcsecret_controller.go:226-231 | secrets whose BMCs and usernames differ on a field of a separated template share no path |
| Deletion.CleanupRemoves | internal/controller/bmcsecret_controller.go:587-609 | whichever deletes fail, every buildable path is tried once per BMC in order, and exactly the entries whose delete took effect are gone and recorded |
| SyncStatus.StatusCopy.SetCondition | internal/controller/bmcsecret_controller.go:776-793 | the in-place update equals the specified condition list |
| SyncStatus.WithConditionAt | internal/controller/bmcsecret_controller.go:776-793 | at most the first condition of the type changes, every other keeps its place and value |
| SyncStatus.StatusCopy.Record | internal/controller/bmcsecret_controller.go:726-765 | the new status carries the counts and the condition for them |
| SyncStatus.ConditionHistory | internal/controller/bmcsecret_controller.go:692-793 | after any updates there is exactly one Synced condition behind the untouched others, with the verdict of the latest counts and the time, generation and message of the update where the verdict last changed |
| SyncStatus.RunStartIsLastChange | internal/controller/bmcsecret_controller.go:784-786 | that update is the last one whose verdict differs from its predecessor's |
| SyncStatus.TrueMeansAllSynced | internal/controller/bmcsecret_controller.go:735-762 | in a consistent status a Synced condition is the only one, the stored counts add up to at least one listed path, and it is true exactly if every listed path succeeded |
| SyncStatus.UpdateKeepsConsistent | internal/controller/bmcsecret_controller.go:726-773 | an update with counts that add up leaves exactly one Synced condition, which classifies the stored counts |
| SyncStatus.UpdateReports | internal/controller/bmcsecret_controller.go:692-773 | a status update fails exactly if one of the API calls it makes fails; otherwise the resource named after the secret holds exactly the reported paths, counts and time and a Synced condition that classifies them, and no other resource changes; if it fails the resource is as it was, or new and empty |
| SyncStatus.FirstCondition | internal/controller/bmcsecret_controller.go:735-765 | the condition that an update appends carries the generation, the time and the counts of that update, in the message of its case |
| SyncStatus.MessageMayLag | internal/controller/bmcsecret_controller.go:784-786 | the message shows the latest counts exactly if the counts it shows have not changed since the verdict did |
| SyncStatus.MessageLags | internal/controller/bmcsecret_controller.go:784-786 | a concrete pair of updates after which the message shows an old count |
| OperatorStatus.SyncedTellsTheTruth | internal/controller/bmcsecret_controller.go:146-150 | over every run with any failures: a Synced condition stands alone beside counts that add up to at least one listed path, and is true exactly if every listed path succeeded |
| OperatorStatus.ReportedCountsAddUp | internal/controller/bmcsecret_controller.go:366-370 | any call, whatever fails, leaves each status resource as it was, newly created and empty, or with counts that add up, count the entries and are at least one |
| OperatorStatus.CallReportsTargets | internal/controller/bmcsecret_controller.go:317-321 | after a call that gets to one target at least and whose status calls are answered, the resource named after the secret holds the report of that call's pass: one entry per target, counts that add up, and a classifying Synced condition, exactly one if there was at most one |
| OperatorStatus.ReportedEntry | internal/controller/bmcsecret_controller.go:222-315 | entry k of that report is about target k and is a success if and only if the work on it ended well, told by the store and the answers |
| OperatorStatus.SuccessEntriesHold | internal/controller/bmcsecret_controller.go:222-321 | after any call, whatever fails, unless it left the status alone or only created it: entry k belongs to target k of the call, and if it reports success that target's path holds the current password in the stores after the call |
| Reconciler.BMCSecretReconciler.Reconcile | internal/controller/bmcsecret_controller.go:73-179 | the call changes API objects and backends exactly as the state machine's transition does, returns its outcome, and lets finalizer updates, writes and deletes take effect in exactly its order |
| Reconciler.BMCSecretReconciler.Finalize | internal/controller/bmcsecret_controller.go:123-131 | the finalizer is added and recorded as persisted if it is missing, and a failed update leaves everything as it was |
| Reconciler.BMCSecretReconciler.SyncSingleEngine | internal/controller/bmcsecret_controller.go:182-337 | getters in order, loop, status update: the transition for single-engine mode with its write events |
| Reconciler.BMCSecretReconciler.SyncMultiEngine | internal/controller/bmcsecret_controller.go:340-499 | getters in order, early end without engines, nested loop, status update: the transition for multi-engine mode with its write events |
| Reconciler.BMCSecretReconciler.HandleDeletion | internal/controller/bmcsecret_controller.go:502-618 | status removal, lookups, cleanup and finalizer removal as specified, on every early exit; the deletes are recorded before the release, and each backend is asked for exactly the deletes specified |
| Reconciler.BMCSecretReconciler.UpdateStatus | internal/controller/bmcsecret_controller.go:692-773 | get, create, refetch and update of the status resource with every failure exit |
| OperatorRuns.FinalizerSafety | internal/controller/bmcsecret_controller.go:118-131 | over all runs of create, edit, delete and reconcile: each write and each delete comes after the finalizer of its secret was persisted and before it was removed, and what was written belongs to a live finalized secret or one that deletion released |
| OperatorRuns.RunSound | internal/controller/bmcsecret_controller.go:118-131 | in every reachable state a live secret with the finalizer had it persisted and not released, a released secret is being deleted, and a persisted finalizer is still there unless it was released |
| OperatorRuns.EntriesAccounted | internal/controller/bmcsecret_controller.go:502-618 | over all runs, every store entry that is new or changed was written for a secret that is live and finalized, or that was released, and every entry that is gone was deleted by a cleanup |
| OperatorRuns.ChangesAreRecorded | internal/controller/bmcsecret_controller.go:281-302 | a call that adds or changes an entry records a write there for its secret, and one that removes an entry records a delete there for a secret that is being deleted |
| OperatorRuns.LeavesOnlyByRelease | internal/controller/bmcsecret_controller.go:611-617 | a secret with the finalizer leaves the API or loses the finalizer only in a call that finds it being deleted and ends by releasing it |
| OperatorRuns.DisappearsIff | internal/controller/bmcsecret_controller.go:515-617 | a step makes a secret disappear exactly if it is a user's delete or edit that finds or leaves no finalizer on it, or a call that removes the operator's finalizer and that was the last |
| OperatorRuns.CallShape | internal/controller/bmcsecret_controller.go:73-131 | a call is quiet, or cleans up a deleted secret and then releases it or keeps its finalizer, or puts the finalizer in place and then only writes |
| OperatorRuns.DeletionNeverBlocked | internal/controller/bmcsecret_controller.go:502-618 | whatever lookups and deletes fail, the call returns what the final update returns; the secret is untouched if that fails, and otherwise loses the finalizer and nothing else, and disappears exactly if that was its last; every buildable path is tried, and the stores lose exactly the entries whose delete took effect |
| OperatorRuns.UnlabelledKeepsFinalizer | internal/controller/bmcsecret_controller.go:110-121 | a deleted secret with the finalizer is left exactly as it is if and only if a sync label is configured and its labels are absent, lack the key, or hold the empty value there |
| OperatorRuns.SkippedIffUnlabelled | internal/controller/bmcsecret_controller.go:110-116 | a call passes over a secret that is not being deleted if and only if a sync label is configured and its labels are absent, lack the key, or hold the empty value there |
| OperatorRuns.IdleIff | internal/controller/bmcsecret_controller.go:87-133 | with any answers, a call does nothing and asks for no other one exactly if there is no such secret, or it is passed over for its label, or it is being deleted and does not hold the operator's finalizer |
| OperatorRuns.LiveOutcome | internal/controller/bmcsecret_controller.go:73-179 | a call for a secret that is not being deleted returns the error of a lookup, to be retried in 30 seconds, or no error and another look in 300; what the backends and the status calls answer never fails it, and no labelled secret is forgotten |
| OperatorRuns.DeletionRemovesStatus | internal/controller/bmcsecret_controller.go:518-527 | the status resource of the secret goes when its finalizer is handled, unless one of the two calls for it fails, and no other status changes |
| OperatorRuns.CleanupRemovesIff | internal/controller/bmcsecret_controller.go:529-609 | an entry goes exactly if it is in the default store, every lookup succeeds, and some BMC's delete of that path took effect |
| OperatorRuns.CleanupFrame | internal/controller/bmcsecret_controller.go:528-609 | cleanup changes only the default store, and only by removing default paths of the secret's BMCs, in either mode |
| OperatorTheorems.RoundTrip | internal/controller/bmcsecret_controller.go:588-609 | single-engine: fault-free sync, deletion and cleanup leave the original stores minus the target paths |
| OperatorTheorems.MultiEngineLeftovers | internal/controller/bmcsecret_controller.go:528-609 | multi-engine: after fault-free sync and cleanup an engine's target still holds its entry exactly unless it is a default path of the default store |
| OperatorExamples.EngineEntryLeftBehind | internal/controller/bmcsecret_controller.go:528-609 | a concrete cluster in which nothing fails and an engine's store holds the password of the deleted secret after the cleanup |
| OperatorTheorems.CleanupSparesOthers | internal/controller/bmcsecret_controller.go:588-609 | cleanup leaves alone the targets of a secret whose values differ on a field of the separated template |
| OperatorTheorems.CallChangesIff | internal/controller/bmcsecret_controller.go:73-477 | with any answers, a call changes a path of a store exactly if it gets past every guard to its targets and a write lands there, judged by the stores before the call |
| OperatorTheorems.CallSpoilsIff | internal/controller/bmcsecret_controller.go:281-302 | with any answers, a call spoils a path that is right for some password exactly under these guards |
| OperatorTheorems.CallIsolation | internal/controller/bmcsecret_controller.go:357-477 | as long as every getter but the multi-engine check answers from the setting or fails, a call changes a path of a store only if a selected engine on that store builds it for a BMC that references the secret, or, if the check wrongly answers false, the default backend does |
| OperatorTheorems.StrayChangeIff | internal/controller/bmcsecret_controller.go:165-178 | under the same condition, a call changes a path outside those of the selected engines exactly if the check answers false although engines are listed, the call gets past every guard, and a write lands on that default path |
| OperatorTheorems.StraysAreDefaultPaths | internal/controller/bmcsecret_controller.go:165-178 | under the same condition a call writes outside its secret's paths to default paths only, and not at all if the check is right |
| OperatorExamples.FailedCheckWritesDefault | internal/controller/bmcsecret_controller.go:165-178 | a concrete cluster in which one failed read of the resource puts a password into the default store, where no engine of the secret is |
| OperatorExamples.FailedCheckSpoilsOther | internal/controller/bmcsecret_controller.go:165-178 | two compatible secrets, and one failed read of the resource in a call for one of them that makes the right path of the other wrong |
| OperatorTheorems.OperatorConverges | internal/controller/bmcsecret_controller.go:73-337 | over any sequence of calls with any answers, as long as no call strays to a path of a secret with another password: once every secret has had one fault-free call answered from the setting, no path is wrong if and only if no two secrets with different passwords share a path of a store |
| OperatorTheorems.OperatorNeverWorsens | internal/controller/bmcsecret_controller.go:73-337 | without such a conflict no sequence of calls makes more paths wrong, whatever they are answered, as long as no call strays to a path of a secret with another password |
| OperatorTheorems.DifferentTriplesPlansDisjoint | internal/controller/bmcsecret_controller.go:226-231 | in single-engine mode a separated template and differing values make the paths of all secrets disjoint |
| OperatorTheorems.SecondCallIdle | internal/controller/bmcsecret_controller.go:73-337 | a second fault-free reconcile call writes nothing and leaves secrets, stores, counts and conditions as they are |
| OperatorTheorems.LabelledIsSynced | internal/controller/bmcsecret_controller.go:110-179 | a fault-free call for any secret that has the configured label with any value but the empty one puts the finalizer in place and its record, `username` and `password`, on every target that is missing or has another password, and changes nothing else |
| OperatorTheorems.SyncedWhere | internal/controller/bmcsecret_controller.go:73-241 | after a fault-free call with the default template the password is at `bmc/`, region label, hostname and username of every BMC that references the secret |
| Metrics.Contains | internal/metrics/metrics.go:306-317 | true exactly if one of the markers occurs at some position, with every slice in range |
| Metrics.ClassifyError | internal/metrics/metrics.go:269-303 | the class of the first category with an occurring marker |
| Metrics.ClassIsFirst | internal/metrics/metrics.go:276-302 | an error gets a category's name exactly if a marker of it occurs and none of an earlier category does |
| Metrics.ClassesOfErrors | internal/metrics/metrics.go:269-303 | every class by the texts that stand for it and their precedence, and `none` and `unknown` where no error or no text is there |
| Metrics.Collector.RecordBackendOperation | internal/metrics/metrics.go:215-241 | counters keep agreeing with the operations recorded |
| Metrics.Collector.RecordBackendOperationWithEngine | internal/metrics/metrics.go:227-235 | the engine name becomes part of the backend type |
| Metrics.Collector.RecordSyncStatus | internal/metrics/metrics.go:206-212 | gauges keep agreeing with the syncs recorded |
| Metrics.CountersConserve | internal/metrics/metrics.go:215-241 | per operation and backend type, successes plus errors are the recorded calls, and the error-type counters add up to the errors |
| Metrics.GaugeIsLatestCleanSync | internal/metrics/metrics.go:206-212 | the last-success gauge is the time of the latest sync with no failed and at least one successful path |
| Metrics.GaugesAreLatestSync | internal/metrics/metrics.go:206-212 | the other two gauges show the latest recorded sync of the secret, whatever came of it |

## Left out

- The Vault and OpenBao clients, authentication and KV version detection: network calls, represented by stores and by answers of the environment.
- Reading of environment variables: the configuration they give is the parameter `fromEnv`.
- Text of error messages and of events, durations, histograms and log lines: no effect on the proved state.
- Templates beyond literal text, the three documented variables and variables that do not exist: the template language is a library.
- Parsing of template text: a template is given as its pieces, as blank, or as malformed.
- Queueing, watches and event filters: a call may be made at any time for any secret.
- Overlapping calls for the same secret: one controller handles one request per secret at a time; iterations of different secrets interleave freely.
- Metric wrappers around backends: they pass calls through and record them with the methods modelled in `Metrics.dfy`.
- Create and close counts of engine backends: a failure while parsing the engine list drops those already created, so they are conserved for the default backend only.
- BackendFactory.ParseSecretEngineConfig: the text of the error is not stated.
- Readings of the clock within one call: a call has one time, `now`, where the code reads the clock for the entries, for the status and for the condition.
- API updates that are reported as failed but took effect: a failed update leaves the object as it was.
- The multi-engine check in the thread protocol: it takes no lock and caches nothing, one read of the resource.
- Removal of the operator's finalizer by a user: the run theorems assume users leave it alone.

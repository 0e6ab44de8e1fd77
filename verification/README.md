# A verified model of grcache's control plane and cache key

grcache is a gRPC caching proxy. This project models, in Dafny 4.11, the parts of it whose
correctness is a matter of interleaving or of encoding, and proves what they promise over every run
or every input. `dafny verify dfyconfig.toml` checks all of it.

**Live reload** (`Resources`, `ResourceChange`, `ServiceStore`, `Pipeline`, `Convergence`, `Completion`,
`Panics`). A Kubernetes watch stream is turned into changes, the config loop applies them to its
object map and inverse index, elects one object per service name, and each `update_service` call takes
a generation and installs a tombstone, a pass-through entry, or whatever a spawned descriptor task
builds later. Watch events, changes and task completions or deaths interleave freely. The main
results: the `services` map always holds the newest completed install of each name; two runs with the
same watch events and consumed changes and the same task completions and deaths, interleaved with
those and with each other in any way, end in the same state; a tombstone is final for everything issued before it; and
once things settle, a name is served from the least object that declares it *if and only if* the
elected object was not renamed away since the name was last updated. That last condition is a gap in
the code: `apply` of a renamed object does not update the old name, so the old route stays
(`RenameLeavesOldRoute` exhibits it). These results assume dotted service names; `Panics` drops that
and shows that the loop panics exactly when it takes an object whose name has no dot.

**DNS discovery** (`Discovery`). Weak handles in a registry, a command queue and one refresh loop per
command. Every live handle has its start command queued or its own loop running, and that loop never
exits while the handle lives, although a loop re-reads the registry when it starts and may capture a
newer handle than its own. "One loop per host" is not true (`TwoLoopsOneHost`); `OneLoopPerHostIff`
says exactly which runs keep to it, those that never take a start command while a loop for its host
still runs, and `PatienceIsEnough` gives a discipline for the users of the handles that is sufficient.

**Both together** (`Routing`). Tasks and service entries hold the handles that `backends_for_hostname`
gave their `update_service` call. In every reachable state of the two subsystems a routable service is
backed by the one live handle for its upstream's host, and that handle is being refreshed.

**Readiness** (`Health`). The lock-free barrier with one step per atomic operation: the counter is
conserved and never wraps. Readiness implies that every blocking endpoint has reported in exactly the
runs where no blocking `add` starts after readiness is out and no signal is sent while the counter is
positive again (`BarrierIff`). The case the code warns about, a blocking `add` that finds the counter
at zero, is a wider one: never meeting it is sufficient and is exactly what rules out a signal that is
out or on its way too early (`EarlySignalIff`), but such an `add` can be harmless
(`LateAddMayBeHarmless`).

**Cache key** (`Names`, `Headers`, `CacheKey`). The bytes fed to the hasher carry no count of vary
entries; they are uniquely decodable all the same, and therefore two requests with the same bytes
are forwarded with the same non-core headers. The proof needs the strict `BTreeSet` order and the
bound on the path.

**Redis fleet** (`CacheData`, `PoolReconciler`, `ShardedCache`). The pool reconciler agrees with the
published set whenever it is parked and up to date. Under any membership change, eviction, race or
failed write, every backend reads as a register per hash: the last write that took effect there, with
its chunks in order, or a miss.

Where a state variable records history (a DNS answer, a handler's buffer, a published set, a finished
task's descriptors), a theorem ties it to the sequence of actions alone.

Each stateful part is written twice: as step functions on values, over which the theorems are
stated, and, where the program updates objects in place, as a class whose methods are proved to do
what the step function says. A run is a sequence of actions that are enabled one after the other;
external effects are nondeterministic actions.

## Assumptions

- Objects have a resource version, and reference plus version determine the content (`World`); every
  service name has a dot, because `update_service` unwraps the parse (`UpdateServicePanicsIff` says
  exactly when that unwrap fails, and `PanicsIff` over every run without this assumption).
- The watch stream is well formed: a listing may be restarted by another `Init`, and no `Apply` or
  `Delete` falls inside one.
- The operations of the concurrent hash map are atomic per key, so each `update_service` has one
  visible effect. Atomics interleave (an idealisation of `Relaxed`); generation and readiness counters
  do not overflow upwards at 64 bits.
- Load-balancer updates and connection-pool construction succeed; a load balancer is a fixed function
  of key, ring and accepted set.
- `usize` has 64 bits, and bincode writes 64-bit little-endian length-prefixed fields and allows
  trailing bytes when reading.
- Header values and field names hold no NUL, and a request path is shorter than 2^16 bytes, as the
  `http` crate guarantees.

## Model

| member | source | states |
|---|---|---|
| `Resources.ElectIn` | grcache-proxy/src/service_store.rs:217-222 | whatever order the hash set is iterated in, the result comes before every other reference: no namespace first, then namespaces and names in dictionary order |
| `Text.LessIsPrecedes` | grcache-proxy/src/service_store.rs:217-222 | the string order is dictionary order: a proper prefix, or lower at the first difference |
| `Resources.RefLessIsPrecedes` | grcache-proxy/src/service_store.rs:217-222 | the order of references, without recursion: an absent namespace first, then the namespace, then the name |
| `Resources.ElectIsFirst` | grcache-proxy/src/service_store.rs:217-222 | a reference is elected exactly if it is in the set and comes before every other one |
| `Resources.LeastUnique` | grcache-proxy/src/service_store.rs:217-222 | the least reference is unique, so the election is a function of the set |
| `Resources.ElectWithout` | grcache-proxy/src/service_store.rs:217-222 | removing a reference that was not elected does not change the election |
| `ResourceChange.ResourceChanges.constructor` | grcache-shared/src/resource_change.rs:30-33 | nothing is known and no listing has been seen at the start |
| `ResourceChange.ResourceChanges.Upsert` | grcache-shared/src/resource_change.rs:84-101 | the version is recorded, and a change is emitted exactly when it is new or different |
| `ResourceChange.ResourceChanges.Sweep` | grcache-shared/src/resource_change.rs:64-80 | exactly the keys absent from the listing are dropped, each listed once, in some order |
| `ResourceChange.ResourceChanges.Handle` | grcache-shared/src/resource_change.rs:36-111 | each event has the effect of the value-level transformer and emits exactly: an apply for a new or different version, a delete for what is named or missing from the listing, `Ready` last for each finished listing, an error for an error, nothing twice |
| `ResourceChange.TracksStep` | grcache-shared/src/resource_change.rs:36-106 | one event keeps the fold of the emitted changes in step with the watch, inside and outside a listing |
| `ResourceChange.FoldRefinesWatch` | grcache-shared/src/resource_change.rs:36-112 | for every well-formed stream with any aborted listings, the fold has the keys and versions of `objects`, and outside a listing it is the watch's object set |
| `ResourceChange.OutputExact` | grcache-shared/src/resource_change.rs:36-111 | after every stream the next event adds exactly those changes, judged by the fold of the earlier changes and by what the watch has listed |
| `ResourceChange.ReadyPerListing` | grcache-shared/src/resource_change.rs:78-83 | over every stream as many `Ready` are emitted as listings are completed |
| `ResourceChange.WatchIsLastWord` | grcache-shared/src/resource_change.rs:36-106 | the reference object set is what the last Apply, Delete or completed listing on each reference says |
| `ResourceChange.FoldIsLastWord` | grcache-shared/src/resource_change.rs:36-112 | outside a listing the fold of the emitted changes holds for each reference exactly that object |
| `ResourceChange.EmittedChangesAreNews` | grcache-shared/src/resource_change.rs:50-76 | an emitted apply is new to the fold or has another version, and a swept reference is in the fold |
| `ResourceChange.RelistIsSilent` | grcache-shared/src/resource_change.rs:38-83 | listing again what is already known, in any order, emits only `Ready` |
| `ServiceStore.ServiceConfigInner.UpdateIfNewer` | grcache-proxy/src/service_store.rs:44-59 | the entry is replaced only if it is absent or of a lower generation |
| `ServiceStore.ServiceConfigState.constructor` | grcache-proxy/src/service_store.rs:325-331 | the state starts empty at generation 0 |
| `ServiceStore.ServiceConfigState.RemoveObjectNoUpdate` | grcache-proxy/src/service_store.rs:163-179 | the object leaves the map and the index, and the previous object is returned; no unwrap fails |
| `ServiceStore.ServiceConfigState.RemoveObject` | grcache-proxy/src/service_store.rs:155-161 | removal followed by an update of the removed object's name, if there was one |
| `ServiceStore.ServiceConfigState.ApplyObject` | grcache-proxy/src/service_store.rs:181-196 | the object replaces its predecessor in map and index, the index stays exact, and the object's own name is updated |
| `ServiceStore.ServiceConfigState.Update` | grcache-proxy/src/service_store.rs:198-305 | one generation is taken, a tombstone, a task or a pass-through entry results, and the index stays exact |
| `ServiceStore.ServiceConfigState.CompleteTask` | grcache-proxy/src/service_store.rs:264-286 | a finished task offers its data under its captured generation |
| `ServiceStore.RemoveKeepsIndex` | grcache-proxy/src/service_store.rs:163-179 | removal never fails its unwrap and keeps the index exact |
| `ServiceStore.InsertKeepsIndex` | grcache-proxy/src/service_store.rs:181-193 | insertion, renames included, keeps the index exact |
| `ServiceStore.UpdateServiceEffect` | grcache-proxy/src/service_store.rs:198-305 | with an exact index and dotted names no unwrap fails, one generation is taken, and no key of `services` but the given one is written |
| `ServiceStore.UpdateServicePanicsIff` | grcache-proxy/src/service_store.rs:198-248 | `update_service` panics exactly when some object declares the name and the name has no dot |
| `ServiceStore.UpdateServiceOutcome` | grcache-proxy/src/service_store.rs:198-305 | the outcome is determined by the object elected among those declaring the name |
| `Pipeline.NewestAfterIssue` | grcache-proxy/src/service_store.rs:201-213 | a call with the newest generation wins over whatever entry it finds, so the unconditional insert equals the guarded one |
| `Pipeline.UpdateKeepsLedger` | grcache-proxy/src/service_store.rs:198-305 | the generation invariant survives every `update_service` |
| `Pipeline.FinishKeepsLedger` | grcache-proxy/src/service_store.rs:264-286 | the generation invariant survives every completion and every death of a task |
| `Pipeline.CurrentAfterApply` | grcache-proxy/src/service_store.rs:181-196 | an apply keeps every name's last election current, except for a name whose elected object it renames away |
| `Pipeline.CurrentAfterRemove` | grcache-proxy/src/service_store.rs:155-161 | a removal keeps every name's last election current |
| `Pipeline.StepKeepsInv` | grcache-proxy/src/service_store.rs:335-365 | the whole invariant survives every watch event, consumed change and task end |
| `Pipeline.Reachable` | grcache-proxy/src/service_store.rs:310-366 | the invariant holds after every legal run |
| `Pipeline.LoadedByActions` | grcache-proxy/src/service_store.rs:264-286 | the descriptors entered for a call are those its own task finished with in the run |
| `Convergence.StoreSoundInEveryRun` | grcache-proxy/src/service_store.rs:154-306 | after every run: no panic, an exact index, and `services` holds for each name the completed install with the greatest generation, also after failed tasks |
| `Convergence.ReadyMeansCaughtUp` | grcache-proxy/src/service_store.rs:339-345 | when readiness is reported the loop has applied exactly the objects of the completed listing |
| `Convergence.OneReportPerListing` | grcache-proxy/src/service_store.rs:339-345 | with the queue drained the loop has reported readiness once per completed listing |
| `Convergence.ServesElectedIff` | grcache-proxy/src/service_store.rs:155-305 | settled names are served from the least declaring object if and only if their elected object was not renamed away, with exactly the data `update_service` builds for it |
| `Convergence.Converges` | grcache-proxy/src/service_store.rs:155-305 | end to end from watch to map: no load balancer if nothing declares the name, otherwise the upstream and spec of the least declaring object, built from the descriptors its own task finished with in the run |
| `Convergence.ConvergesWithoutRenames` | grcache-proxy/src/service_store.rs:181-196 | if objects never change their service name no name is ever stale |
| `Convergence.RenameLeavesOldRoute` | grcache-proxy/src/service_store.rs:181-196 | a concrete family of runs in which a renamed object's old name stays routable |
| `Convergence.RunOnlyMovesForward` | grcache-proxy/src/service_store.rs:44-59 | along every run no key disappears and no installed generation decreases |
| `Convergence.NoResurrection` | grcache-proxy/src/service_store.rs:201-213 | after a tombstone only a later `update_service` of that name makes it routable, whichever older tasks complete |
| `Completion.InstallsDetermineServices` | grcache-proxy/src/service_store.rs:44-59 | the map is determined by the set of completed installs |
| `Completion.CallCommutes` | grcache-proxy/src/service_store.rs:198-286 | a task may end before or after a later `update_service`, also of the same name: state and map come out the same |
| `Completion.StepCommutes` | grcache-proxy/src/service_store.rs:198-365 | a task end commutes with every watch event and every consumed change |
| `Completion.CompletionOrderIrrelevant` | grcache-proxy/src/service_store.rs:44-59 | runs with the same events and changes in order and the same completions and deaths, interleaved anywhere, end in the same state |
| `Panics.PanicsIff` | grcache-proxy/src/service_store.rs:198-248 | over every run with any objects, the loop has panicked exactly if it took an apply of an object whose name has no dot; its unwraps of the index entry and of the elected object never fail |
| `Panics.UndottedListingPanics` | grcache-proxy/src/service_store.rs:245-248 | one such object in the first listing is enough |
| `Convergence.ReplicasAgree` | grcache-proxy/src/service_store.rs:217-224 | replicas that settle on the same objects by different histories and sweep orders elect, and for names stale in neither serve from, the same object |
| `Discovery.Service.constructor` | grcache-proxy/src/discovery/dns.rs:105-116 | empty registry, no commands, no loops |
| `Discovery.Service.BackendsForHostname` | grcache-proxy/src/discovery/dns.rs:52-95 | the returned handle is live and for the host; if any live handle for it exists it is that one and no command is sent; the feeder invariant is kept |
| `Discovery.Service.DispatchCommand` | grcache-proxy/src/discovery/dns.rs:227-250 | one loop is spawned per command, in order, and the feeder invariant is kept |
| `Discovery.DeadStaysDead` | grcache-proxy/src/discovery/dns.rs:57-63 | no step revives a handle without strong references |
| `Discovery.EveryLiveHandleIsFed` | grcache-proxy/src/discovery/dns.rs:52-95 | in every reachable state each host has at most one live handle and every live handle has its command queued or its own loop on its own weak reference; the registry unwrap never fails |
| `Discovery.LoopNeverAbandonsLiveHandle` | grcache-proxy/src/discovery/dns.rs:132-192 | a loop once running still runs at any later point at which its handle is live |
| `Discovery.LoopOfDeadHandleWindsDown` | grcache-proxy/src/discovery/dns.rs:137-192 | once the handle a loop watches is dead the loop takes at most four more steps, and after its exit it is among the loops at no later point |
| `Discovery.ReadinessIsPermanent` | grcache-proxy/src/discovery/dns.rs:162-194 | ready never reverts and means a DNS answer is published; outside a send-to-update window both balancers of a live handle equal the published set |
| `Discovery.PublishesLastAnswer` | grcache-proxy/src/discovery/dns.rs:162-194 | after every run a handle publishes exactly its loop's last answer, outside the send-to-update window both balancers of a live handle have it, ready implies an answer, and a live handle whose loop waits again after an answer is ready |
| `Discovery.ReferencesConserved` | grcache-proxy/src/discovery/dns.rs:57-63 | the strong references outside the loops are those handed out by requests and clones less those dropped |
| `Discovery.CommandsInOrder` | grcache-proxy/src/discovery/dns.rs:227-250 | start commands are taken first in, first out; none is lost or taken twice |
| `Discovery.TwoLoopsOneHost` | grcache-proxy/src/discovery/dns.rs:132-135 | a concrete run with two loops for one host, both on the newer handle |
| `Discovery.StrayLoopsBelongToDeadHandles` | grcache-proxy/src/discovery/dns.rs:132-135 | of two loops for a host at most one belongs to a live handle, and a loop that watches another handle has a dead one |
| `Discovery.OneLoopPerHostIff` | grcache-proxy/src/discovery/dns.rs:227-250 | a run never has two running loops for one host exactly when no start command is taken while a loop for its host still runs |
| `Discovery.PatienceIsEnough` | grcache-proxy/src/discovery/dns.rs:52-95 | never re-requesting a host while the loop of its dead handle is queued or running is enough for that, and is exactly what bounds running loops and queued starts together |
| `Discovery.PatienceIsNotNecessary` | grcache-proxy/src/discovery/dns.rs:137-192 | a concrete run that re-requests early and still never has two loops |
| `Routing.OldReferenceWasThere` | grcache-proxy/src/service_store.rs:250-299 | no step of live reload creates a reference for an earlier generation, so replaced entries and dead tasks never hold a handle again |
| `Routing.ReloadKeepsInv` | grcache-proxy/src/service_store.rs:198-305 | each `update_service` with an elected object acquires the handle of its upstream and keeps the reference count above the number of holders |
| `Routing.RoutableServicesAreFed` | grcache-proxy/src/service_store.rs:250-259 | over every joint run a routable service's handle is live, for the right host, the only live one for it, and queued or refreshed |
| `Health.Tracker.constructor` | grcache-shared/src/health.rs:24-37 | one armed root endpoint, a count of 1, not ready |
| `Health.Tracker.Add` | grcache-shared/src/health.rs:42-57 | a blocking add raises the count and arms an endpoint; the warning is due exactly when the count was 0 |
| `Health.Tracker.Ready` | grcache-shared/src/health.rs:92-112 | afterwards the endpoint has reported, the count was lowered exactly if it was armed, no other endpoint changed, and a zero count has been signalled |
| `Health.StepKeepsInv` | grcache-shared/src/health.rs:42-112 | every atomic step keeps the conservation law, and a `fetch_sub` finds a positive count |
| `Health.CounterConserved` | grcache-shared/src/health.rs:24-112 | over every interleaving the count is armed plus swapped endpoints plus adds in progress, and never wraps |
| `Health.DecrementsOnce` | grcache-shared/src/health.rs:88-112 | an endpoint takes at most one `fetch_sub` in any run |
| `Health.BarrierIff` | grcache-shared/src/health.rs:42-112 | readiness implies, throughout a run, that all have reported and no add is in progress exactly when no blocking add starts after readiness is out and no signal is sent while the count is positive |
| `Health.EarlySignalIff` | grcache-shared/src/health.rs:42-57 | no signal is out or about to be sent while a block is left exactly when no blocking add finds the count at zero, and then readiness implies all have reported throughout |
| `Health.LateAddMayBeHarmless` | grcache-shared/src/health.rs:49-51 | a concrete run with an add that the code warns about in which readiness still implies all have reported |
| `Health.BarrierUnderDiscipline` | grcache-shared/src/health.rs:20-23 | adding before the root reports is enough: readiness implies all have reported throughout the run |
| `Health.LateAddBreaches` | grcache-shared/src/health.rs:49-51 | a concrete run that is ready with an armed endpoint, so readiness does not imply all have reported |
| `Health.QuiescentZeroIsReady` | grcache-shared/src/health.rs:65-74 | with no operation in flight, a zero count, which is the same as no armed endpoint, implies the signal is set |
| `Health.ReadyIsPermanent` | grcache-shared/src/health.rs:102-110 | the signal never reverts |
| `Names.PrintParse` | grcache-shared/src/service/qualified_service.rs:15-32 | parsing succeeds exactly on dotted strings and printing restores the input |
| `Names.ParsePrint` | grcache-shared/src/service/qualified_service.rs:15-32 | parsing a printed service restores it exactly when its name has no dot |
| `Names.Utf8Exact` | grcache-proxy/src/proxy/mod.rs:64-64 | the UTF-8 check accepts exactly the encodings of texts |
| `Names.AsciiIsUtf8` | grcache-proxy/src/proxy/mod.rs:64-64 | every ASCII path passes it |
| `Names.ParseGrpcPathExact` | grcache-proxy/src/proxy/mod.rs:63-79 | accepts exactly UTF-8 paths `/service/method` with slash-free parts, and the parts reprint to the path |
| `Names.ParseGrpcPathErrors` | grcache-proxy/src/proxy/mod.rs:63-76 | exactly which inputs fail the UTF-8, the leading-slash and the two-element check |
| `Headers.InVarySet` | grcache-proxy/src/grpc/headers.rs:8-15 | a name is in the vary set exactly when some line contributes it |
| `Headers.TrimExact` | grcache-proxy/src/grpc/headers.rs:13-13 | trimming is exactly the removal of the blanks on both sides |
| `Headers.VaryIgnoresOrderAndCopies` | grcache-proxy/src/grpc/headers.rs:8-15 | the set depends only on which decodable lines are present |
| `Headers.VaryMergesLines` | grcache-proxy/src/grpc/headers.rs:8-15 | two lines and their comma-joined merge give the same set (sections 5.3 and 12.5.5 of RFC 9110) |
| `Headers.MembersOfLine` | grcache-proxy/src/grpc/headers.rs:8-15 | a line of comma-free members contributes exactly its trimmed members |
| `Headers.BareMembersOfLine` | grcache-proxy/src/grpc/headers.rs:8-15 | a line whose members have no blank at either end contributes exactly its members |
| `Headers.EveryLineIsMembers` | grcache-proxy/src/grpc/headers.rs:8-15 | every decodable line is such a line |
| `Headers.VaryIgnoresMemberOrder` | grcache-proxy/src/grpc/headers.rs:8-15 | reordering and repeating the members of a line changes nothing |
| `Headers.VaryIgnoresPadding` | grcache-proxy/src/grpc/headers.rs:8-15 | blanks around any member of a line, the first, last and only one included, change nothing |
| `Headers.FindStripHeaders` | grcache-proxy/src/grpc/headers.rs:26-59 | exactly the headers that are none of the five core names, not in the vary set and not propagated |
| `Headers.Session.StripHeaders` | grcache-proxy/src/proxy/mod.rs:240-248 | removing them one by one leaves exactly the headers to keep, unchanged |
| `CacheKey.HashEntry` | grcache-proxy/src/grpc/hash.rs:14-26 | one vary entry's name, joined value and terminators are appended |
| `CacheKey.HashVary` | grcache-proxy/src/grpc/hash.rs:10-28 | the loop appends exactly the entries of the vary set in order |
| `CacheKey.HashBody` | grcache-proxy/src/grpc/hash.rs:30-41 | path and body are appended, each behind its length |
| `LittleEndian.U64Small` | grcache-proxy/src/grpc/hash.rs:30-41 | a length below 2^16 has its low byte first, then its high byte, then zeros |
| `CacheKey.ComputeKeyInput` | grcache-proxy/src/proxy/mod.rs:240-302 | stripping, then hashing, yields the key input of the request |
| `CacheKey.FrameDecodes` | grcache-proxy/src/grpc/hash.rs:10-41 | unique decodability, also between frames with different numbers of entries |
| `CacheKey.EntryIsNotBody` | grcache-proxy/src/grpc/hash.rs:10-41 | no frame with an entry left equals one without: the ambiguity that order and path bound exclude |
| `CacheKey.InVaryOf` | grcache-proxy/src/grpc/headers.rs:8-15 | a name is in the vary set exactly when it stands, up to blanks, between commas of a visible-ASCII `vary` line of the request |
| `CacheKey.ValueInKey` | grcache-proxy/src/grpc/headers.rs:35-59 | the value a vary name brings into the key is the request's own, unless its lower-case form is neither core nor in the vary set |
| `CacheKey.CapitalVaryIsLost` | grcache-proxy/src/grpc/headers.rs:46-56 | a family of requests for which that happens: `vary` on a name with a capital letter strips that header |
| `CacheKey.SameKeyInputIff` | grcache-proxy/src/proxy/mod.rs:289-302 | equal key inputs exactly for equal path, body, vary set and joined forwarded value per vary name |
| `CacheKey.SameKeySameForwardedHeaders` | grcache-proxy/src/grpc/headers.rs:26-59 | requests with equal key inputs are forwarded with equal headers, the five core ones aside, up to line joining and absent versus empty, and agree on their own value of each vary name |
| `CacheData.DecodeEncode` | grcache-proxy/src/cache/redis_replicas.rs:134-141 | decoding an encoded value restores it whatever follows |
| `CacheData.EncodeLayout` | grcache-proxy/src/cache/redis_replicas.rs:134-141 | where version byte, lengths, metadata parts and body stand |
| `CacheData.DecodeExact` | grcache-proxy/src/cache/redis_replicas.rs:209-232 | the decoder accepts exactly encodings followed by anything |
| `PoolReconciler.ParkedMeansReconciled` | grcache-proxy/src/cache/redis_replicas.rs:317-361 | parked with the current version seen means the pools are those of the set published last, with coalesced and mid-pass updates |
| `PoolReconciler.ParkedOrCanWake` | grcache-proxy/src/cache/redis_replicas.rs:327-330 | a parked service whose pools differ from the set published last has a wake-up pending |
| `PoolReconciler.OnePassSuffices` | grcache-proxy/src/cache/redis_replicas.rs:327-361 | if nothing is published after a wake-up, the service parks with the pools of the published set and stays parked |
| `PoolReconciler.PoolKept` | grcache-proxy/src/cache/redis_replicas.rs:332-359 | a pool is never rebuilt while its backend stays in every observed set |
| `PoolReconciler.PoolsDistinct` | grcache-proxy/src/cache/redis_replicas.rs:340-359 | no two backends ever share a pool |
| `PoolReconciler.RedisPools.Reconcile` | grcache-proxy/src/cache/redis_replicas.rs:330-360 | one pass gives exactly the pools of the set, keeps surviving ones and builds the rest anew |
| `ShardedCache.PoolIsUsable` | grcache-proxy/src/cache/redis_replicas.rs:288-312 | for a balancer that picks from what the filter accepts, a pool is found exactly when a healthy ring member has one, and it is such a member's |
| `ShardedCache.RedisCacheMiss.WriteBody` | grcache-proxy/src/cache/redis_replicas.rs:108-111 | the buffer is the in-order concatenation of the chunks |
| `ShardedCache.RedisCacheMiss.Serialize` | grcache-proxy/src/cache/redis_replicas.rs:134-141 | the bytes sent decode to the metadata and the concatenated chunks |
| `ShardedCache.WriterIsItsActions` | grcache-proxy/src/cache/redis_replicas.rs:108-141 | in every run a handler holds the hash and metadata it was opened with, the chunks written to it since in order, and the pool last found for that hash |
| `ShardedCache.FinishConsumes` | grcache-proxy/src/cache/redis_replicas.rs:113-146 | `finish` consumes its handler |
| `ShardedCache.LookupIsMissOrFinished` | grcache-proxy/src/cache/redis_replicas.rs:167-233 | neither a reader on any backend nor a lookup gets anything but a miss or what a finished write of a handler opened for the hash stored |
| `ShardedCache.ReadsLatest` | grcache-proxy/src/cache/redis_replicas.rs:113-233 | over every run a reader on a backend gets exactly the last write of the hash that took effect there and was not lost, with the opening metadata and written chunks read off the run's actions, and otherwise a miss |
| `ShardedCache.LookupExact` | grcache-proxy/src/cache/redis_replicas.rs:167-233 | the same for a lookup, which asks the pool that the membership in force gives the hash and misses without one |
| `ShardedCache.LookupReturnsLatestWrite` | grcache-proxy/src/cache/redis_replicas.rs:113-312 | a lookup sent to the backend of a write returns it unless it was lost or overwritten there; with fixed membership the lookup is sent there |

## Left out

- The endless loops themselves (`K8SConfigService::start`, `dns_discovery_loop`, `Service::start` of discovery and of the pools): they never terminate, so their bodies are steps on values; scheduling fairness is not modelled.
- The final `CacheKey`: `cache_key_callback` builds a key from the digest and returns `CacheKey::default(req_header)` instead (grcache-proxy/src/proxy/mod.rs:310-312), so the claims end at the bytes fed to the hasher.
- Blake2b, protobuf reflection, `ServiceSpec::build` and descriptor loading: `ServiceSpec::build` is a free constructor and loading is a step that succeeds or fails.
- `CacheMeta` encoding, freshness and the pingora callbacks that pingora gives meaning to: they are not part of this model.
- Weak memory effects of `Relaxed` atomics.
- Case of vary names and empty members: the code keeps both as they are sent, and the model follows it (`CacheKey.ValueInKey` says what that does to the key).
- The branch of `request_filter` that decides whether a method is cacheable, the CLI, configuration, tracing and the unfinished local cache: they hold no protocol or encoding whose correctness needs more than reading them.
- Registering the response's own `Vary` header: the code does not look at it.

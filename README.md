# Self-scaling worker pool: the bookkeeping core

This project models, in Dafny, the sequential bookkeeping under a self-scaling goroutine worker pool
written in Go. The pool keeps a registry of live workers. It spawns `MinWorkers` long-lived workers when
it is created. A controller loop then reacts to two things: a periodic tick that may spawn short-lived
workers when the work queue is under pressure, and the id of a worker that timed out, which it evicts
from the registry. The package holds two generations of this code, and both are modelled:

- `requirements.go` and `public_api.go` (the current generation), in modules `PoolRequirements` and
  `PublicApi`: the four-field `Requirements` record and its default, the four-field normalisation
  `makeRequirementsReasonable`, `New`, and one step of the controller loop `workerPoolGoroutine`.
- `workerPool.go` (the older generation), in module `LegacyPool`: the three-field record, the two-field
  normalisation, `addWorkers(n)` and `New`.
- Module `Registry` stands for the external keyed cache that holds the workers. It is a `map` from
  worker id to worker record, with `Add` (which overwrites), `Remove` and the count `|m|`.

The form follows the Go code. `makeRequirementsReasonable` changes the record behind a pointer, so the
pointer is a class `RequirementsRef` and the method updates it in place. The package-level
`defaultRequirements` is such a record too. It is passed to `New` as `defaults`, so `New(nil)`
normalises the shared default in place, as the Go code does. Each pool is a class: the requirements and
the queue capacities are `const` fields, and the registry and the id counter are `var` fields. The
methods `AddWorkers`, `Tick` and `Evict` update those fields. Each method is proved against a pure
function of the pool state (`AddWorkersSpec`, `TickSpec`, `EvictSpec` over `PoolState`). The lemmas
about those functions carry the properties: the ceiling `Count <= MaxWorkers` holds over any run of the
controller, and the floor `Count >= MinWorkers` holds as long as only scale-up workers time out.

Assumptions the model makes explicit:

- **Worker ids.** The visible `newWorker` (worker.go:28-35) sets no id. Its signature does not match the
  three-argument call in workerPool.go:51 either, so the real constructor is not part of this model. The
  model gives each pool an id counter `nextId`, starting at 1 and increasing by one per worker. Every
  registered id is below it (`WellFormed`). With duplicate ids, `Add` would overwrite an entry and the
  counts proved here would not hold. `Registry.AddCount` states what an overwrite does to the count.
- **The two-argument `addWorkers(n, timeout)`.** public_api.go calls it (lines 35 and 81), but no source
  file defines it. It is modelled as the one-argument loop of workerPool.go:49-55, with the time-out
  recorded on every new worker.
- **Time-outs.** The 8760-hour and 500-millisecond time-outs are integer tags in milliseconds
  (`LongTimeout`, `ShortTimeout`) on worker records. They carry no time semantics. The floor lemmas take
  as a hypothesis (`OnlyScaleUpRetires`) that a long-lived worker never reports a time-out.
- **Queue length.** A tick reads the length of the work channel. That length always lies between 0 and
  the channel's capacity `WorkBucketSize`, so `WorkerPool.Tick` requires `0 <= queueLen <= incomingCapacity`.
- **Normalisation defaults.** The current `makeRequirementsReasonable` reads its replacement values from
  the mutable package-level `defaultRequirements` (public_api.go:49, 57). The model uses the constant
  `Default`. The two agree because the only write to the shared default is its own normalisation, and
  `Default` is a fixed point of that (`DefaultIsFixedPoint`). `PublicApi.WorkerPool.New` therefore
  requires the shared record to hold `Default` and proves that it still does afterwards.

## Model

| member | source | states |
|---|---|---|
| Registry.Add | workerPool.go:53 | the cache's Add stores the value under the id, overwrites any entry already under that id and leaves every other entry as it was |
| Registry.AddCount | workerPool.go:53 | Add grows the count by one for a new id and leaves it unchanged when the id is already held (an overwrite) |
| Registry.Remove | public_api.go:39 | the cache's Remove drops exactly the id, keeps every other entry, lowers the count by one if the id was held and changes nothing otherwise |
| Registry.IdsCount | workerPool.go:49-55 | a range of n consecutive ids holds exactly max(0, n) ids |
| Registry.AddFreshCount | workerPool.go:49-55 | registering entries under ids the registry does not hold grows its count by exactly their number and keeps every existing entry |
| PoolRequirements.DefaultIsReasonable | requirements.go:5-10 | the defaults are MinWorkers 1, MaxWorkers 1, WorkBucketSize 10 and WorkerSpawnMultiplier 1, and they satisfy every floor and the ordering |
| PublicApi.Normalize | public_api.go:47-63 | the normalised record satisfies MinWorkers >= 1, MaxWorkers >= MinWorkers, WorkBucketSize >= 1 and WorkerSpawnMultiplier >= 1 |
| PublicApi.NormalizeFields | public_api.go:48-62 | a field at or above its floor is kept; below it, MinWorkers becomes 1, WorkBucketSize 10 and WorkerSpawnMultiplier 1; MaxWorkers changes if and only if it is below the corrected MinWorkers, and then it becomes exactly MinWorkers |
| PublicApi.NormalizeFixesExactlyReasonable | public_api.go:47-63 | normalisation leaves a record unchanged if and only if the record already satisfies every floor and the ordering |
| PublicApi.NormalizeIdempotent | public_api.go:47-63 | normalising a normalised record changes nothing |
| PublicApi.DefaultIsFixedPoint | public_api.go:67-71 | the shared default is a fixed point of normalisation, so New(nil) leaves it as it was |
| PublicApi.MakeRequirementsReasonable | public_api.go:47-63 | the record behind the pointer is replaced in place by its normalisation |
| PublicApi.AddWorkersEffect | public_api.go:81 | on a well-formed pool, addWorkers(n, timeout) registers exactly max(0, n) new workers, each with that time-out, keeps every existing entry and leaves the pool well-formed |
| PublicApi.TickWithoutPressure | public_api.go:23-26 | a tick whose queue length is at most MinWorkers leaves the pool unchanged |
| PublicApi.TickUnderPressure | public_api.go:28-35 | a tick under pressure adds exactly max(0, min(WorkerSpawnMultiplier, MaxWorkers - Count)) new workers, all with the 500 ms time-out, and keeps every existing entry |
| PublicApi.TickKeepsCeiling | public_api.go:28-35 | if Count <= MaxWorkers before a tick, it still holds after it, and the pool stays well-formed |
| PublicApi.TickAtCeiling | public_api.go:28-35 | a pool already at or above MaxWorkers spawns nothing on a tick, whatever the queue length |
| PublicApi.SmallBucketNeverScales | public_api.go:23-26 | since the queue holds at most WorkBucketSize items, a pool whose WorkBucketSize is at most MinWorkers never scales up |
| PublicApi.EvictEffect | public_api.go:38-39 | eviction removes exactly key id, leaves every other entry unchanged, lowers the count by one only if the id was registered, and keeps the pool well-formed |
| PublicApi.EvictIdempotent | public_api.go:38-39 | evicting the same id twice has the same effect as evicting it once |
| PublicApi.InitialStateEffect | public_api.go:73-81 | a new pool holds exactly MinWorkers workers, with ids 1 to MinWorkers, all with the 8760 h time-out |
| PublicApi.StepKeepsCeiling | public_api.go:19-41 | one pass of the controller loop (a tick or an eviction) keeps the pool well-formed, keeps its requirements and keeps Count <= MaxWorkers |
| PublicApi.RunKeepsCeiling | public_api.go:19-42 | over any sequence of ticks and evictions, a pool at or under MaxWorkers stays at or under it |
| PublicApi.StepKeepsFloor | public_api.go:19-41 | a tick, or an eviction of a worker that is not long-lived, keeps the set of long-lived workers as it was |
| PublicApi.RunKeepsFloor | public_api.go:19-42 | when only scale-up workers time out, every long-lived worker stays registered and the count never falls below their number |
| PublicApi.PoolStaysWithinBounds | public_api.go:66-85 | from New onwards, when only scale-up workers time out, MinWorkers <= Count <= MaxWorkers after any run of the controller |
| PublicApi.PoolSettlesToMinWorkers | public_api.go:35-39 | once every scale-up worker has timed out and been evicted, the pool holds exactly MinWorkers workers |
| PublicApi.WorkerPool.New | public_api.go:66-85 | New normalises the caller's record (or the shared default when given nil) in place, leaves the shared default at its default values, copies the record, makes the work queue WorkBucketSize long and the timed-out queue MaxWorkers long, and registers MinWorkers long-lived workers |
| PublicApi.WorkerPool.AddWorkers | workerPool.go:49-55 | the counting loop `for i := 0; i < n; i++` runs max(0, n) times (none for n <= 0) and leaves the pool in the state AddWorkersSpec describes: one new worker under a fresh id per iteration, the id counter advanced by max(0, n) |
| PublicApi.WorkerPool.Tick | public_api.go:22-35 | a tick moves the pool to TickSpec of its old state and keeps Count <= MaxWorkers |
| PublicApi.WorkerPool.Evict | public_api.go:38-39 | the eviction moves the pool to EvictSpec of its old state and keeps the pool within its ceiling |
| LegacyPool.NormalizeV1 | workerPool.go:60-68 | the older normalisation yields 1 <= MinWorkers <= MaxWorkers and never changes WorkBucketSize, so a 0 stays 0 |
| LegacyPool.NormalizeV1Fields | workerPool.go:61-67 | MinWorkers below 1 is reset to 1 and kept otherwise; MaxWorkers changes if and only if it is below the corrected MinWorkers, and then it becomes exactly MinWorkers |
| LegacyPool.NormalizeV1FixesExactlyOrdered | workerPool.go:60-68 | the older normalisation leaves a record unchanged if and only if 1 <= MinWorkers <= MaxWorkers |
| LegacyPool.NormalizeV1Idempotent | workerPool.go:60-68 | normalising twice with the older rule is normalising once |
| LegacyPool.DefaultV1IsFixedPoint | workerPool.go:7-10 | the older default (1, 1, with a zero work bucket) is a fixed point of the older normalisation |
| LegacyPool.GenerationsAgreeOnBounds | workerPool.go:60-68 | the two normalisations give the same MinWorkers and MaxWorkers; their WorkBucketSize agrees if and only if it was already at least 1 |
| LegacyPool.MakeRequirementsReasonableV1 | workerPool.go:60-68 | the record behind the pointer is replaced in place by its older normalisation |
| LegacyPool.AddWorkersV1Effect | workerPool.go:49-55 | with fresh ids, addWorkers(n) grows the registry by exactly max(0, n) entries, all under new ids, and keeps every existing entry |
| LegacyPool.WorkerPoolV1.AddWorkers | workerPool.go:49-55 | the loop `for i := 0; i < n; i++` runs max(0, n) times, registering one worker per iteration under a fresh id, so the id counter and the count both grow by exactly max(0, n) and existing entries are kept |
| LegacyPool.WorkerPoolV1.New | workerPool.go:71-88 | the older New normalises the caller's record (or the shared default when given nil) in place, stores the copy, uses an unbuffered work channel and registers exactly MinWorkers workers |

## Left out

- Goroutines, channels, `select` and `time.After` (public_api.go:11-44, 83). The controller is modelled
  as one deterministic step per call (`Tick` or `Evict`). A run is a sequence of such steps in any
  order, so fairness between the two `select` cases and actual blocking are not modelled.
- The `wp == nil` guard of `workerPoolGoroutine` (public_api.go:12-14): a nil pool cannot arise in the model.
- The internals of the cache library behind the registry. It is a map with add, remove and count.
- Worker execution, idle timers, direct dispatch, work handlers, `AddWork` and `WorkHandler`. worker.go
  does not compile and the run loop is not part of the source files.
- The older pool's `out` and `terminateAllWorkers` channels (workerPool.go:40-43). They are created and
  never used.
- HiringManager.go, an older stub in another package that only copies the record and makes channels.
- The tests and benchmarks. workerPool_test.go only checks that `New` returns a non-nil pool; the
  benchmark checks nothing and calls `AddWork` and `WorkHandler`, which are not part of the source files.
- JSON and BSON struct tags.
- Go's 64-bit `int`. The model uses unbounded integers, so the id counter never wraps. The only
  arithmetic in the controller, `MaxWorkers - Count()` and the loop counter, stays between 0 and
  MaxWorkers on a pool within its ceiling, so it cannot overflow.
- PublicApi.WorkerPool.New: does not model the run-time failures of very large requirements. Go panics
  ("makechan: size out of range") when `make` is asked for a channel of WorkBucketSize or MaxWorkers
  elements beyond the allocation limit (public_api.go:75-76), and `addWorkers` runs out of memory for a
  huge MinWorkers (public_api.go:81). The model's constructor succeeds for every record.
- LegacyPool.WorkerPoolV1.New: does not model running out of memory when `addWorkers` is asked for a
  huge MinWorkers (workerPool.go:86). The model's constructor succeeds for every record.
- PublicApi.WorkerPool.Tick: requires `0 <= queueLen <= incomingCapacity`. The Go code reads the length
  of the work channel, which is never outside that range. The functions and lemmas about ticks take any
  integer.

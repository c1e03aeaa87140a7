/** The current version of the pool: normalisation of its requirements, construction, and one step of
    the controller loop, which either reacts to a tick by spawning workers or evicts a worker that
    reported its own time-out. */
module PublicApi {
  import opened PoolRequirements
  import opened Registry

  /** Idle time-outs, carried as tags in milliseconds: 8760 hours for the workers spawned at
      construction, 500 milliseconds for those spawned under load. */
  const LongTimeout: int := 8760 * 60 * 60 * 1000
  const ShortTimeout: int := 500

  /** The part of a worker the pool's bookkeeping sees: its id and its idle time-out. */
  datatype WorkerRec = WorkerRec(id: int, idleTimeout: int)

  // ---------------------------------------------------------------------------------------------
  // Normalisation of the requirements

  /** The record that `makeRequirementsReasonable` leaves behind. The ceiling is compared with the
      floor as already corrected. */
  function Normalize(r: Requirements): (n: Requirements)
    ensures Reasonable(n)
  {
    var minWorkers := if r.minWorkers < 1 then Default.minWorkers else r.minWorkers;
    var maxWorkers := if r.maxWorkers < minWorkers then minWorkers else r.maxWorkers;
    var workBucketSize := if r.workBucketSize < 1 then Default.workBucketSize else r.workBucketSize;
    var spawnMultiplier := if r.workerSpawnMultiplier < 1 then 1 else r.workerSpawnMultiplier;
    Requirements(minWorkers, maxWorkers, workBucketSize, spawnMultiplier)
  }

  /** Each field already at or above its floor is kept. A field below its floor takes the documented
      value: minWorkers 1, workBucketSize 10, workerSpawnMultiplier 1. maxWorkers changes only when it
      is below the corrected minWorkers, and then becomes exactly that. */
  lemma NormalizeFields(r: Requirements)
    ensures Normalize(r).minWorkers == if r.minWorkers >= 1 then r.minWorkers else 1
    ensures Normalize(r).maxWorkers != r.maxWorkers <==> r.maxWorkers < Normalize(r).minWorkers
    ensures Normalize(r).maxWorkers != r.maxWorkers ==> Normalize(r).maxWorkers == Normalize(r).minWorkers
    ensures Normalize(r).workBucketSize == if r.workBucketSize >= 1 then r.workBucketSize else 10
    ensures Normalize(r).workerSpawnMultiplier == if r.workerSpawnMultiplier >= 1 then r.workerSpawnMultiplier else 1
  {
  }

  /** The records that normalisation leaves unchanged are exactly the reasonable ones. */
  lemma NormalizeFixesExactlyReasonable(r: Requirements)
    ensures Normalize(r) == r <==> Reasonable(r)
  {
  }

  /** Normalising twice is normalising once. */
  lemma NormalizeIdempotent(r: Requirements)
    ensures Normalize(Normalize(r)) == Normalize(r)
  {
  }

  /** The shared default is a fixed point, so creating a pool without requirements leaves it as it was. */
  lemma DefaultIsFixedPoint()
    ensures Normalize(Default) == Default
  {
  }

  /** `makeRequirementsReasonable(r)`: corrects the record behind the pointer in place, field by field. */
  method MakeRequirementsReasonable(r: RequirementsRef)
    modifies r
    ensures r.value == Normalize(old(r.value))
  {
    if r.value.minWorkers < 1 {
      r.value := r.value.(minWorkers := Default.minWorkers);
    }
    if r.value.maxWorkers < r.value.minWorkers {
      r.value := r.value.(maxWorkers := r.value.minWorkers);
    }
    if r.value.workBucketSize < 1 {
      r.value := r.value.(workBucketSize := Default.workBucketSize);
    }
    if r.value.workerSpawnMultiplier < 1 {
      r.value := r.value.(workerSpawnMultiplier := 1);
    }
  }

  // ---------------------------------------------------------------------------------------------
  // The pool's bookkeeping as a value

  /** The requirements, the registry and the next worker id to issue. */
  datatype PoolState = PoolState(requirements: Requirements, workers: map<int, WorkerRec>, nextId: int)

  function Count(s: PoolState): nat
  {
    |s.workers|
  }

  /** Requirements are normalised, each entry is keyed by its own worker's id, and every id in the
      registry was issued before `nextId`, so the ids still to be issued are fresh. */
  predicate WellFormed(s: PoolState)
  {
    && Reasonable(s.requirements)
    && 1 <= s.nextId
    && forall id :: id in s.workers ==> s.workers[id].id == id && 1 <= id < s.nextId
  }

  /** The workers spawned by `addWorkers(n, timeout)` when the next id to issue is `first`. */
  function Spawned(first: int, n: int, timeout: int): (m: map<int, WorkerRec>)
    ensures m.Keys == Ids(first, n)
    ensures forall id :: id in m ==> m[id] == WorkerRec(id, timeout)
  {
    map id | id in Ids(first, n) :: WorkerRec(id, timeout)
  }

  /** The bookkeeping after `addWorkers(n, timeout)`. */
  function AddWorkersSpec(s: PoolState, n: int, timeout: int): PoolState
  {
    s.(workers := s.workers + Spawned(s.nextId, n, timeout), nextId := s.nextId + Iterations(n))
  }

  /** `addWorkers(n, timeout)` on a well-formed pool registers exactly n new workers (none when n <= 0),
      each with the given time-out, keeps every entry it had, and stays well-formed. */
  lemma AddWorkersEffect(s: PoolState, n: int, timeout: int)
    requires WellFormed(s)
    ensures var t := AddWorkersSpec(s, n, timeout);
      && WellFormed(t)
      && t.requirements == s.requirements
      && Count(t) == Count(s) + Iterations(n)
      && (forall id :: id in s.workers ==> id in t.workers && t.workers[id] == s.workers[id])
      && (forall id :: id in t.workers && id !in s.workers ==> t.workers[id].idleTimeout == timeout)
  {
    var added := Spawned(s.nextId, n, timeout);
    IdsMembers(s.nextId, n);
    IdsCount(s.nextId, n);
    AddFreshCount(s.workers, added);
  }

  /** One more iteration of `addWorkers` registers one more worker under the next id. */
  lemma AddWorkersSpecStep(m: map<int, WorkerRec>, first: int, i: nat, timeout: int)
    ensures m + Spawned(first, i + 1, timeout)
         == (m + Spawned(first, i, timeout))[first + i := WorkerRec(first + i, timeout)]
  {
  }

  /** The number of workers a tick asks `addWorkers` for: the spawn multiplier, cut down to the room
      left under the ceiling (zero or negative when there is none). */
  function SpawnRequest(s: PoolState): int
  {
    var remainingPoolCapacity := s.requirements.maxWorkers - Count(s);
    if s.requirements.workerSpawnMultiplier > remainingPoolCapacity then remainingPoolCapacity
    else s.requirements.workerSpawnMultiplier
  }

  /** One tick of the controller with `queueLen` items waiting: nothing happens unless the queue holds
      more items than minWorkers; otherwise `SpawnRequest` short-lived workers are added. */
  function TickSpec(s: PoolState, queueLen: int): PoolState
  {
    if queueLen <= s.requirements.minWorkers then s
    else AddWorkersSpec(s, SpawnRequest(s), ShortTimeout)
  }

  /** The controller evicting the worker that reported `id` as timed out. */
  function EvictSpec(s: PoolState, id: int): PoolState
  {
    s.(workers := Remove(s.workers, id))
  }

  /** A tick without pressure leaves the pool as it was. */
  lemma TickWithoutPressure(s: PoolState, queueLen: int)
    requires queueLen <= s.requirements.minWorkers
    ensures TickSpec(s, queueLen) == s
  {
  }

  /** A tick under pressure adds exactly max(0, min(workerSpawnMultiplier, maxWorkers - Count)) new
      workers, all with the short time-out, and keeps every existing entry. */
  lemma TickUnderPressure(s: PoolState, queueLen: int)
    requires WellFormed(s)
    requires queueLen > s.requirements.minWorkers
    ensures var t := TickSpec(s, queueLen);
      var room := s.requirements.maxWorkers - Count(s);
      && WellFormed(t)
      && Count(t) == Count(s) + Iterations(if s.requirements.workerSpawnMultiplier < room
                                           then s.requirements.workerSpawnMultiplier else room)
      && (forall id :: id in s.workers ==> id in t.workers && t.workers[id] == s.workers[id])
      && (forall id :: id in t.workers && id !in s.workers ==> t.workers[id].idleTimeout == ShortTimeout)
  {
    AddWorkersEffect(s, SpawnRequest(s), ShortTimeout);
  }

  /** A tick never takes the pool past maxWorkers. */
  lemma TickKeepsCeiling(s: PoolState, queueLen: int)
    requires WellFormed(s)
    requires Count(s) <= s.requirements.maxWorkers
    ensures WellFormed(TickSpec(s, queueLen))
    ensures Count(TickSpec(s, queueLen)) <= s.requirements.maxWorkers
  {
    if queueLen > s.requirements.minWorkers {
      TickUnderPressure(s, queueLen);
    }
  }

  /** A pool already at (or above) maxWorkers spawns nothing, whatever the queue length. */
  lemma TickAtCeiling(s: PoolState, queueLen: int)
    requires Count(s) >= s.requirements.maxWorkers
    ensures TickSpec(s, queueLen) == s
  {
  }

  /** Eviction removes exactly the entry under `id`, leaves every other entry as it was, and keeps the
      pool well-formed and under its ceiling. */
  lemma EvictEffect(s: PoolState, id: int)
    requires WellFormed(s)
    ensures var t := EvictSpec(s, id);
      && WellFormed(t)
      && id !in t.workers
      && (forall k :: k != id ==> (k in t.workers <==> k in s.workers))
      && (forall k :: k in t.workers ==> t.workers[k] == s.workers[k])
      && Count(t) == if id in s.workers then Count(s) - 1 else Count(s)
  {
  }

  /** Evicting the same id twice has the effect of evicting it once. */
  lemma EvictIdempotent(s: PoolState, id: int)
    ensures EvictSpec(EvictSpec(s, id), id) == EvictSpec(s, id)
  {
  }

  // ---------------------------------------------------------------------------------------------
  // Construction and runs of the controller

  /** The bookkeeping right after `New`, given the normalised requirements. */
  function InitialState(r: Requirements): PoolState
  {
    AddWorkersSpec(PoolState(r, map[], 1), r.minWorkers, LongTimeout)
  }

  /** Ids of the workers spawned at construction, the ones with the long time-out. */
  function FloorIds(s: PoolState): set<int>
  {
    set id | id in s.workers && s.workers[id].idleTimeout == LongTimeout
  }

  /** A new pool holds exactly minWorkers workers, all with the long time-out, with ids 1..minWorkers. */
  lemma InitialStateEffect(r: Requirements)
    requires Reasonable(r)
    ensures var s := InitialState(r);
      && WellFormed(s)
      && s.requirements == r
      && Count(s) == r.minWorkers
      && (forall id :: id in s.workers <==> 1 <= id <= r.minWorkers)
      && (forall id :: id in s.workers ==> s.workers[id].idleTimeout == LongTimeout)
      && FloorIds(s) == s.workers.Keys
  {
    AddWorkersEffect(PoolState(r, map[], 1), r.minWorkers, LongTimeout);
    IdsMembers(1, r.minWorkers);
  }

  /** What reaches the controller loop: a tick that finds `queueLen` items queued, or the id of a worker
      that timed out. */
  datatype Event = TickFired(queueLen: int) | WorkerTimedOut(id: int)

  function Step(s: PoolState, e: Event): PoolState
  {
    match e
    case TickFired(queueLen) => TickSpec(s, queueLen)
    case WorkerTimedOut(id) => EvictSpec(s, id)
  }

  /** The controller handling `events` in order. */
  function Run(s: PoolState, events: seq<Event>): PoolState
    decreases |events|
  {
    if events == [] then s else Run(Step(s, events[0]), events[1..])
  }

  /** One step keeps a pool well-formed, at or under its ceiling, and with the same requirements. */
  lemma StepKeepsCeiling(s: PoolState, e: Event)
    requires WellFormed(s)
    requires Count(s) <= s.requirements.maxWorkers
    ensures WellFormed(Step(s, e))
    ensures Step(s, e).requirements == s.requirements
    ensures Count(Step(s, e)) <= s.requirements.maxWorkers
  {
    match e
    case TickFired(queueLen) => TickKeepsCeiling(s, queueLen);
    case WorkerTimedOut(id) => EvictEffect(s, id);
  }

  /** Whatever the controller handles, a pool at or under its ceiling stays at or under it. */
  lemma {:induction false} RunKeepsCeiling(s: PoolState, events: seq<Event>)
    requires WellFormed(s)
    requires Count(s) <= s.requirements.maxWorkers
    ensures WellFormed(Run(s, events))
    ensures Run(s, events).requirements == s.requirements
    ensures Count(Run(s, events)) <= s.requirements.maxWorkers
    decreases |events|
  {
    if events != [] {
      var t := Step(s, events[0]);
      StepKeepsCeiling(s, events[0]);
      RunKeepsCeiling(t, events[1..]);
    }
  }

  /** Only scale-up workers time out: every eviction names a worker with the short time-out, or an id
      no longer registered. */
  predicate OnlyScaleUpRetires(s: PoolState, events: seq<Event>)
    decreases |events|
  {
    events != [] ==>
      && (events[0].WorkerTimedOut? && events[0].id in s.workers ==>
            s.workers[events[0].id].idleTimeout != LongTimeout)
      && OnlyScaleUpRetires(Step(s, events[0]), events[1..])
  }

  /** A step that retires no long-lived worker keeps the pool well-formed and keeps the set of
      long-lived workers as it was. */
  lemma StepKeepsFloor(s: PoolState, e: Event)
    requires WellFormed(s)
    requires e.WorkerTimedOut? && e.id in s.workers ==> s.workers[e.id].idleTimeout != LongTimeout
    ensures WellFormed(Step(s, e))
    ensures FloorIds(Step(s, e)) == FloorIds(s)
  {
    match e
    case TickFired(queueLen) =>
      if queueLen > s.requirements.minWorkers {
        TickUnderPressure(s, queueLen);
      }
    case WorkerTimedOut(id) => EvictEffect(s, id);
  }

  /** When only scale-up workers retire, the long-lived workers all stay registered, so the pool never
      falls below their number. */
  lemma {:induction false} RunKeepsFloor(s: PoolState, events: seq<Event>)
    requires WellFormed(s)
    requires OnlyScaleUpRetires(s, events)
    ensures FloorIds(Run(s, events)) == FloorIds(s)
    ensures Count(Run(s, events)) >= |FloorIds(s)|
    decreases |events|
  {
    if events == [] {
      var rest := s.workers.Keys - FloorIds(s);
      assert s.workers.Keys == FloorIds(s) + rest;
    } else {
      var t := Step(s, events[0]);
      StepKeepsFloor(s, events[0]);
      RunKeepsFloor(t, events[1..]);
    }
  }

  /** From construction on, as long as only scale-up workers time out, the pool holds between
      minWorkers and maxWorkers workers. */
  lemma {:induction false} PoolStaysWithinBounds(r: Requirements, events: seq<Event>)
    requires Reasonable(r)
    requires OnlyScaleUpRetires(InitialState(r), events)
    ensures r.minWorkers <= Count(Run(InitialState(r), events)) <= r.maxWorkers
  {
    InitialStateEffect(r);
    RunKeepsCeiling(InitialState(r), events);
    RunKeepsFloor(InitialState(r), events);
  }

  /** Once every scale-up worker has timed out and been evicted, the pool is back to exactly
      minWorkers workers. */
  lemma {:induction false} PoolSettlesToMinWorkers(r: Requirements, events: seq<Event>)
    requires Reasonable(r)
    requires OnlyScaleUpRetires(InitialState(r), events)
    requires var t := Run(InitialState(r), events);
      forall id :: id in t.workers ==> t.workers[id].idleTimeout == LongTimeout
    ensures Count(Run(InitialState(r), events)) == r.minWorkers
  {
    var s := InitialState(r);
    var t := Run(s, events);
    InitialStateEffect(r);
    RunKeepsFloor(s, events);
    assert t.workers.Keys == FloorIds(t) by {
      forall id | id in t.workers
        ensures id in FloorIds(t)
      {
      }
    }
    calc {
      Count(t);
      |t.workers.Keys|;
      |FloorIds(s)|;
      |s.workers.Keys|;
      Count(s);
    }
  }

  /** The queue never holds more than workBucketSize items, so a pool whose bucket is no larger than
      minWorkers never scales up. */
  lemma SmallBucketNeverScales(s: PoolState, queueLen: int)
    requires s.requirements.workBucketSize <= s.requirements.minWorkers
    requires 0 <= queueLen <= s.requirements.workBucketSize
    ensures TickSpec(s, queueLen) == s
  {
  }

  // ---------------------------------------------------------------------------------------------
  // The pool itself

  /** A worker pool. Its requirements and queue capacities are fixed when it is created; the registry
      and the id counter change as the controller spawns and evicts workers. */
  class WorkerPool {
    const requirements: Requirements
    const incomingCapacity: int   // capacity of the work queue
    const timedOutCapacity: int   // capacity of the queue of timed-out worker ids
    var workers: map<int, WorkerRec>
    var nextId: int

    function State(): PoolState
      reads this
    {
      PoolState(requirements, workers, nextId)
    }

    ghost predicate Valid()
      reads this
    {
      && WellFormed(State())
      && Count(State()) <= requirements.maxWorkers
      && incomingCapacity == requirements.workBucketSize
      && timedOutCapacity == requirements.maxWorkers
    }

    /** `New(r)`: normalises the record behind `r`, or the shared default when `r` is nil, in place;
        copies it into the pool, sizes the two queues from it and spawns minWorkers long-lived workers. */
    constructor New(r: RequirementsRef?, defaults: RequirementsRef)
      requires defaults.value == Default
      modifies r, defaults
      ensures Valid()
      ensures defaults.value == Default
      ensures r != null ==> r.value == Normalize(old(r.value)) && requirements == r.value
      ensures r != null && r != defaults ==> defaults.value == old(defaults.value)
      ensures r == null ==> defaults.value == Normalize(old(defaults.value)) && requirements == defaults.value
      ensures incomingCapacity == requirements.workBucketSize
      ensures timedOutCapacity == requirements.maxWorkers
      ensures State() == InitialState(requirements)
    {
      var target := if r == null then defaults else r;
      MakeRequirementsReasonable(target);
      requirements := target.value;
      incomingCapacity := target.value.workBucketSize;
      timedOutCapacity := target.value.maxWorkers;
      workers := map[];
      nextId := 1;
      new;
      AddWorkers(requirements.minWorkers, LongTimeout);
      InitialStateEffect(requirements);
      DefaultIsFixedPoint();
    }

    /** `addWorkers(n, timeout)`: one new worker per iteration, registered under a fresh id. */
    method AddWorkers(n: int, timeout: int)
      requires WellFormed(State())
      modifies this
      ensures State() == AddWorkersSpec(old(State()), n, timeout)
    {
      ghost var first := nextId;
      assert Spawned(first, 0, timeout).Keys == {};
      assert workers == old(workers) + Spawned(first, 0, timeout);
      var i := 0;
      while i < n
        invariant 0 <= i <= Iterations(n)
        invariant nextId == first + i
        invariant workers == old(workers) + Spawned(first, i, timeout)
      {
        var w := WorkerRec(nextId, timeout);
        AddWorkersSpecStep(old(workers), first, i, timeout);
        nextId := nextId + 1;
        workers := Add(workers, w.id, w);
        i := i + 1;
      }
    }

    /** A tick of the controller that finds `queueLen` items queued. */
    method Tick(queueLen: int)
      requires Valid()
      requires 0 <= queueLen <= incomingCapacity
      modifies this
      ensures Valid()
      ensures State() == TickSpec(old(State()), queueLen)
    {
      if queueLen <= requirements.minWorkers {
        return;
      }
      var remainingPoolCapacity := requirements.maxWorkers - |workers|;
      var n := requirements.workerSpawnMultiplier;
      if n > remainingPoolCapacity {
        n := remainingPoolCapacity;
      }
      AddWorkers(n, ShortTimeout);
      TickKeepsCeiling(old(State()), queueLen);
    }

    /** The controller receiving `id` from a worker that timed out. */
    method Evict(id: int)
      requires Valid()
      modifies this
      ensures Valid()
      ensures State() == EvictSpec(old(State()), id)
    {
      workers := Remove(workers, id);
      EvictEffect(old(State()), id);
    }
  }
}

/** The older generation of the pool, kept in the same package: a three-field record, a normalisation
    of the two bounds only, `addWorkers(n)` without idle time-outs, and no controller. */
module LegacyPool {
  import opened Registry
  import PoolRequirements
  import PublicApi

  /** The older `Requirements` record: no spawn multiplier. */
  datatype RequirementsV1 = RequirementsV1(minWorkers: int, maxWorkers: int, workBucketSize: int)

  /** The older `defaultRequirements`: the work bucket keeps Go's zero value. */
  const DefaultV1: RequirementsV1 := RequirementsV1(1, 1, 0)

  /** A `*Requirements` of the older generation, updated in place by normalisation. */
  class RequirementsV1Ref {
    var value: RequirementsV1

    constructor (value: RequirementsV1)
      ensures this.value == value
    {
      this.value := value;
    }
  }

  /** The record that the older `makeRequirementsReasonable` leaves behind. */
  function NormalizeV1(r: RequirementsV1): (n: RequirementsV1)
    ensures 1 <= n.minWorkers <= n.maxWorkers
    ensures n.workBucketSize == r.workBucketSize
  {
    var minWorkers := if r.minWorkers < 1 then 1 else r.minWorkers;
    var maxWorkers := if r.maxWorkers < minWorkers then minWorkers else r.maxWorkers;
    RequirementsV1(minWorkers, maxWorkers, r.workBucketSize)
  }

  /** minWorkers below 1 becomes 1 and is kept otherwise; maxWorkers changes exactly when it is below
      the corrected minWorkers, and then becomes exactly that. */
  lemma NormalizeV1Fields(r: RequirementsV1)
    ensures NormalizeV1(r).minWorkers == if r.minWorkers < 1 then 1 else r.minWorkers
    ensures NormalizeV1(r).maxWorkers != r.maxWorkers <==> r.maxWorkers < NormalizeV1(r).minWorkers
    ensures NormalizeV1(r).maxWorkers != r.maxWorkers ==> NormalizeV1(r).maxWorkers == NormalizeV1(r).minWorkers
  {
  }

  /** The older normalisation leaves a record unchanged exactly when 1 <= minWorkers <= maxWorkers,
      whatever its work bucket holds. */
  lemma NormalizeV1FixesExactlyOrdered(r: RequirementsV1)
    ensures NormalizeV1(r) == r <==> 1 <= r.minWorkers <= r.maxWorkers
  {
  }

  /** Normalising twice is normalising once. */
  lemma NormalizeV1Idempotent(r: RequirementsV1)
    ensures NormalizeV1(NormalizeV1(r)) == NormalizeV1(r)
  {
  }

  /** The older default is a fixed point, zero work bucket included. */
  lemma DefaultV1IsFixedPoint()
    ensures NormalizeV1(DefaultV1) == DefaultV1
    ensures NormalizeV1(DefaultV1).workBucketSize == 0
  {
  }

  /** The two generations agree on the bounds; they differ on the work bucket, which only the newer
      one raises to 10 when it is below 1. */
  lemma GenerationsAgreeOnBounds(r: RequirementsV1, spawnMultiplier: int)
    ensures var n := PublicApi.Normalize(PoolRequirements.Requirements(
                       r.minWorkers, r.maxWorkers, r.workBucketSize, spawnMultiplier));
      && n.minWorkers == NormalizeV1(r).minWorkers
      && n.maxWorkers == NormalizeV1(r).maxWorkers
      && (n.workBucketSize == NormalizeV1(r).workBucketSize <==> r.workBucketSize >= 1)
  {
  }

  /** The older `makeRequirementsReasonable(r)`: corrects the two bounds behind the pointer in place. */
  method MakeRequirementsReasonableV1(r: RequirementsV1Ref)
    modifies r
    ensures r.value == NormalizeV1(old(r.value))
  {
    if r.value.minWorkers < 1 {
      r.value := r.value.(minWorkers := 1);
    }
    if r.value.maxWorkers < r.value.minWorkers {
      r.value := r.value.(maxWorkers := r.value.minWorkers);
    }
  }

  /** The part of an older worker the pool's bookkeeping sees: its id. */
  datatype WorkerV1 = WorkerV1(id: int)

  /** The workers spawned by `addWorkers(n)` when the next id to issue is `first`. */
  function SpawnedV1(first: int, n: int): (m: map<int, WorkerV1>)
    ensures m.Keys == Ids(first, n)
    ensures forall id :: id in m ==> m[id] == WorkerV1(id)
  {
    map id | id in Ids(first, n) :: WorkerV1(id)
  }

  /** One more iteration of `addWorkers` registers one more worker under the next id. */
  lemma SpawnedV1Step(m: map<int, WorkerV1>, first: int, i: nat)
    ensures m + SpawnedV1(first, i + 1) == (m + SpawnedV1(first, i))[first + i := WorkerV1(first + i)]
  {
  }

  /** With ids issued above every registered one, `addWorkers(n)` grows the registry by exactly n
      entries (none when n <= 0), all new, and keeps every entry it held. */
  lemma AddWorkersV1Effect(m: map<int, WorkerV1>, first: int, n: int)
    requires forall id :: id in m ==> id < first
    ensures |m + SpawnedV1(first, n)| == |m| + Iterations(n)
    ensures forall id :: id in m ==> id in m + SpawnedV1(first, n) && (m + SpawnedV1(first, n))[id] == m[id]
    ensures forall id :: id in m + SpawnedV1(first, n) && id !in m ==> first <= id < first + n
  {
    IdsMembers(first, n);
    IdsCount(first, n);
    AddFreshCount(m, SpawnedV1(first, n));
  }

  /** An older worker pool: the normalised copy of the requirements, an unbuffered work channel and
      the registry of workers. */
  class WorkerPoolV1 {
    const requirements: RequirementsV1
    const incomingCapacity: int   // `make(chan TWork)`: unbuffered, whatever workBucketSize says
    var workers: map<int, WorkerV1>
    var nextId: int

    ghost predicate Valid()
      reads this
    {
      && 1 <= requirements.minWorkers <= requirements.maxWorkers
      && incomingCapacity == 0
      && 1 <= nextId
      && forall id :: id in workers ==> workers[id].id == id && 1 <= id < nextId
    }

    /** The older `New(r)`: normalises the record behind `r`, or the shared default when `r` is nil,
        in place, stores a copy and registers minWorkers workers. */
    constructor New(r: RequirementsV1Ref?, defaults: RequirementsV1Ref)
      modifies r, defaults
      ensures Valid()
      ensures r != null ==> r.value == NormalizeV1(old(r.value)) && requirements == r.value
      ensures r != null && r != defaults ==> defaults.value == old(defaults.value)
      ensures r == null ==> defaults.value == NormalizeV1(old(defaults.value)) && requirements == defaults.value
      ensures workers == SpawnedV1(1, requirements.minWorkers)
      ensures |workers| == requirements.minWorkers
    {
      var target := if r == null then defaults else r;
      MakeRequirementsReasonableV1(target);
      requirements := target.value;
      incomingCapacity := 0;
      workers := map[];
      nextId := 1;
      new;
      AddWorkers(requirements.minWorkers);
      assert map[] + SpawnedV1(1, requirements.minWorkers) == SpawnedV1(1, requirements.minWorkers);
    }

    /** `addWorkers(n)`: one new worker per iteration, registered under a fresh id. */
    method AddWorkers(n: int)
      requires Valid()
      modifies this
      ensures Valid()
      ensures workers == old(workers) + SpawnedV1(old(nextId), n)
      ensures nextId == old(nextId) + Iterations(n)
      ensures |workers| == |old(workers)| + Iterations(n)
    {
      ghost var first := nextId;
      assert SpawnedV1(first, 0).Keys == {};
      assert workers == old(workers) + SpawnedV1(first, 0);
      var i := 0;
      while i < n
        invariant 0 <= i <= Iterations(n)
        invariant nextId == first + i
        invariant workers == old(workers) + SpawnedV1(first, i)
      {
        SpawnedV1Step(old(workers), first, i);
        var w := WorkerV1(nextId);
        nextId := nextId + 1;
        workers := Add(workers, w.id, w);
        i := i + 1;
      }
      assert Ids(first, i) == Ids(first, n);
      assert SpawnedV1(first, i) == SpawnedV1(first, n);
      AddWorkersV1Effect(old(workers), first, n);
    }
  }
}

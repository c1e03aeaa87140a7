/** The `Requirements` record of the current version of the pool and its default value. */
module PoolRequirements {

  /** The scaling policy of a pool. Every field is a Go `int`; the documented contracts of the fields are
      collected in `Reasonable`. */
  datatype Requirements = Requirements(
    minWorkers: int,            // workers the pool always keeps; below 1 it is brought to 1
    maxWorkers: int,            // ceiling for scale-up; below minWorkers it is brought to minWorkers
    workBucketSize: int,        // capacity of the work queue before submission blocks
    workerSpawnMultiplier: int  // workers added per detected shortage, up to the maxWorkers ceiling
  )

  /** The package-level `defaultRequirements`, used when a pool is created without requirements. */
  const Default: Requirements := Requirements(1, 1, 10, 1)

  /** The floors and the ordering that every normalised record satisfies. */
  predicate Reasonable(r: Requirements)
  {
    && 1 <= r.minWorkers <= r.maxWorkers
    && 1 <= r.workBucketSize
    && 1 <= r.workerSpawnMultiplier
  }

  /** The default values already satisfy every floor. */
  lemma DefaultIsReasonable()
    ensures Reasonable(Default)
    ensures Default.minWorkers == 1 && Default.maxWorkers == 1
    ensures Default.workBucketSize == 10 && Default.workerSpawnMultiplier == 1
  {
  }

  /** A `*Requirements`: a record that its owner shares by pointer, so that normalisation updates it in
      place. The package-level default is one such record. */
  class RequirementsRef {
    var value: Requirements

    constructor (value: Requirements)
      ensures this.value == value
    {
      this.value := value;
    }
  }
}

/** The worker registry. The pool keeps its live workers in an external keyed cache that it uses only
    through Add, Remove and Count; here that cache is a map from worker id to worker record. This module
    also describes the ranges of ids that the pool hands out when it spawns workers. */
module Registry {

  /** Number of iterations of the Go loop `for i := 0; i < n; i++`: none when n <= 0. */
  function Iterations(n: int): nat
  {
    if n < 0 then 0 else n
  }

  /** `Add(id, v)`: stores `v` under `id`, overwriting an entry already held under that id. */
  function Add<V>(m: map<int, V>, id: int, v: V): (r: map<int, V>)
    ensures r.Keys == m.Keys + {id} && r[id] == v
    ensures forall k :: k in m && k != id ==> r[k] == m[k]
  {
    m[id := v]
  }

  /** Adding under a new id grows the count by one; adding under an id already held overwrites that
      entry and leaves the count as it was. */
  lemma AddCount<V>(m: map<int, V>, id: int, v: V)
    ensures |Add(m, id, v)| == if id in m then |m| else |m| + 1
  {
  }

  /** `Remove(id)`: drops the entry under `id`; removing an absent id changes nothing. */
  function Remove<V>(m: map<int, V>, id: int): (r: map<int, V>)
    ensures r.Keys == m.Keys - {id}
    ensures forall k :: k in r ==> r[k] == m[k]
    ensures |r| == if id in m then |m| - 1 else |m|
  {
    m - {id}
  }

  /** The ids `first`, `first + 1`, ..., `first + n - 1` (none when n <= 0). */
  function Ids(first: int, n: int): set<int>
    decreases n
  {
    if n <= 0 then {} else Ids(first, n - 1) + {first + n - 1}
  }

  /** An id belongs to the range exactly when it lies between its bounds. */
  lemma {:induction false} IdsMembers(first: int, n: int)
    ensures forall id :: id in Ids(first, n) <==> first <= id < first + n
  {
    if n > 0 {
      IdsMembers(first, n - 1);
    }
  }

  /** A range of n ids holds exactly n ids, and none when n <= 0. */
  lemma {:induction false} IdsCount(first: int, n: int)
    ensures |Ids(first, n)| == Iterations(n)
  {
    if n > 0 {
      IdsCount(first, n - 1);
      IdsMembers(first, n - 1);
      assert first + n - 1 !in Ids(first, n - 1);
    }
  }

  /** Adding entries under keys the registry does not hold yet grows its count by exactly the number of
      entries added, and keeps every entry it held. */
  lemma AddFreshCount<V>(m: map<int, V>, added: map<int, V>)
    requires m.Keys !! added.Keys
    ensures |m + added| == |m| + |added|
    ensures forall k :: k in m ==> k in m + added && (m + added)[k] == m[k]
  {
  }
}

/**
 * The create-once pool (syncutil/pool.go): values are built by a factory
 * on first request for their key and kept until deleted.  Calls are taken
 * one at a time; the locks only order them.
 */
module SyncPool {
  import opened Wrappers

  /**
   * The pool's contents and the keys the factory has been called for, in
   * call order.
   */
  datatype PoolState<K, V> = PoolState(m: map<K, V>, calls: seq<K>)

  /**
   * The factory: its answer for a key may depend on how many calls came
   * before, so that a rebuilt value may differ from the deleted one.
   */
  type Factory<!K, V, E> = (nat, K) -> Result<V, E>

  /** `Pool.Get` on a state: the new state and the value or the error. */
  function GetStep<K, V, E>(s: PoolState<K, V>, factory: Factory<K, V, E>, key: K): (PoolState<K, V>, Result<V, E>) {
    if key in s.m then (s, Ok(s.m[key]))
    else
      var r := factory(|s.calls|, key);
      var calls := s.calls + [key];
      match r
      case Ok(v) => (PoolState(s.m[key := v], calls), r)
      case Err(_) => (PoolState(s.m, calls), r)
  }

  /** `Pool.Delete` on a state. */
  function DeleteStep<K, V>(s: PoolState<K, V>, key: K): PoolState<K, V> {
    PoolState(s.m - {key}, s.calls)
  }

  /** Every stored value is what the factory answered for its key at some earlier call. */
  ghost predicate Built<K, V, E>(s: PoolState<K, V>, factory: Factory<K, V, E>) {
    forall k :: k in s.m ==> exists n :: 0 <= n < |s.calls| && s.calls[n] == k && factory(n, k) == Ok(s.m[k])
  }

  class Pool<K(==), V, E> {
    var m: map<K, V>
    var calls: seq<K>
    const factory: Factory<K, V, E>

    function State(): PoolState<K, V>
      reads this
    {
      PoolState(m, calls)
    }

    /** `NewPool`: an empty pool around the factory. */
    constructor (factory: Factory<K, V, E>)
      ensures State() == PoolState(map[], []) && this.factory == factory
    {
      m := map[];
      calls := [];
      this.factory := factory;
    }

    /**
     * `Pool.Get`: a stored value is returned as it is; otherwise the factory
     * is called once, and its value is stored and returned, or its error
     * returned with nothing stored.
     */
    method Get(key: K) returns (r: Result<V, E>)
      modifies this
      ensures (State(), r) == GetStep(old(State()), factory, key)
    {
      if key in m {
        return Ok(m[key]);
      }
      r := factory(|calls|, key);
      calls := calls + [key];
      if r.Err? {
        return;
      }
      m := m[key := r.value];
    }

    /** `Pool.Delete`: forget the key's value. */
    method Delete(key: K)
      modifies this
      ensures State() == DeleteStep(old(State()), key)
    {
      m := m - {key};
    }
  }

  // ---------------------------------------------------------------- properties

  /** A present key is answered from the pool without calling the factory. */
  lemma PresentKeyNoCall<K, V, E>(s: PoolState<K, V>, factory: Factory<K, V, E>, key: K)
    requires key in s.m
    ensures GetStep(s, factory, key) == (s, Ok(s.m[key]))
  {
  }

  /**
   * An absent key calls the factory exactly once; its value is stored
   * beside the others and returned, while an error is returned and nothing
   * is stored.
   */
  lemma AbsentKeyCallsOnce<K, V, E>(s: PoolState<K, V>, factory: Factory<K, V, E>, key: K)
    requires key !in s.m
    ensures var (t, r) := GetStep(s, factory, key);
      t.calls == s.calls + [key]
      && r == factory(|s.calls|, key)
      && (r.Ok? ==> t.m.Keys == s.m.Keys + {key} && t.m[key] == r.value
                    && forall k :: k in s.m ==> t.m[k] == s.m[k])
      && (r.Err? ==> t.m == s.m)
  {
  }

  /** A successful `Get` makes the next `Get` of that key return the same value without a call. */
  lemma GetTwiceSame<K, V, E>(s: PoolState<K, V>, factory: Factory<K, V, E>, key: K)
    requires GetStep(s, factory, key).1.Ok?
    ensures var (t, r) := GetStep(s, factory, key);
      GetStep(t, factory, key) == (t, r)
  {
  }

  /** `Delete` removes that key only, and the next `Get` of it calls the factory again. */
  lemma DeleteThenGetRebuilds<K, V, E>(s: PoolState<K, V>, factory: Factory<K, V, E>, key: K)
    ensures var d := DeleteStep(s, key);
      key !in d.m && (forall k :: k != key ==> (k in d.m <==> k in s.m))
      && (forall k :: k in d.m ==> d.m[k] == s.m[k])
      && GetStep(d, factory, key).0.calls == s.calls + [key]
      && GetStep(d, factory, key).1 == factory(|s.calls|, key)
  {
  }

  /** `Get` keeps every stored value one the factory built for its key. */
  lemma GetKeepsBuilt<K, V, E>(s: PoolState<K, V>, factory: Factory<K, V, E>, key: K)
    requires Built(s, factory)
    ensures Built(GetStep(s, factory, key).0, factory)
  {
    var t := GetStep(s, factory, key).0;
    forall k | k in t.m
      ensures exists n :: 0 <= n < |t.calls| && t.calls[n] == k && factory(n, k) == Ok(t.m[k])
    {
      if key !in s.m && k == key {
        var n := |s.calls|;
        assert t.calls[n] == key;
      } else {
        var n :| 0 <= n < |s.calls| && s.calls[n] == k && factory(n, k) == Ok(s.m[k]);
        assert t.calls[n] == k;
      }
    }
  }

  /** `Delete` keeps every stored value one the factory built for its key. */
  lemma DeleteKeepsBuilt<K, V, E>(s: PoolState<K, V>, factory: Factory<K, V, E>, key: K)
    requires Built(s, factory)
    ensures Built(DeleteStep(s, key), factory)
  {
  }
}

/**
 * Shared and exclusive locks by key: flock files here, sync.Mutex and sync.RWMutex there. A table holds
 * the locks that are taken; processes are numbers.
 */
module Locks {
  datatype Lock =
    | Shared(holders: set<nat>)
    | Exclusive(holder: nat)

  type LockTable<!K> = map<K, Lock>

  predicate CanLock<K>(t: LockTable<K>, k: K, exclusive: bool) {
    k !in t || (!exclusive && t[k].Shared?)
  }

  function Locked<K>(t: LockTable<K>, k: K, p: nat, exclusive: bool): LockTable<K>
    requires CanLock(t, k, exclusive)
  {
    if exclusive then t[k := Exclusive(p)]
    else t[k := Shared((if k in t then t[k].holders else {}) + {p})]
  }

  /** Releasing what one does not hold changes nothing. */
  function Unlocked<K>(t: LockTable<K>, k: K, p: nat): LockTable<K> {
    if k !in t then t
    else match t[k]
      case Exclusive(q) => if q == p then t - {k} else t
      case Shared(ps) => if ps - {p} == {} then t - {k} else t[k := Shared(ps - {p})]
  }

  /** What one process holds. */
  datatype Held<!K> = Held(exclusive: set<K>, shared: set<K>)

  function Nothing<K>(): Held<K> {
    Held({}, {})
  }

  /** The table says of every lock exactly who holds it and how. */
  ghost predicate Accurate<K(!new)>(t: LockTable<K>, held: map<nat, Held<K>>) {
    && (forall k | k in t && t[k].Exclusive? :: t[k].holder in held && k in held[t[k].holder].exclusive)
    && (forall k | k in t && t[k].Shared? :: t[k].holders != {})
    && (forall k, p | k in t && t[k].Shared? && p in t[k].holders :: p in held && k in held[p].shared)
    && (forall p, k | p in held && k in held[p].exclusive :: k in t && t[k] == Exclusive(p))
    && (forall p, k | p in held && k in held[p].shared :: k in t && t[k].Shared? && p in t[k].holders)
  }

  function Acquired<K>(h: Held<K>, k: K, exclusive: bool): Held<K> {
    if exclusive then h.(exclusive := h.exclusive + {k}) else h.(shared := h.shared + {k})
  }

  function Released<K>(h: Held<K>, k: K): Held<K> {
    Held(h.exclusive - {k}, h.shared - {k})
  }

  predicate Holds<K>(h: Held<K>, k: K) {
    k in h.exclusive || k in h.shared
  }

  lemma LockFits<K(!new)>(t: LockTable<K>, held: map<nat, Held<K>>, k: K, p: nat, exclusive: bool)
    requires Accurate(t, held) && CanLock(t, k, exclusive) && p in held && !Holds(held[p], k)
    ensures Accurate(Locked(t, k, p, exclusive), held[p := Acquired(held[p], k, exclusive)])
  {}

  lemma UnlockFits<K(!new)>(t: LockTable<K>, held: map<nat, Held<K>>, k: K, p: nat)
    requires Accurate(t, held) && p in held && Holds(held[p], k)
    ensures Accurate(Unlocked(t, k, p), held[p := Released(held[p], k)])
  {
    if t[k].Shared? {
      var rest := t[k].holders - {p};
      assert rest == {} ==> forall q | q in t[k].holders :: q == p by {
        forall q | q in t[k].holders && rest == {} ensures q == p {
          assert q in rest || q == p;
        }
      }
    }
  }

  /** One writer or only readers. */
  lemma WriterIsAlone<K(!new)>(t: LockTable<K>, held: map<nat, Held<K>>, p: nat, q: nat, k: K)
    requires Accurate(t, held) && p in held && q in held && k in held[p].exclusive && Holds(held[q], k)
    ensures p == q
  {
    assert t[k] == Exclusive(p);
    if k in held[q].exclusive {
      assert t[k] == Exclusive(q);
    }
  }

  /** A lock that is taken keeps others waiting for a process that holds it. */
  lemma SomeoneHolds<K(!new)>(t: LockTable<K>, held: map<nat, Held<K>>, k: K) returns (p: nat)
    requires Accurate(t, held) && k in t
    ensures p in held && Holds(held[p], k)
  {
    if t[k].Shared? {
      p :| p in t[k].holders;
    } else {
      p := t[k].holder;
    }
  }

  lemma AllFree<K(!new)>(t: LockTable<K>, held: map<nat, Held<K>>)
    requires Accurate(t, held) && forall p | p in held :: held[p] == Nothing<K>()
    ensures t == map[]
  {
    if k :| k in t {
      var p := SomeoneHolds(t, held, k);
    }
  }

  lemma LockThenUnlock<K>(t: LockTable<K>, k: K, p: nat, exclusive: bool)
    requires CanLock(t, k, exclusive) && (k in t ==> p !in t[k].holders && t[k].holders != {})
    ensures Unlocked(Locked(t, k, p, exclusive), k, p) == t
  {
    if k in t {
      assert t[k].holders + {p} - {p} == t[k].holders;
    }
  }
}

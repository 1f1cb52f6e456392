/** Small shared vocabulary: optional values and walks over a map's keys. */
module Common {

  datatype Option<+T> = None | Some(value: T)

  /** How writing a file turns out; without a path it is skipped, and that is no error. */
  datatype Write = Done | Failed | Skipped

  /** The largest value of Go's 64-bit `int`. */
  const MAX_INT: int := 0x7FFF_FFFF_FFFF_FFFF

  /** `order` visits every key of `keys` exactly once, in some order: what ranging over a Go map does. */
  predicate Walks<T(==)>(order: seq<T>, keys: set<T>) {
    && (forall i, j | 0 <= i < j < |order| :: order[i] != order[j])
    && (forall k <- order :: k in keys)
    && (forall k <- keys :: k in order)
  }

  /** The first `n` keys of a walk. */
  function Firsts<T>(order: seq<T>, n: nat): set<T>
    requires n <= |order|
  {
    set k | k in order[..n]
  }

  lemma FirstsGrow<T>(order: seq<T>, keys: set<T>, i: nat)
    requires Walks(order, keys) && i < |order|
    ensures order[i] !in Firsts(order, i) && Firsts(order, i + 1) == Firsts(order, i) + {order[i]}
  {
    assert order[..i + 1] == order[..i] + [order[i]];
  }

  lemma AllFirsts<T>(order: seq<T>, keys: set<T>)
    requires Walks(order, keys)
    ensures Firsts(order, |order|) == keys
  {
    assert order[..|order|] == order;
  }

  lemma WalkOn<T>(order: seq<T>, done: set<T>, k: T)
    requires Walks(order, done) && k !in done
    ensures Walks(order + [k], done + {k})
  {
  }

  /** The keys of a map in the order in which ranging over it happens to yield them. */
  method AnyOrder<T(==)>(keys: set<T>) returns (order: seq<T>)
    ensures Walks(order, keys) && |order| == |keys|
  {
    var todo, done := keys, {};
    order := [];
    while todo != {}
      invariant todo !! done && todo + done == keys
      invariant Walks(order, done) && |order| == |done|
      decreases todo
    {
      var k :| k in todo;
      WalkOn(order, done, k);
      order, todo, done := order + [k], todo - {k}, done + {k};
    }
    assert done == keys;
  }

  predicate Injective<K(==), V(==)>(m: map<K, V>) {
    forall j, k | j in m && k in m && m[j] == m[k] :: j == k
  }
}

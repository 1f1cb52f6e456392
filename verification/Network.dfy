/** Listeners and channels as ledgers: everything that was ever opened, and how often each was closed. */
module Network {
  import opened Common

  /** Handles `0..next` have been created; `closed` counts the close calls on each. */
  datatype Ledger = Ledger(next: nat, closed: multiset<nat>)

  const EMPTY_LEDGER := Ledger(0, multiset{})

  function Create(l: Ledger): Ledger {
    l.(next := l.next + 1)
  }

  function Release(l: Ledger, h: nat): Ledger {
    l.(closed := l.closed + multiset{h})
  }

  /** Everything created is either in `held` and never closed, or was closed exactly once. */
  ghost predicate Balanced(l: Ledger, held: set<nat>) {
    && (forall h <- held :: h < l.next)
    && (forall h: nat :: l.closed[h] == if h < l.next && h !in held then 1 else 0)
  }

  lemma CreateBalanced(l: Ledger, held: set<nat>)
    requires Balanced(l, held)
    ensures l.next !in held && Balanced(Create(l), held + {l.next})
  {
  }

  lemma ReleaseBalanced(l: Ledger, held: set<nat>, h: nat)
    requires Balanced(l, held)
    ensures Balanced(Release(l, h), held - {h}) <==> h in held
  {
    if Balanced(Release(l, h), held - {h}) {
      assert Release(l, h).closed[h] == l.closed[h] + 1;
    }
  }

  function ReleaseAll(l: Ledger, hs: set<nat>): Ledger {
    l.(closed := l.closed + multiset(hs))
  }

  lemma ReleaseOneMore(l: Ledger, hs: set<nat>, h: nat)
    requires h !in hs
    ensures Release(ReleaseAll(l, hs), h) == ReleaseAll(l, hs + {h})
  {
    assert l.closed + multiset(hs) + multiset{h} == l.closed + multiset(hs + {h});
  }

  type Addr = string

  /** A host's TCP listeners: the open ones with the address each is bound to. */
  datatype Net = Net(ledger: Ledger, bound: map<nat, Addr>)

  const EMPTY_NET := Net(EMPTY_LEDGER, map[])

  /**
   * Whether a listen request succeeds. `answer` is what the host would grant: an address, or a refusal.
   * An address that an open listener already holds is never granted again.
   */
  predicate Accepts(n: Net, answer: Option<Addr>) {
    answer.Some? && answer.value !in n.bound.Values
  }

  /** A granted listen request; the new handle is `n.ledger.next`. */
  function Open(n: Net, addr: Addr): Net {
    Net(Create(n.ledger), n.bound[n.ledger.next := addr])
  }

  function Close(n: Net, h: nat): Net {
    Net(Release(n.ledger, h), n.bound - {h})
  }

  /** Exactly the handles of `held` are open, on distinct addresses, and every other one was closed once. */
  ghost predicate Holds(n: Net, held: set<nat>) {
    && n.bound.Keys == held
    && Balanced(n.ledger, held)
    && Injective(n.bound)
  }

  lemma OpenHolds(n: Net, held: set<nat>, answer: Option<Addr>)
    requires Holds(n, held) && Accepts(n, answer)
    ensures n.ledger.next !in held
    ensures Holds(Open(n, answer.value), held + {n.ledger.next})
  {
    CreateBalanced(n.ledger, held);
    var m := Open(n, answer.value);
    forall j, k | j in m.bound && k in m.bound && m.bound[j] == m.bound[k]
      ensures j == k
    {
      assert j != n.ledger.next ==> n.bound[j] in n.bound.Values;
      assert k != n.ledger.next ==> n.bound[k] in n.bound.Values;
    }
  }

  lemma CloseHolds(n: Net, held: set<nat>, h: nat)
    requires Holds(n, held) && h in held
    ensures Holds(Close(n, h), held - {h})
  {
    ReleaseBalanced(n.ledger, held, h);
  }

  /** Closing each of `hs` once. */
  function CloseAll(n: Net, hs: set<nat>): Net {
    Net(ReleaseAll(n.ledger, hs), n.bound - hs)
  }

  lemma CloseAllHolds(n: Net, held: set<nat>, hs: set<nat>)
    requires Holds(n, held) && hs <= held
    ensures Holds(CloseAll(n, hs), held - hs)
  {
  }

  lemma CloseNone(n: Net)
    ensures CloseAll(n, {}) == n
  {
    assert n.bound - {} == n.bound;
  }

  lemma CloseOneMore(n: Net, hs: set<nat>, h: nat)
    requires h !in hs
    ensures Close(CloseAll(n, hs), h) == CloseAll(n, hs + {h})
  {
    ReleaseOneMore(n.ledger, hs, h);
    assert n.bound - hs - {h} == n.bound - (hs + {h});
  }

  // ---- Tables that own handles -------------------------------------------

  /** A table whose entries hold exactly the handles `held`, no handle under two keys. */
  ghost predicate Owns<K(!new)>(m: map<K, nat>, held: set<nat>) {
    && m.Values == held
    && Injective(m)
  }

  lemma OwnsInsert<K(!new)>(m: map<K, nat>, held: set<nat>, k: K, h: nat)
    requires Owns(m, held) && k !in m && h !in held
    ensures Owns(m[k := h], held + {h})
  {
    var m' := m[k := h];
    assert forall j :: j in m ==> m[j] in m.Values && m'[j] == m[j];
    assert m'[k] == h;
    forall v | v in held + {h} ensures v in m'.Values {
      if v != h {
        var j :| j in m && m[j] == v;
        assert m'[j] == v;
      }
    }
  }

  lemma OwnsRemove<K(!new)>(m: map<K, nat>, held: set<nat>, k: K)
    requires Owns(m, held) && k in m
    ensures Owns(m - {k}, held - {m[k]})
  {
    var m' := m - {k};
    assert forall j :: j in m' ==> m'[j] == m[j] && m[j] in m.Values;
    forall v | v in held - {m[k]} ensures v in m'.Values {
      var j :| j in m && m[j] == v;
      assert m'[j] == v;
    }
  }

  lemma OwnsRemoveAll<K(!new)>(m: map<K, nat>, held: set<nat>, ks: set<K>)
    requires Owns(m, held)
    ensures var hs := set k | k in ks && k in m :: m[k];
            hs <= held && Owns(m - ks, held - hs)
  {
    var m' := m - ks;
    var hs := set k | k in ks && k in m :: m[k];
    assert forall j :: j in m' ==> m'[j] == m[j] && m[j] in m.Values;
    forall v | v in held - hs ensures v in m'.Values {
      var j :| j in m && m[j] == v;
      assert m'[j] == v;
    }
  }
}

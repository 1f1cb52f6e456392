/** The reverse-forwarding SSH client (internal/ssh/client.go): wanted rules, open remote listeners, reconnecting. */
module SshClient {
  import opened Common
  import opened Network
  import opened Rules

  /** An open remote listener, its stop channel, and the rule its accept loop was started with. */
  datatype Entry = Entry(ln: nat, stop: nat, rule: ClientRule)

  /** `net` are the listeners the remote sshd holds for this client; `chans` counts the stop channels. */
  datatype State = State(pending: map<string, ClientRule>, lns: map<string, Entry>, up: bool, net: Net, chans: Ledger)

  const NEW_CLIENT := State(map[], map[], false, EMPTY_NET, EMPTY_LEDGER)

  /** The part of `m` at the IDs `ids`. */
  function ListenersAt(lns: map<string, Entry>, ids: set<string>): set<nat> {
    set id | id in ids && id in lns :: lns[id].ln
  }

  function StopsAt(lns: map<string, Entry>, ids: set<string>): set<nat> {
    set id | id in ids && id in lns :: lns[id].stop
  }

  // ---- Operations ----------------------------------------------------------

  function Opened(c: State, r: ClientRule, addr: Addr): State {
    c.(lns := c.lns[r.id := Entry(c.net.ledger.next, c.chans.next, r)],
       net := Open(c.net, addr), chans := Create(c.chans))
  }

  /** An ID that already has a listener is left alone. */
  function Subscribe(c: State, r: ClientRule, answer: Option<Addr>): State {
    if r.id in c.lns || !Accepts(c.net, answer) then c else Opened(c, r, answer.value)
  }

  function Add(c: State, r: ClientRule, answer: Option<Addr>): State {
    var c' := c.(pending := c.pending[r.id := r]);
    if c.up then Subscribe(c', r, answer) else c'
  }

  function Remove(c: State, id: string): State {
    var c' := c.(pending := c.pending - {id});
    if id in c.lns then
      c'.(lns := c.lns - {id}, net := Close(c.net, c.lns[id].ln), chans := Release(c.chans, c.lns[id].stop))
    else c'
  }

  /** Closes every listener together with its stop channel, and the connection. */
  function Shutdown(c: State): State {
    State(map[], map[], false, CloseAll(c.net, ListenersAt(c.lns, c.lns.Keys)),
          ReleaseAll(c.chans, StopsAt(c.lns, c.lns.Keys)))
  }

  /** Closes every listener, but no stop channel. */
  function Drain(c: State): State {
    c.(lns := map[], net := CloseAll(c.net, ListenersAt(c.lns, c.lns.Keys)))
  }

  function Granted(grants: map<string, Addr>, id: string): Option<Addr> {
    if id in grants then Some(grants[id]) else None
  }

  /** Subscribes the wanted rules in `order`; `grants` says at which address the sshd would open each, if at all. */
  function SubscribeAll(c: State, order: seq<string>, grants: map<string, Addr>): State
    requires forall id <- order :: id in c.pending
    decreases |order|
  {
    if order == [] then c
    else SubscribeAll(Subscribe(c, c.pending[order[0]], Granted(grants, order[0])), order[1..], grants)
  }

  /** A dial succeeded: stale listeners go, then everything wanted is subscribed. */
  function Connect(c: State, order: seq<string>, grants: map<string, Addr>): State
    requires Walks(order, c.pending.Keys)
  {
    SubscribeAll(Drain(c.(up := true)), order, grants)
  }

  /** The connection died. */
  function Drop(c: State): State {
    Drain(c).(up := false)
  }

  // ---- Invariant -----------------------------------------------------------

  function Handles(lns: map<string, Entry>): map<string, nat> {
    map id | id in lns :: lns[id].ln
  }

  ghost predicate ListenersInv(c: State) {
    Holds(c.net, c.net.bound.Keys) && Owns(Handles(c.lns), c.net.bound.Keys)
  }

  /** No stop channel was closed twice, and those of open listeners are distinct and not closed yet. */
  ghost predicate StopsInv(c: State) {
    && (forall h: nat :: c.chans.closed[h] <= if h < c.chans.next then 1 else 0)
    && (forall id <- c.lns.Keys :: c.lns[id].stop < c.chans.next && c.chans.closed[c.lns[id].stop] == 0)
    && (forall j, k | j in c.lns && k in c.lns && c.lns[j].stop == c.lns[k].stop :: j == k)
  }

  /** Open listeners serve exactly what is wanted under their ID; without a connection there are none. */
  ghost predicate RulesInv(c: State) {
    && (forall id <- c.pending.Keys :: c.pending[id].id == id)
    && (forall id <- c.lns.Keys :: id in c.pending && c.lns[id].rule == c.pending[id])
    && (!c.up ==> c.lns == map[])
  }

  ghost predicate Inv(c: State) {
    ListenersInv(c) && StopsInv(c) && RulesInv(c)
  }

  lemma OpenIsWanted(c: State)
    requires Inv(c)
    ensures c.lns.Keys <= c.pending.Keys
  {
  }

  lemma HandlesAll(lns: map<string, Entry>)
    ensures Handles(lns).Values == ListenersAt(lns, lns.Keys)
  {
    forall v | v in ListenersAt(lns, lns.Keys) ensures v in Handles(lns).Values {
      var id :| id in lns && lns[id].ln == v;
      assert Handles(lns)[id] == v;
    }
  }

  lemma OpenedKeepsListeners(c: State, r: ClientRule, addr: Addr)
    requires ListenersInv(c) && r.id !in c.lns && Accepts(c.net, Some(addr))
    ensures ListenersInv(Opened(c, r, addr))
  {
    var h, t := c.net.ledger.next, Opened(c, r, addr);
    OpenHolds(c.net, c.net.bound.Keys, Some(addr));
    OwnsInsert(Handles(c.lns), c.net.bound.Keys, r.id, h);
    assert Handles(t.lns) == Handles(c.lns)[r.id := h];
    assert t.net.bound.Keys == c.net.bound.Keys + {h};
  }

  lemma OpenedKeepsStops(c: State, r: ClientRule, addr: Addr)
    requires StopsInv(c) && r.id !in c.lns
    ensures StopsInv(Opened(c, r, addr))
  {
    assert c.chans.closed[c.chans.next] == 0;
  }

  lemma SubscribeKeepsInv(c: State, r: ClientRule, answer: Option<Addr>)
    requires Inv(c) && c.up && r.id in c.pending && c.pending[r.id] == r
    ensures Inv(Subscribe(c, r, answer)) && Subscribe(c, r, answer).pending == c.pending && Subscribe(c, r, answer).up
  {
    if r.id !in c.lns && Accepts(c.net, answer) {
      OpenedKeepsListeners(c, r, answer.value);
      OpenedKeepsStops(c, r, answer.value);
    }
  }

  /**
   * Adding a rule keeps the invariant exactly when its ID has no listener that serves another rule: `subscribe`
   * leaves an existing listener as it is, so an ID that is added again must have been removed first.
   */
  lemma AddKeepsInvIff(c: State, r: ClientRule, answer: Option<Addr>)
    requires Inv(c)
    ensures Inv(Add(c, r, answer)) <==> (r.id in c.lns ==> c.lns[r.id].rule == r)
  {
    var c' := c.(pending := c.pending[r.id := r]);
    if r.id in c.lns && c.lns[r.id].rule != r {
      assert c.up;
      assert r.id in Add(c, r, answer).lns;
    } else if c.up {
      assert Inv(c') by {
        assert c'.lns == c.lns;
      }
      SubscribeKeepsInv(c', r, answer);
    }
  }

  lemma RemoveKeepsListeners(c: State, id: string)
    requires ListenersInv(c) && id in c.lns
    ensures ListenersInv(Remove(c, id))
  {
    var t := Remove(c, id);
    assert Handles(c.lns)[id] in Handles(c.lns).Values;
    CloseHolds(c.net, c.net.bound.Keys, c.lns[id].ln);
    OwnsRemove(Handles(c.lns), c.net.bound.Keys, id);
    assert Handles(t.lns) == Handles(c.lns) - {id};
  }

  lemma RemoveKeepsStops(c: State, id: string)
    requires StopsInv(c)
    ensures StopsInv(Remove(c, id))
  {
  }

  lemma RemoveKeepsRules(c: State, id: string)
    requires RulesInv(c)
    ensures RulesInv(Remove(c, id))
  {
  }

  lemma RemoveKeepsInv(c: State, id: string)
    requires Inv(c)
    ensures Inv(Remove(c, id))
  {
    RemoveKeepsStops(c, id);
    RemoveKeepsRules(c, id);
    if id in c.lns {
      RemoveKeepsListeners(c, id);
    }
  }

  lemma DrainKeepsInv(c: State)
    requires ListenersInv(c) && StopsInv(c)
    ensures ListenersInv(Drain(c)) && StopsInv(Drain(c)) && Drain(c).net.bound == map[]
  {
    HandlesAll(c.lns);
    CloseAllHolds(c.net, c.net.bound.Keys, c.net.bound.Keys);
    assert Handles(map[]).Values == {};
  }

  lemma DropKeepsInv(c: State)
    requires Inv(c)
    ensures var t := Drop(c);
            Inv(t) && !t.up && t.pending == c.pending && t.lns == map[] && t.net.bound == map[] && t.chans == c.chans
  {
    DrainKeepsInv(c);
  }

  lemma ShutdownKeepsInv(c: State)
    requires Inv(c)
    ensures var t := Shutdown(c);
            && Inv(t) && !t.up && t.pending == map[] && t.lns == map[] && t.net.bound == map[]
            && forall id <- c.lns.Keys :: t.chans.closed[c.lns[id].stop] == 1
  {
    DrainKeepsInv(c);
    assert forall id <- c.lns.Keys :: c.lns[id].stop in StopsAt(c.lns, c.lns.Keys);
  }

  lemma {:induction false} SubscribeAllKeepsInv(c: State, order: seq<string>, grants: map<string, Addr>)
    requires Inv(c) && c.up && forall id <- order :: id in c.pending
    ensures var t := SubscribeAll(c, order, grants); Inv(t) && t.up && t.pending == c.pending
    decreases |order|
  {
    if order != [] {
      SubscribeKeepsInv(c, c.pending[order[0]], Granted(grants, order[0]));
      SubscribeAllKeepsInv(Subscribe(c, c.pending[order[0]], Granted(grants, order[0])), order[1..], grants);
    }
  }

  lemma ConnectKeepsInv(c: State, order: seq<string>, grants: map<string, Addr>)
    requires Inv(c) && Walks(order, c.pending.Keys)
    ensures var t := Connect(c, order, grants); Inv(t) && t.up && t.pending == c.pending
  {
    DrainKeepsInv(c.(up := true));
    SubscribeAllKeepsInv(Drain(c.(up := true)), order, grants);
  }

  // ---- What one call does --------------------------------------------------

  /** The listener under `k`, if there is one, is in `t` what it was in `c`. */
  ghost predicate SameAt(c: State, t: State, k: string) {
    && (k in t.lns <==> k in c.lns)
    && (k in c.lns ==> t.lns[k] == c.lns[k])
    && (k in c.lns && c.lns[k].ln in c.net.bound ==>
          c.lns[k].ln in t.net.bound && t.net.bound[c.lns[k].ln] == c.net.bound[c.lns[k].ln])
  }

  /** Rule `id` is served with these fields, at this address. */
  ghost predicate ServedAt(c: State, id: string, name: string, listen: string, target: string, addr: Addr) {
    && id in c.lns && c.lns[id].rule == ClientRule(id, name, listen, target)
    && c.lns[id].ln in c.net.bound && c.net.bound[c.lns[id].ln] == addr
  }

  /**
   * Adding a rule whose ID is not served takes effect at once if there is a connection: the ID has a listener exactly
   * if the sshd grants an address at which it has none open, and then it serves the rule there. Without a connection
   * nothing is opened. No other listener changes.
   */
  lemma AddOpensIff(c: State, r: ClientRule, answer: Option<Addr>)
    requires ListenersInv(c) && r.id !in c.lns
    ensures var t := Add(c, r, answer);
            && t.pending == c.pending[r.id := r] && t.up == c.up
            && (r.id in t.lns <==>
                  c.up && answer.Some? && forall h <- c.net.bound.Keys :: c.net.bound[h] != answer.value)
            && (r.id in t.lns ==> ServedAt(t, r.id, r.name, r.listen, r.target, answer.value))
            && (forall k | k != r.id :: SameAt(c, t, k))
            && (r.id !in t.lns ==> t.net == c.net && t.chans == c.chans)
  {
    assert c.net.ledger.next !in c.net.bound.Keys;
    assert answer.Some? ==>
      ((exists h :: h in c.net.bound && c.net.bound[h] == answer.value) <==> answer.value in c.net.bound.Values);
  }

  /** Removing a rule closes its listener and no other. */
  lemma RemoveClosesIts(c: State, id: string)
    requires ListenersInv(c)
    ensures var t := Remove(c, id);
            && t.pending == c.pending - {id} && t.up == c.up && id !in t.lns
            && (id in c.lns ==>
                  c.lns[id].ln !in t.net.bound && t.chans.closed[c.lns[id].stop] == c.chans.closed[c.lns[id].stop] + 1)
            && (forall k | k != id :: SameAt(c, t, k))
  {
    forall k | k != id ensures SameAt(c, Remove(c, id), k) {
      assert k in c.lns && id in c.lns ==> Handles(c.lns)[k] == c.lns[k].ln && Handles(c.lns)[id] == c.lns[id].ln;
    }
  }

  // ---- What every operation keeps, in whatever order they come -------------

  /** Listeners and stop channels are accounted for; this needs nothing of the callers. */
  ghost predicate Sound(c: State) {
    ListenersInv(c) && StopsInv(c)
  }

  lemma SubscribeKeepsSound(c: State, r: ClientRule, answer: Option<Addr>)
    requires Sound(c)
    ensures Sound(Subscribe(c, r, answer))
  {
    if r.id !in c.lns && Accepts(c.net, answer) {
      OpenedKeepsListeners(c, r, answer.value);
      OpenedKeepsStops(c, r, answer.value);
    }
  }

  lemma RemoveKeepsSound(c: State, id: string)
    requires Sound(c)
    ensures Sound(Remove(c, id))
  {
    RemoveKeepsStops(c, id);
    if id in c.lns {
      RemoveKeepsListeners(c, id);
    }
  }

  lemma DrainKeepsSound(c: State)
    requires Sound(c)
    ensures Sound(Drain(c)) && Sound(Drop(c))
  {
    DrainKeepsInv(c);
  }

  lemma ShutdownKeepsSound(c: State)
    requires Sound(c)
    ensures Sound(Shutdown(c))
  {
    DrainKeepsInv(c);
  }

  /** Entries own their listener and their stop channel alone, so they can be closed one after the other. */
  ghost predicate Separate(lns: map<string, Entry>) {
    forall j, k | j in lns && k in lns && (lns[j].ln == lns[k].ln || lns[j].stop == lns[k].stop) :: j == k
  }

  lemma InvSeparates(c: State)
    requires ListenersInv(c) && StopsInv(c)
    ensures Separate(c.lns)
  {
    assert forall id <- c.lns.Keys :: Handles(c.lns)[id] == c.lns[id].ln;
  }

  lemma OneMoreEntry(lns: map<string, Entry>, ids: set<string>, id: string)
    requires Separate(lns) && id in lns && id !in ids
    ensures lns[id].ln !in ListenersAt(lns, ids) && lns[id].stop !in StopsAt(lns, ids)
    ensures ListenersAt(lns, ids + {id}) == ListenersAt(lns, ids) + {lns[id].ln}
    ensures StopsAt(lns, ids + {id}) == StopsAt(lns, ids) + {lns[id].stop}
  {
  }

  /** What closing the entries `ids` of `c`, with or without their stop channels, leaves. */
  ghost predicate PartlyClosed(c: State, ids: set<string>, stops: bool, net: Net, chans: Ledger) {
    && net == CloseAll(c.net, ListenersAt(c.lns, ids))
    && chans == if stops then ReleaseAll(c.chans, StopsAt(c.lns, ids)) else c.chans
  }

  lemma NothingClosed(c: State, stops: bool, order: seq<string>)
    ensures PartlyClosed(c, Firsts(order, 0), stops, c.net, c.chans)
  {
    CloseNone(c.net);
    assert ListenersAt(c.lns, Firsts(order, 0)) == {} && StopsAt(c.lns, Firsts(order, 0)) == {};
  }

  lemma CloseOneEntry(c: State, order: seq<string>, i: nat, stops: bool, net: Net, chans: Ledger)
    requires Separate(c.lns) && Walks(order, c.lns.Keys) && i < |order|
    requires PartlyClosed(c, Firsts(order, i), stops, net, chans)
    ensures PartlyClosed(c, Firsts(order, i + 1), stops, Close(net, c.lns[order[i]].ln),
                         if stops then Release(chans, c.lns[order[i]].stop) else chans)
  {
    var id, done := order[i], Firsts(order, i);
    FirstsGrow(order, c.lns.Keys, i);
    OneMoreEntry(c.lns, done, id);
    CloseOneMore(c.net, ListenersAt(c.lns, done), c.lns[id].ln);
    ReleaseOneMore(c.chans, StopsAt(c.lns, done), c.lns[id].stop);
  }

  // ---- Runs ----------------------------------------------------------------

  datatype Op =
    | AddOp(r: ClientRule, answer: Option<Addr>)
    | RemoveOp(id: string)
    | ShutdownOp
    | ConnectOp(order: seq<string>, grants: map<string, Addr>)
    | DropOp
    | DialFailsOp

  /** Runs in which an ID that is added again was removed first. Steps that are not enabled change nothing. */
  function Step(c: State, op: Op): State {
    match op
    case AddOp(r, answer) => if r.id in c.pending then c else Add(c, r, answer)
    case RemoveOp(id) => Remove(c, id)
    case ShutdownOp => Shutdown(c)
    case ConnectOp(order, grants) => if Walks(order, c.pending.Keys) then Connect(c, order, grants) else c
    case DropOp => Drop(c)
    case DialFailsOp => c
  }

  function Exec(c: State, ops: seq<Op>): State
    decreases |ops|
  {
    if ops == [] then c else Exec(Step(c, ops[0]), ops[1..])
  }

  lemma StepKeepsInv(c: State, op: Op)
    requires Inv(c)
    ensures Inv(Step(c, op))
  {
    match op
    case AddOp(r, answer) =>
      if r.id !in c.pending {
        AddKeepsInvIff(c, r, answer);
      }
    case RemoveOp(id) => RemoveKeepsInv(c, id);
    case ShutdownOp => ShutdownKeepsInv(c);
    case ConnectOp(order, grants) =>
      if Walks(order, c.pending.Keys) {
        ConnectKeepsInv(c, order, grants);
      }
    case DropOp => DropKeepsInv(c);
    case DialFailsOp =>
  }

  lemma {:induction false} ExecKeepsInv(c: State, ops: seq<Op>)
    requires Inv(c)
    ensures Inv(Exec(c, ops))
    decreases |ops|
  {
    hide Inv;
    if ops != [] {
      StepKeepsInv(c, ops[0]);
      ExecKeepsInv(Step(c, ops[0]), ops[1..]);
    }
  }

  /** What the steps are for. */
  lemma StepDoes(c: State, op: Op)
    requires Inv(c)
    ensures var t := Step(c, op);
            match op
            case AddOp(r, _) => r.id in t.pending && (r.id !in c.pending ==> t.pending[r.id] == r) && t.up == c.up
            case RemoveOp(id) => id !in t.pending && id !in t.lns && t.up == c.up
            case ShutdownOp => t.pending == map[] && t.net.bound == map[] && !t.up
            case ConnectOp(order, _) => t.pending == c.pending && (Walks(order, c.pending.Keys) ==> t.up)
            case DropOp => t.pending == c.pending && t.net.bound == map[] && !t.up
            case DialFailsOp => t == c
  {
    hide Inv;
    match op
    case AddOp(r, answer) =>
      if r.id !in c.pending {
        OpenIsWanted(c);
        SoundOf(c);
        AddOpensIff(c, r, answer);
      }
    case RemoveOp(id) =>
      SoundOf(c);
      RemoveClosesIts(c, id);
    case ShutdownOp => ShutdownKeepsInv(c);
    case ConnectOp(order, grants) =>
      if Walks(order, c.pending.Keys) {
        ConnectKeepsInv(c, order, grants);
      }
    case DropOp => DropKeepsInv(c);
    case DialFailsOp =>
  }

  lemma SoundOf(c: State)
    requires Inv(c)
    ensures ListenersInv(c)
  {
  }

  lemma NewClientInv()
    ensures Inv(NEW_CLIENT)
  {
    assert Handles(map[]).Values == {};
  }

  /**
   * The reconnect invariant over every uncancelled run: listeners exist only for wanted rules and serve them as
   * wanted; without a connection there are none; the listeners open at the sshd are exactly those in the table,
   * every other one was closed once; and no stop channel was closed twice.
   */
  lemma ClientRuns(ops: seq<Op>)
    ensures var c := Exec(NEW_CLIENT, ops);
            && (forall id <- c.lns.Keys :: id in c.pending && c.lns[id].rule == c.pending[id])
            && (!c.up ==> c.lns == map[])
            && (forall h: nat :: h in c.net.bound <==> exists id :: id in c.lns && c.lns[id].ln == h)
            && (forall h: nat :: c.net.ledger.closed[h] == if h < c.net.ledger.next && h !in c.net.bound then 1 else 0)
            && (forall ch: nat :: c.chans.closed[ch] <= 1)
  {
    hide Exec;
    NewClientInv();
    ExecKeepsInv(NEW_CLIENT, ops);
    var c := Exec(NEW_CLIENT, ops);
    forall h: nat ensures h in c.net.bound <==> exists id :: id in c.lns && c.lns[id].ln == h {
      if h in c.net.bound {
        assert h in Handles(c.lns).Values;
        var id :| id in c.lns && Handles(c.lns)[id] == h;
        assert c.lns[id].ln == h;
      }
      if id :| id in c.lns && c.lns[id].ln == h {
        assert Handles(c.lns)[id] in Handles(c.lns).Values;
      }
    }
  }

  /** Adding a rule with other fields while the first one is served leaves the first one served. */
  lemma ChangedRuleIsNotServed(r: ClientRule, q: ClientRule, addr: Addr, answer: Option<Addr>)
    requires q.id == r.id && q != r
    ensures var c := Connect(Add(NEW_CLIENT, r, None), [r.id], map[r.id := addr]);
            && Inv(c) && !Inv(Add(c, q, answer))
            && Add(c, q, answer).pending[r.id] == q && Add(c, q, answer).lns[r.id].rule == r
  {
    var p, order, grants := Add(NEW_CLIENT, r, None), [r.id], map[r.id := addr];
    NewClientInv();
    AddKeepsInvIff(NEW_CLIENT, r, None);
    assert p.pending == map[r.id := r];
    ConnectKeepsInv(p, order, grants);
    var d := Drain(p.(up := true));
    assert order[1..] == [] && d.net.bound == map[];
    assert SubscribeAll(d, order, grants) == SubscribeAll(Opened(d, r, addr), [], grants);
    AddKeepsInvIff(Connect(p, order, grants), q, answer);
  }

  // ---- Reconnecting re-establishes everything ------------------------------

  /** `order[i]` is granted an address that no earlier rule is granted. */
  predicate FirstClaim(order: seq<string>, grants: map<string, Addr>, i: nat)
    requires i < |order|
  {
    order[i] in grants && forall j | 0 <= j < i && order[j] in grants :: grants[order[j]] != grants[order[i]]
  }

  predicate Claims(order: seq<string>, grants: map<string, Addr>, id: string) {
    exists i | 0 <= i < |order| :: order[i] == id && FirstClaim(order, grants, i)
  }

  /** The listener of `id` serves the wanted rule at the address it is granted. */
  ghost predicate Serves(c: State, grants: map<string, Addr>, id: string)
    requires id in c.lns
  {
    && id in c.pending && c.lns[id].rule == c.pending[id]
    && id in grants && c.lns[id].ln in c.net.bound && c.net.bound[c.lns[id].ln] == grants[id]
  }

  /** After walking `order`: exactly the rules with a first claim listen, and every granted address is taken. */
  ghost predicate Established(c: State, order: seq<string>, grants: map<string, Addr>) {
    && (forall id :: id in c.lns <==> Claims(order, grants, id))
    && (forall id <- c.lns.Keys :: Serves(c, grants, id))
    && (forall k <- order | k in grants :: grants[k] in c.net.bound.Values)
  }

  lemma ClaimsAppend(order: seq<string>, grants: map<string, Addr>, id: string, k: string)
    requires id !in order
    ensures Claims(order + [id], grants, k) <==>
            Claims(order, grants, k) || (k == id && FirstClaim(order + [id], grants, |order|))
  {
    var longer := order + [id];
    if i :| 0 <= i < |order| && order[i] == k && FirstClaim(order, grants, i) {
      assert longer[i] == k && FirstClaim(longer, grants, i);
    }
    if i :| 0 <= i < |longer| && longer[i] == k && FirstClaim(longer, grants, i) {
      if i < |order| {
        assert forall j | 0 <= j < i :: longer[j] == order[j];
        assert order[i] == k && FirstClaim(order, grants, i);
      }
    }
    assert longer[|order|] == id;
  }

  /** A rule has the first claim to its address exactly when the address is still free. */
  lemma FirstIffFree(c: State, done: seq<string>, id: string, grants: map<string, Addr>)
    requires ListenersInv(c) && id !in done && id in grants && Established(c, done, grants)
    ensures FirstClaim(done + [id], grants, |done|) <==> grants[id] !in c.net.bound.Values
    ensures id !in c.lns && c.net.ledger.next !in c.net.bound
  {
    assert c.net.ledger.next !in c.net.bound.Keys;
    var longer := done + [id];
    if grants[id] in c.net.bound.Values {
      var h :| h in c.net.bound && c.net.bound[h] == grants[id];
      assert h in Handles(c.lns).Values;
      var k :| k in c.lns && Handles(c.lns)[k] == h;
      assert Serves(c, grants, k) && Claims(done, grants, k);
      var j :| 0 <= j < |done| && done[j] == k;
      assert longer[j] == k;
    } else {
      forall j | 0 <= j < |done| && longer[j] in grants ensures grants[longer[j]] != grants[id] {
        assert longer[j] in done;
      }
    }
  }

  /** A listener just opened does not disturb the others. */
  lemma OpenedServes(c: State, id: string, grants: map<string, Addr>)
    requires id in c.pending && c.pending[id].id == id && id !in c.lns && id in grants
    requires (forall k <- c.lns.Keys :: Serves(c, grants, k)) && c.net.ledger.next !in c.net.bound
    ensures var t := Opened(c, c.pending[id], grants[id]);
            && t.lns.Keys == c.lns.Keys + {id}
            && (forall k <- t.lns.Keys :: Serves(t, grants, k))
            && c.net.bound.Values <= t.net.bound.Values && grants[id] in t.net.bound.Values
  {
    var t := Opened(c, c.pending[id], grants[id]);
    forall k | k in t.lns ensures Serves(t, grants, k) {
      if k != id {
        assert Serves(c, grants, k) && t.lns[k] == c.lns[k];
      }
    }
    forall v | v in c.net.bound.Values ensures v in t.net.bound.Values {
      var h :| h in c.net.bound && c.net.bound[h] == v;
      assert t.net.bound[h] == v;
    }
    assert t.net.bound[c.net.ledger.next] == grants[id];
  }

  lemma OpenedEstablishes(c: State, done: seq<string>, id: string, grants: map<string, Addr>)
    requires id in c.pending && c.pending[id].id == id && id !in c.lns && c.net.ledger.next !in c.net.bound
    requires id !in done && id in grants && FirstClaim(done + [id], grants, |done|) && Established(c, done, grants)
    ensures Established(Opened(c, c.pending[id], grants[id]), done + [id], grants)
  {
    var t := Opened(c, c.pending[id], grants[id]);
    OpenedServes(c, id, grants);
    hide Serves, FirstClaim, Claims, Opened;
    forall k ensures k in t.lns <==> Claims(done + [id], grants, k) {
      ClaimsAppend(done, grants, id, k);
    }
  }

  lemma SkippedEstablishes(c: State, done: seq<string>, id: string, grants: map<string, Addr>)
    requires id !in done && !FirstClaim(done + [id], grants, |done|) && Established(c, done, grants)
    requires id in grants ==> grants[id] in c.net.bound.Values
    ensures Established(c, done + [id], grants)
  {
    hide Serves, FirstClaim, Claims;
    forall k ensures k in c.lns <==> Claims(done + [id], grants, k) {
      ClaimsAppend(done, grants, id, k);
    }
  }

  lemma SubscribeEstablishes(c: State, done: seq<string>, id: string, grants: map<string, Addr>)
    requires ListenersInv(c) && id in c.pending && c.pending[id].id == id && id !in done && Established(c, done, grants)
    ensures Established(Subscribe(c, c.pending[id], Granted(grants, id)), done + [id], grants)
  {
    assert (done + [id])[|done|] == id;
    if id in grants {
      FirstIffFree(c, done, id, grants);
    }
    hide Established, ListenersInv;
    if FirstClaim(done + [id], grants, |done|) {
      OpenedEstablishes(c, done, id, grants);
    } else {
      SkippedEstablishes(c, done, id, grants);
    }
  }

  lemma {:induction false} SubscribeAllEstablishes(
    c: State, done: seq<string>, order: seq<string>, grants: map<string, Addr>)
    requires Inv(c) && c.up && (forall id <- order :: id in c.pending)
    requires (forall i, j | 0 <= i < j < |order| :: order[i] != order[j]) && (forall id <- order :: id !in done)
    requires Established(c, done, grants)
    ensures Established(SubscribeAll(c, order, grants), done + order, grants)
    decreases |order|
  {
    if order == [] {
      assert done + order == done;
    } else {
      var id := order[0];
      var t := Subscribe(c, c.pending[id], Granted(grants, id));
      SubscribeEstablishes(c, done, id, grants);
      SubscribeKeepsInv(c, c.pending[id], Granted(grants, id));
      SubscribeAllEstablishes(t, done + [id], order[1..], grants);
      assert done + [id] + order[1..] == done + order;
    }
  }

  lemma DrainedIsEstablished(c: State, grants: map<string, Addr>)
    requires Inv(c)
    ensures var d := Drain(c.(up := true)); Inv(d) && Established(d, [], grants)
  {
    DrainKeepsInv(c.(up := true));
  }

  lemma ConnectEstablishes(c: State, order: seq<string>, grants: map<string, Addr>)
    requires Inv(c) && Walks(order, c.pending.Keys)
    ensures var t := Connect(c, order, grants);
            t.pending == c.pending && Established(t, order, grants)
  {
    hide Established, Inv, SubscribeAll;
    ConnectKeepsInv(c, order, grants);
    DrainedIsEstablished(c, grants);
    SubscribeAllEstablishes(Drain(c.(up := true)), [], order, grants);
    assert [] + order == order;
  }

  /**
   * After any history, a successful dial leaves open exactly the wanted rules whose remote listen succeeds, each
   * serving its rule at the address the sshd grants it: those that are granted an address which no rule before
   * them in the walk is granted too.
   */
  lemma ReconnectEstablishes(ops: seq<Op>, order: seq<string>, grants: map<string, Addr>)
    requires Walks(order, Exec(NEW_CLIENT, ops).pending.Keys)
    ensures var c := Exec(NEW_CLIENT, ops);
            var t := Connect(c, order, grants);
            t.pending == c.pending && Established(t, order, grants)
  {
    hide Exec, Inv, Connect, Established;
    NewClientInv();
    ExecKeepsInv(NEW_CLIENT, ops);
    ConnectEstablishes(Exec(NEW_CLIENT, ops), order, grants);
  }

  /** When no two rules are granted the same address, the order of the walk does not matter. */
  lemma AnyWalkEstablishes(ops: seq<Op>, order: seq<string>, grants: map<string, Addr>)
    requires Walks(order, Exec(NEW_CLIENT, ops).pending.Keys) && Injective(grants)
    ensures var t := Connect(Exec(NEW_CLIENT, ops), order, grants);
            t.lns.Keys == set id | id in t.pending && id in grants
  {
    var t := Connect(Exec(NEW_CLIENT, ops), order, grants);
    ReconnectEstablishes(ops, order, grants);
    hide Connect, Exec, Serves;
    forall id ensures id in t.lns <==> id in t.pending && id in grants {
      if id in t.pending && id in grants {
        var i :| 0 <= i < |order| && order[i] == id;
        assert FirstClaim(order, grants, i);
      }
    }
  }
}

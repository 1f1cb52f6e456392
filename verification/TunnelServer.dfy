/** The public endpoint of the tunnel (internal/tunnel/server.go): sessions, rule tables and public listeners. */
module TunnelServer {
  import opened Common
  import opened Network
  import opened Protocol
  import opened Rules

  /** Control frames. The last constructor stands for every type a receiver ignores. */
  datatype Frame =
    | Register(rule: ClientRule)
    | Unregister(id: string)
    | Ping
    | Pong
    | Registered(id: string, bound: Addr)
    | Open(id: string, connID: nat, data: Addr)
    | Refused(id: string)
    | Ignored

  datatype RuleState = RuleState(rule: ClientRule, listener: nat)

  /** A client session's rule table, with whether `close` has run. */
  datatype Session = Session(rules: map<string, RuleState>, closed: bool)

  datatype Server = Server(sessions: map<nat, Session>, net: Net)

  // ---- Handling one frame -------------------------------------------------

  /** Listen first; only a granted listen replaces, and then closes, the listener the rule had. */
  function RegisterIn(rules: map<string, RuleState>, net: Net, rule: ClientRule, answer: Option<Addr>)
    : (map<string, RuleState>, Net)
  {
    if !Accepts(net, answer) then (rules, net)
    else
      var grown := Network.Open(net, answer.value);
      (rules[rule.id := RuleState(rule, net.ledger.next)],
       if rule.id in rules then Close(grown, rules[rule.id].listener) else grown)
  }

  function UnregisterIn(rules: map<string, RuleState>, net: Net, id: string): (map<string, RuleState>, Net) {
    if id in rules then (rules - {id}, Close(net, rules[id].listener)) else (rules, net)
  }

  function HandleIn(rules: map<string, RuleState>, net: Net, f: Frame, answer: Option<Addr>)
    : (map<string, RuleState>, Net)
  {
    match f
    case Register(rule) => RegisterIn(rules, net, rule, answer)
    case Unregister(id) => UnregisterIn(rules, net, id)
    case _ => (rules, net)
  }

  function ListenersOf(rules: map<string, RuleState>, ids: set<string>): set<nat> {
    set id | id in ids && id in rules :: rules[id].listener
  }

  /** No two rules of a table share a listener. */
  ghost predicate Separate(rules: map<string, RuleState>) {
    forall j, k | j in rules && k in rules && rules[j].listener == rules[k].listener :: j == k
  }

  lemma ListenersGrow(rules: map<string, RuleState>, ids: set<string>, id: string)
    requires Separate(rules) && id in rules && id !in ids
    ensures rules[id].listener !in ListenersOf(rules, ids)
    ensures ListenersOf(rules, ids + {id}) == ListenersOf(rules, ids) + {rules[id].listener}
  {
  }

  function Listeners(rules: map<string, RuleState>): set<nat> {
    ListenersOf(rules, rules.Keys)
  }

  /** The control loop over a whole stream of frames; `answers[i]` is what the host says if frame `i` asks to listen. */
  function HandleAll(rules: map<string, RuleState>, net: Net, frames: seq<Frame>, answers: seq<Option<Addr>>)
    : (map<string, RuleState>, Net)
    requires |answers| == |frames|
    decreases |frames|
  {
    if frames == [] then (rules, net)
    else
      var (r, n) := HandleIn(rules, net, frames[0], answers[0]);
      HandleAll(r, n, frames[1..], answers[1..])
  }

  // ---- The whole server ---------------------------------------------------

  predicate IsOpen(s: Server, sid: nat) {
    sid in s.sessions && !s.sessions[sid].closed
  }

  /** A frame of an open session; a session that has been closed reads no more frames. */
  function Handle(s: Server, sid: nat, f: Frame, answer: Option<Addr>): Server {
    if !IsOpen(s, sid) then s
    else
      var (rules, net) := HandleIn(s.sessions[sid].rules, s.net, f, answer);
      Server(s.sessions[sid := Session(rules, false)], net)
  }

  function Accept(s: Server, sid: nat): Server {
    if sid in s.sessions then s else s.(sessions := s.sessions[sid := Session(map[], false)])
  }

  function CloseSession(s: Server, sid: nat): Server {
    if !IsOpen(s, sid) then s
    else
      var se := s.sessions[sid];
      Server(s.sessions[sid := se.(closed := true)], CloseAll(s.net, Listeners(se.rules)))
  }

  datatype Op =
    | AcceptOp(sid: nat)
    | FrameOp(sid: nat, frame: Frame, answer: Option<Addr>)
    | CloseOp(sid: nat)

  const NO_SESSIONS := Server(map[], EMPTY_NET)

  function Step(s: Server, op: Op): Server {
    match op
    case AcceptOp(sid) => Accept(s, sid)
    case FrameOp(sid, f, answer) => Handle(s, sid, f, answer)
    case CloseOp(sid) => CloseSession(s, sid)
  }

  function Exec(s: Server, ops: seq<Op>): Server
    decreases |ops|
  {
    if ops == [] then s else Exec(Step(s, ops[0]), ops[1..])
  }

  // ---- Listener conservation ----------------------------------------------

  /** Where there are rules: an unclosed session and one of its rule IDs. */
  ghost function Places(s: Server): set<(nat, string)> {
    set sid, id | IsOpen(s, sid) && sid in s.sessions && id in s.sessions[sid].rules :: (sid, id)
  }

  /** The listener of every rule of every unclosed session. */
  ghost function Table(s: Server): map<(nat, string), nat> {
    map k | k in Places(s) :: s.sessions[k.0].rules[k.1].listener
  }

  /** Tables only mention listeners that were opened. */
  ghost predicate Known(s: Server) {
    forall sid, id | sid in s.sessions && id in s.sessions[sid].rules ::
      s.sessions[sid].rules[id].listener < s.net.ledger.next
  }

  ghost predicate Exact(s: Server) {
    Owns(Table(s), s.net.bound.Keys) && Holds(s.net, s.net.bound.Keys)
  }

  /**
   * The open listeners are exactly those in the rule tables of unclosed sessions, each in one place, and
   * every other listener ever opened was closed exactly once.
   */
  ghost predicate Conserved(s: Server) {
    Exact(s) && Known(s)
  }

  lemma TableAt(s: Server, sid: nat, id: string)
    ensures (sid, id) in Table(s) <==> IsOpen(s, sid) && id in s.sessions[sid].rules
    ensures (sid, id) in Table(s) ==> Table(s)[(sid, id)] == s.sessions[sid].rules[id].listener
  {
  }

  function WithRules(s: Server, sid: nat, rules: map<string, RuleState>, net: Net): Server {
    Server(s.sessions[sid := Session(rules, false)], net)
  }

  /** Two tables agree when they agree at every key. */
  lemma SameAtEveryKey(t: Server, want: map<(nat, string), nat>)
    requires forall j: nat, k: string :: (j, k) in Table(t) <==> (j, k) in want
    requires forall j: nat, k: string :: (j, k) in want ==> Table(t)[(j, k)] == want[(j, k)]
    ensures Table(t) == want
  {
    forall p: (nat, string) ensures p in Table(t) <==> p in want
                            ensures p in want ==> Table(t)[p] == want[p] {
      assert p == (p.0, p.1);
    }
  }

  lemma TableInsertAt(s: Server, sid: nat, id: string, rs: RuleState, net: Net, j: nat, k: string)
    requires IsOpen(s, sid)
    ensures var t := WithRules(s, sid, s.sessions[sid].rules[id := rs], net);
            var want := Table(s)[(sid, id) := rs.listener];
            && ((j, k) in Table(t) <==> (j, k) in want)
            && ((j, k) in want ==> Table(t)[(j, k)] == want[(j, k)])
  {
    var t := WithRules(s, sid, s.sessions[sid].rules[id := rs], net);
    TableAt(s, j, k);
    TableAt(t, j, k);
  }

  lemma TableDeleteAt(s: Server, sid: nat, id: string, net: Net, j: nat, k: string)
    requires IsOpen(s, sid)
    ensures var t := WithRules(s, sid, s.sessions[sid].rules - {id}, net);
            var want := Table(s) - {(sid, id)};
            && ((j, k) in Table(t) <==> (j, k) in want)
            && ((j, k) in want ==> Table(t)[(j, k)] == want[(j, k)])
  {
    var t := WithRules(s, sid, s.sessions[sid].rules - {id}, net);
    TableAt(s, j, k);
    TableAt(t, j, k);
  }

  lemma TableInsert(s: Server, sid: nat, id: string, rs: RuleState, net: Net)
    requires IsOpen(s, sid)
    ensures Table(WithRules(s, sid, s.sessions[sid].rules[id := rs], net)) == Table(s)[(sid, id) := rs.listener]
  {
    var t := WithRules(s, sid, s.sessions[sid].rules[id := rs], net);
    var want := Table(s)[(sid, id) := rs.listener];
    hide Table, WithRules;
    forall j: nat, k: string ensures (j, k) in Table(t) <==> (j, k) in want
                ensures (j, k) in want ==> Table(t)[(j, k)] == want[(j, k)] {
      TableInsertAt(s, sid, id, rs, net, j, k);
    }
    SameAtEveryKey(t, want);
  }

  lemma TableDelete(s: Server, sid: nat, id: string, net: Net)
    requires IsOpen(s, sid)
    ensures Table(WithRules(s, sid, s.sessions[sid].rules - {id}, net)) == Table(s) - {(sid, id)}
  {
    var t := WithRules(s, sid, s.sessions[sid].rules - {id}, net);
    var want := Table(s) - {(sid, id)};
    hide Table, WithRules;
    forall j: nat, k: string ensures (j, k) in Table(t) <==> (j, k) in want
                ensures (j, k) in want ==> Table(t)[(j, k)] == want[(j, k)] {
      TableDeleteAt(s, sid, id, net, j, k);
    }
    SameAtEveryKey(t, want);
  }

  /** The table keys of session `sid`. */
  ghost function KeysOf(sid: nat, rules: map<string, RuleState>): set<(nat, string)> {
    set id | id in rules :: (sid, id)
  }

  lemma TableClosedAt(s: Server, sid: nat, j: nat, k: string)
    requires IsOpen(s, sid)
    ensures var t := CloseSession(s, sid);
            var want := Table(s) - KeysOf(sid, s.sessions[sid].rules);
            && ((j, k) in Table(t) <==> (j, k) in want)
            && ((j, k) in want ==> Table(t)[(j, k)] == want[(j, k)])
  {
    TableAt(s, j, k);
    TableAt(CloseSession(s, sid), j, k);
    hide Table, CloseAll, Listeners;
    assert (j, k) in KeysOf(sid, s.sessions[sid].rules) <==> j == sid && k in s.sessions[sid].rules;
  }

  lemma TableClosed(s: Server, sid: nat)
    requires IsOpen(s, sid)
    ensures Table(CloseSession(s, sid)) == Table(s) - KeysOf(sid, s.sessions[sid].rules)
  {
    var t := CloseSession(s, sid);
    var want := Table(s) - KeysOf(sid, s.sessions[sid].rules);
    hide Table, CloseSession, KeysOf;
    forall j: nat, k: string ensures (j, k) in Table(t) <==> (j, k) in want
                ensures (j, k) in want ==> Table(t)[(j, k)] == want[(j, k)] {
      TableClosedAt(s, sid, j, k);
    }
    SameAtEveryKey(t, want);
  }

  lemma RegisterConserves(s: Server, sid: nat, rule: ClientRule, answer: Option<Addr>)
    requires Exact(s) && IsOpen(s, sid) && Accepts(s.net, answer)
    ensures Exact(Handle(s, sid, Register(rule), answer))
  {
    var t := Handle(s, sid, Register(rule), answer);
    var tab, held, key, h := Table(s), s.net.bound.Keys, (sid, rule.id), s.net.ledger.next;
    hide Table;
    TableInsert(s, sid, rule.id, RuleState(rule, h), t.net);
    TableAt(s, sid, rule.id);
    OpenHolds(s.net, held, answer);
    if rule.id in s.sessions[sid].rules {
      var prior := tab[key];
      assert prior in tab.Values;
      CloseHolds(Network.Open(s.net, answer.value), held + {h}, prior);
      OwnsRemove(tab, held, key);
      OwnsInsert(tab - {key}, held - {prior}, key, h);
      assert (tab - {key})[key := h] == tab[key := h];
      assert held + {h} - {prior} == held - {prior} + {h};
    } else {
      OwnsInsert(tab, held, key, h);
    }
  }

  lemma UnregisterConserves(s: Server, sid: nat, id: string, answer: Option<Addr>)
    requires Exact(s) && IsOpen(s, sid) && id in s.sessions[sid].rules
    ensures Exact(Handle(s, sid, Unregister(id), answer))
  {
    var t := Handle(s, sid, Unregister(id), answer);
    var tab, held, key := Table(s), s.net.bound.Keys, (sid, id);
    TableDelete(s, sid, id, t.net);
    TableAt(s, sid, id);
    assert tab[key] in tab.Values;
    CloseHolds(s.net, held, tab[key]);
    OwnsRemove(tab, held, key);
  }

  /** What the table says about a session's keys is the session's listeners. */
  lemma SessionListeners(s: Server, sid: nat)
    requires IsOpen(s, sid)
    ensures var keys := KeysOf(sid, s.sessions[sid].rules);
            (set k | k in keys && k in Table(s) :: Table(s)[k]) == Listeners(s.sessions[sid].rules)
  {
    hide Table;
    var rules := s.sessions[sid].rules;
    var keys := KeysOf(sid, rules);
    var hs := set k | k in keys && k in Table(s) :: Table(s)[k];
    forall id | id in rules ensures rules[id].listener in hs {
      TableAt(s, sid, id);
      assert (sid, id) in keys;
    }
    forall k | k in keys && k in Table(s) ensures Table(s)[k] in Listeners(rules) {
      TableAt(s, k.0, k.1);
    }
  }

  lemma CloseConserves(s: Server, sid: nat)
    requires Exact(s) && IsOpen(s, sid)
    ensures Exact(CloseSession(s, sid))
  {
    hide Table, KeysOf, Listeners;
    var rules, held := s.sessions[sid].rules, s.net.bound.Keys;
    SessionListeners(s, sid);
    OwnsRemoveAll(Table(s), held, KeysOf(sid, rules));
    CloseAllHolds(s.net, held, Listeners(rules));
    TableClosed(s, sid);
  }

  lemma SameTable(s: Server, t: Server)
    requires forall sid :: IsOpen(s, sid) || IsOpen(t, sid) ==>
               (sid in s.sessions && sid in t.sessions && s.sessions[sid] == t.sessions[sid]) ||
               (sid !in s.sessions && t.sessions[sid].rules == map[])
    ensures Table(t) == Table(s)
  {
    forall j: nat, k: string ensures (j, k) in Table(t) <==> (j, k) in Table(s)
                ensures (j, k) in Table(s) ==> Table(t)[(j, k)] == Table(s)[(j, k)] {
      TableAt(s, j, k);
      TableAt(t, j, k);
    }
    SameAtEveryKey(t, Table(s));
  }

  lemma StepKnown(s: Server, op: Op)
    requires Known(s)
    ensures Known(Step(s, op))
  {
  }

  lemma StepConserves(s: Server, op: Op)
    requires Conserved(s)
    ensures Conserved(Step(s, op))
  {
    StepKnown(s, op);
    match op
    case AcceptOp(sid) => SameTable(s, Accept(s, sid));
    case CloseOp(sid) =>
      if IsOpen(s, sid) {
        CloseConserves(s, sid);
      }
    case FrameOp(sid, f, answer) =>
      if IsOpen(s, sid) && f.Register? && Accepts(s.net, answer) {
        RegisterConserves(s, sid, f.rule, answer);
      } else if IsOpen(s, sid) && f.Unregister? && f.id in s.sessions[sid].rules {
        UnregisterConserves(s, sid, f.id, answer);
      } else {
        SameTable(s, Handle(s, sid, f, answer));
      }
  }

  lemma {:induction false} ExecConserves(s: Server, ops: seq<Op>)
    requires Conserved(s)
    ensures Conserved(Exec(s, ops))
    decreases |ops|
  {
    hide Conserved, Step;
    if ops != [] {
      StepConserves(s, ops[0]);
      ExecConserves(Step(s, ops[0]), ops[1..]);
    }
  }

  /**
   * Over every run of accepted sessions, frames and closes, a public listener is open exactly when some rule of
   * some unclosed session has it; no two rules share one, and every other one was closed exactly once.
   */
  lemma ListenersConserved(ops: seq<Op>)
    ensures var s := Exec(NO_SESSIONS, ops);
            && (forall h: nat :: h in s.net.bound <==> h in Table(s).Values)
            && Injective(Table(s))
            && (forall h: nat :: s.net.ledger.closed[h] == if h < s.net.ledger.next && h !in s.net.bound then 1 else 0)
  {
    assert Conserved(NO_SESSIONS) by {
      assert Table(NO_SESSIONS) == map[];
    }
    hide Exec, Table;
    ExecConserves(NO_SESSIONS, ops);
  }

  /** `register` itself does not look at `closed`: a session does this with a frame it decoded before it was closed. */
  function RegisterLate(s: Server, sid: nat, rule: ClientRule, answer: Option<Addr>): Server
    requires sid in s.sessions
  {
    var (rules, net) := RegisterIn(s.sessions[sid].rules, s.net, rule, answer);
    Server(s.sessions[sid := s.sessions[sid].(rules := rules)], net)
  }

  lemma LateRegisterLeaks(s: Server, sid: nat, rule: ClientRule, answer: Option<Addr>)
    requires Conserved(s) && sid in s.sessions && s.sessions[sid].closed && Accepts(s.net, answer)
    ensures var t := RegisterLate(s, sid, rule, answer);
            s.net.ledger.next in t.net.bound && s.net.ledger.next !in Table(t).Values
  {
    var t, h := RegisterLate(s, sid, rule, answer), s.net.ledger.next;
    assert forall j :: j in t.sessions <==> j in s.sessions;
    assert forall j | j in s.sessions && j != sid :: t.sessions[j] == s.sessions[j];
    assert t.sessions[sid].closed;
    SameTable(s, t);
    hide Table;
    assert h !in s.net.bound.Keys;
    assert rule.id in s.sessions[sid].rules ==> s.sessions[sid].rules[rule.id].listener < h;
  }

  /** Registering leaks a listener exactly when the session had been closed and the listen is granted. */
  lemma RegisterLateConservesIff(s: Server, sid: nat, rule: ClientRule, answer: Option<Addr>)
    requires Conserved(s) && sid in s.sessions
    ensures Conserved(RegisterLate(s, sid, rule, answer)) <==>
            !(s.sessions[sid].closed && Accepts(s.net, answer))
  {
    if !s.sessions[sid].closed {
      assert RegisterLate(s, sid, rule, answer) == Handle(s, sid, Register(rule), answer);
      StepConserves(s, FrameOp(sid, Register(rule), answer));
    } else if Accepts(s.net, answer) {
      LateRegisterLeaks(s, sid, rule, answer);
    } else {
      assert s.sessions[sid := s.sessions[sid]] == s.sessions;
    }
  }

  /** A session that was accepted and closed gets there with any register it had decoded before. */
  lemma LateRegisterHappens(rule: ClientRule, addr: Addr)
    ensures var s := Exec(NO_SESSIONS, [AcceptOp(0), CloseOp(0)]);
            0 in s.sessions && s.sessions[0].closed && !Conserved(RegisterLate(s, 0, rule, Some(addr)))
  {
    var ops := [AcceptOp(0), CloseOp(0)];
    assert ops[1..] == [CloseOp(0)] && ops[1..][1..] == [];
    var s := Exec(NO_SESSIONS, ops);
    assert s == CloseSession(Accept(NO_SESSIONS, 0), 0);
    assert Conserved(NO_SESSIONS) by {
      assert Table(NO_SESSIONS) == map[];
    }
    hide Exec, Conserved, RegisterLate;
    ExecConserves(NO_SESSIONS, ops);
    assert s.net.bound == map[];
    RegisterLateConservesIff(s, 0, rule, Some(addr));
  }

  // ---- The session object -------------------------------------------------

  /** `clientSession`: updated in place by its control loop and its `openData` goroutines. */
  class ClientSession {
    var rules: map<string, RuleState>
    var pending: map<nat, nat>   // connID to public connection
    var nextID: nat              // a uint64
    var closed: bool
    var net: Net                 // the listeners of the host it runs on
    var sent: seq<Frame>         // what went down the control connection

    /** Rules never share a listener, and all their listeners are older than the next one. */
    ghost predicate Valid()
      reads this
    {
      && Separate(rules)
      && (forall k <- rules.Keys :: rules[k].listener < net.ledger.next)
    }

    constructor (host: Net)
      ensures Valid() && net == host
      ensures rules == map[] && pending == map[] && nextID == 0 && !closed && sent == []
    {
      rules, pending, nextID, closed, net, sent := map[], map[], 0, false, host, [];
    }

    method DoRegister(rule: ClientRule, answer: Option<Addr>)
      requires Valid()
      modifies this`rules, this`net, this`sent
      ensures Valid()
      ensures (rules, net) == RegisterIn(old(rules), old(net), rule, answer)
      ensures sent == old(sent) +
                      [if Accepts(old(net), answer) then Registered(rule.id, answer.value) else Refused(rule.id)]
    {
      if !Accepts(net, answer) {
        sent := sent + [Refused(rule.id)];
        return;
      }
      var rs := RuleState(rule, net.ledger.next);
      net := Network.Open(net, answer.value);
      if rule.id in rules {
        net := Close(net, rules[rule.id].listener);
      }
      rules := rules[rule.id := rs];
      sent := sent + [Registered(rule.id, answer.value)];
    }

    method DoUnregister(id: string)
      requires Valid()
      modifies this`rules, this`net
      ensures Valid()
      ensures (rules, net) == UnregisterIn(old(rules), old(net), id)
    {
      if id !in rules {
        return;
      }
      var rs := rules[id];
      rules := rules - {id};
      net := Close(net, rs.listener);
    }

    /** The counter is a uint64: it wraps. */
    method NextConnID() returns (id: nat)
      modifies this`nextID
      ensures id == nextID == (old(nextID) + 1) % UINT64_SIZE
    {
      nextID := (nextID + 1) % UINT64_SIZE;
      id := nextID;
    }

    /** Closes the listener of rule `i` of a walk, after those before it. */
    method CloseListener(order: seq<string>, i: nat, ghost before: Net)
      requires Valid() && Walks(order, rules.Keys) && i < |order|
      requires net == CloseAll(before, ListenersOf(rules, Firsts(order, i)))
      modifies this`net
      ensures Valid() && net == CloseAll(before, ListenersOf(rules, Firsts(order, i + 1)))
    {
      FirstsGrow(order, rules.Keys, i);
      ListenersGrow(rules, Firsts(order, i), order[i]);
      CloseOneMore(before, ListenersOf(rules, Firsts(order, i)), rules[order[i]].listener);
      net := Close(net, rules[order[i]].listener);
    }

    method DoClose()
      requires Valid()
      modifies this`closed, this`net
      ensures Valid() && closed
      ensures net == if old(closed) then old(net) else CloseAll(old(net), Listeners(rules))
    {
      if closed {
        return;
      }
      closed := true;
      var order := AnyOrder(rules.Keys);
      ghost var before := net;
      CloseNone(net);
      assert ListenersOf(rules, Firsts(order, 0)) == {};
      hide CloseAll, ListenersOf, Separate, Walks;
      for i := 0 to |order|
        invariant Valid() && closed && net == CloseAll(before, ListenersOf(rules, Firsts(order, i)))
      {
        CloseListener(order, i, before);
      }
      AllFirsts(order, rules.Keys);
    }

    /** The control loop: every decoded frame is handled, and the session closes when the stream ends. */
    method Serve(frames: seq<Frame>, answers: seq<Option<Addr>>)
      requires Valid() && !closed && |answers| == |frames|
      modifies this
      ensures Valid() && closed
      ensures var (r, n) := HandleAll(old(rules), old(net), frames, answers);
              rules == r && net == CloseAll(n, Listeners(r))
      ensures pending == old(pending) && nextID == old(nextID)
    {
      var i := 0;
      while i < |frames|
        invariant 0 <= i <= |frames|
        invariant Valid() && !closed
        invariant HandleAll(rules, net, frames[i..], answers[i..]) ==
                  HandleAll(old(rules), old(net), frames, answers)
        invariant pending == old(pending) && nextID == old(nextID)
      {
        assert frames[i..][1..] == frames[i + 1..] && answers[i..][1..] == answers[i + 1..];
        match frames[i] {
          case Register(rule) => DoRegister(rule, answers[i]);
          case Unregister(id) => DoUnregister(id);
          case Ping => sent := sent + [Pong];
          case _ =>
        }
        i := i + 1;
      }
      DoClose();
    }
  }
}

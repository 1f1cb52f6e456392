/**
 * The tunnel protocol as a whole: a client with its rule table (internal/tunnel/client.go), first-in-first-out
 * control connections, and the server's sessions. The client may lose its connection and reconnect while the
 * server still works through older sessions, and other clients share the server's addresses.
 */
module Tunnel {
  import opened Common
  import opened Network
  import opened Rules
  import opened TunnelServer

  /**
   * `wires[sid]` are the frames this client sent on session `sid` that the server has not handled yet, and
   * `stale` the rules whose last request on the current session was refused while not already in force.
   */
  datatype State = State(
    server: Server,
    rules: map<string, ClientRule>,
    cur: Option<nat>,
    replayed: bool,
    wires: map<nat, seq<Frame>>,
    stale: set<string>)

  const START := State(NO_SESSIONS, map[], None, false, map[], {})

  datatype Op =
    | Add(rule: ClientRule)
    | Remove(id: string)
    | Connect(sid: nat)
    | Replay(order: seq<string>)
    | Deliver(sid: nat, answer: Option<Addr>)
    | Lose                                     // the client gives up its connection
    | Foreign(op: TunnelServer.Op)             // another client's session, or any session closing

  /** `Client.send` and its like: a frame goes out only while there is a connection. */
  function Send(s: State, frames: seq<Frame>): State {
    if s.cur.Some? && s.cur.value in s.wires then
      s.(wires := s.wires[s.cur.value := s.wires[s.cur.value] + frames])
    else s
  }

  /** What the replay sends when it walks the rules in `order`. */
  function ReplayFrames(rules: map<string, ClientRule>, order: seq<string>): seq<Frame>
    requires forall id <- order :: id in rules
  {
    if order == [] then [] else ReplayFrames(rules, order[..|order| - 1]) + [Register(rules[order[|order| - 1]])]
  }

  /** A request is in force when its listen is granted, or when the rule already listens where it asks to. */
  predicate InForce(rules: map<string, RuleState>, net: Net, rule: ClientRule, answer: Option<Addr>) {
    Accepts(net, answer) || (rule.id in rules && rules[rule.id].rule.listen == rule.listen)
  }

  function StaleAfter(stale: set<string>, rules: map<string, RuleState>, net: Net, f: Frame, answer: Option<Addr>)
    : set<string>
  {
    match f
    case Register(rule) => if InForce(rules, net, rule, answer) then stale - {rule.id} else stale + {rule.id}
    case _ => stale
  }

  function DeliverTo(s: State, sid: nat, answer: Option<Addr>): State
    requires IsOpen(s.server, sid) && sid in s.wires && s.wires[sid] != []
  {
    var f, table := s.wires[sid][0], s.server.sessions[sid].rules;
    s.(server := Handle(s.server, sid, f, answer),
       wires := s.wires[sid := s.wires[sid][1..]],
       stale := if s.cur == Some(sid) then StaleAfter(s.stale, table, s.server.net, f, answer) else s.stale)
  }

  predicate OwnSession(s: State, op: TunnelServer.Op) {
    !op.CloseOp? && op.sid in s.wires
  }

  /** Steps that are not enabled change nothing. */
  function Step(s: State, op: Op): State {
    match op
    case Add(rule) => Send(s.(rules := s.rules[rule.id := rule]), [Register(rule)])
    case Remove(id) => Send(s.(rules := s.rules - {id}), [Unregister(id)])
    case Connect(sid) =>
      if s.cur.Some? || sid in s.server.sessions then s
      else s.(server := Accept(s.server, sid), wires := s.wires[sid := []],
              cur := Some(sid), replayed := false, stale := {})
    case Replay(order) =>
      if s.cur == None || !Walks(order, s.rules.Keys) then s
      else Send(s, ReplayFrames(s.rules, order)).(replayed := true)
    case Deliver(sid, answer) =>
      if IsOpen(s.server, sid) && sid in s.wires && s.wires[sid] != [] then DeliverTo(s, sid, answer) else s
    case Lose => s.(cur := None, replayed := false)
    case Foreign(o) => if OwnSession(s, o) then s else s.(server := TunnelServer.Step(s.server, o))
  }

  function Exec(s: State, ops: seq<Op>): State
    decreases |ops|
  {
    if ops == [] then s else Exec(Step(s, ops[0]), ops[1..])
  }

  // ---- What the undelivered frames say about one rule ----------------------

  predicate About(f: Frame, id: string) {
    (f.Register? && f.rule.id == id) || (f.Unregister? && f.id == id)
  }

  /** The last frame of `q` that registers or unregisters `id`. */
  function LastAbout(q: seq<Frame>, id: string): (r: Option<Frame>)
    ensures r.Some? ==> About(r.value, id)
  {
    if q == [] then None
    else if About(q[|q| - 1], id) then Some(q[|q| - 1])
    else LastAbout(q[..|q| - 1], id)
  }

  lemma {:induction false} LastAboutConcat(p: seq<Frame>, q: seq<Frame>, id: string)
    ensures LastAbout(p + q, id) == if LastAbout(q, id).Some? then LastAbout(q, id) else LastAbout(p, id)
    decreases |q|
  {
    if q == [] {
      assert p + q == p;
    } else {
      assert (p + q)[..|p + q| - 1] == p + q[..|q| - 1];
      LastAboutConcat(p, q[..|q| - 1], id);
    }
  }

  lemma {:induction false} LastAboutReplay(rules: map<string, ClientRule>, order: seq<string>, id: string)
    requires forall k <- order :: k in rules
    requires forall k <- rules.Keys :: rules[k].id == k
    ensures LastAbout(ReplayFrames(rules, order), id) ==
            if id in order then Some(Register(rules[id])) else None
    decreases |order|
  {
    if order != [] {
      var init, last := order[..|order| - 1], order[|order| - 1];
      assert order == init + [last];
      assert last in rules;
      LastAboutReplay(rules, init, id);
      LastAboutConcat(ReplayFrames(rules, init), [Register(rules[last])], id);
    }
  }

  // ---- The invariant -------------------------------------------------------

  /** Undelivered frames, server table and client table agree about `id` on the current session. */
  ghost predicate Tracks(s: State, q: seq<Frame>, table: map<string, RuleState>, id: string) {
    match LastAbout(q, id)
    case Some(Register(rule)) => id in s.rules && s.rules[id] == rule
    case Some(_) => id !in s.rules
    case None =>
      && (id in table ==> id in s.rules && (id !in s.stale ==> table[id].rule.listen == s.rules[id].listen))
      && (s.replayed && id in s.rules && id !in s.stale ==> id in table)
  }

  ghost predicate Inv(s: State) {
    && (forall k <- s.rules.Keys :: s.rules[k].id == k)
    && (forall sid <- s.wires.Keys :: sid in s.server.sessions)
    && (s.cur.Some? ==> s.cur.value in s.wires)
    && (s.cur.Some? ==> forall id :: Tracks(s, s.wires[s.cur.value], s.server.sessions[s.cur.value].rules, id))
  }

  lemma AddKeepsInv(s: State, rule: ClientRule)
    requires Inv(s)
    ensures Inv(Step(s, Add(rule)))
  {
    var t := Step(s, Add(rule));
    if s.cur.Some? {
      var sid := s.cur.value;
      forall id ensures Tracks(t, t.wires[sid], t.server.sessions[sid].rules, id) {
        LastAboutConcat(s.wires[sid], [Register(rule)], id);
        assert Tracks(s, s.wires[sid], s.server.sessions[sid].rules, id);
      }
    }
  }

  lemma RemoveKeepsInv(s: State, id: string)
    requires Inv(s)
    ensures Inv(Step(s, Remove(id)))
  {
    var t := Step(s, Remove(id));
    if s.cur.Some? {
      var sid := s.cur.value;
      forall k ensures Tracks(t, t.wires[sid], t.server.sessions[sid].rules, k) {
        LastAboutConcat(s.wires[sid], [Unregister(id)], k);
        assert Tracks(s, s.wires[sid], s.server.sessions[sid].rules, k);
      }
    }
  }

  lemma ReplayKeepsInv(s: State, order: seq<string>)
    requires Inv(s) && s.cur.Some? && Walks(order, s.rules.Keys)
    ensures Inv(Step(s, Replay(order)))
  {
    var t, sid := Step(s, Replay(order)), s.cur.value;
    forall id ensures Tracks(t, t.wires[sid], t.server.sessions[sid].rules, id) {
      LastAboutReplay(s.rules, order, id);
      LastAboutConcat(s.wires[sid], ReplayFrames(s.rules, order), id);
      assert Tracks(s, s.wires[sid], s.server.sessions[sid].rules, id);
    }
  }

  lemma DeliverKeepsInv(s: State, sid: nat, answer: Option<Addr>)
    requires Inv(s) && IsOpen(s.server, sid) && sid in s.wires && s.wires[sid] != []
    ensures Inv(DeliverTo(s, sid, answer))
  {
    var t := DeliverTo(s, sid, answer);
    if s.cur == Some(sid) {
      var q := s.wires[sid];
      assert q == [q[0]] + q[1..];
      forall id ensures Tracks(t, t.wires[sid], t.server.sessions[sid].rules, id) {
        LastAboutConcat([q[0]], q[1..], id);
        assert Tracks(s, q, s.server.sessions[sid].rules, id);
      }
    } else if s.cur.Some? {
      var c := s.cur.value;
      forall id ensures Tracks(t, t.wires[c], t.server.sessions[c].rules, id) {
        assert Tracks(s, s.wires[c], s.server.sessions[c].rules, id);
      }
    }
  }

  lemma ForeignKeepsInv(s: State, op: TunnelServer.Op)
    requires Inv(s) && !OwnSession(s, op)
    ensures Inv(Step(s, Foreign(op)))
  {
    var t := Step(s, Foreign(op));
    if s.cur.Some? {
      var sid := s.cur.value;
      assert t.server.sessions[sid].rules == s.server.sessions[sid].rules;
      forall id ensures Tracks(t, t.wires[sid], t.server.sessions[sid].rules, id) {
        assert Tracks(s, s.wires[sid], s.server.sessions[sid].rules, id);
      }
    }
  }

  lemma StepKeepsInv(s: State, op: Op)
    requires Inv(s)
    ensures Inv(Step(s, op))
  {
    match op
    case Add(rule) => AddKeepsInv(s, rule);
    case Remove(id) => RemoveKeepsInv(s, id);
    case Connect(sid) =>
    case Replay(order) =>
      if s.cur.Some? && Walks(order, s.rules.Keys) {
        ReplayKeepsInv(s, order);
      }
    case Deliver(sid, answer) =>
      if IsOpen(s.server, sid) && sid in s.wires && s.wires[sid] != [] {
        DeliverKeepsInv(s, sid, answer);
      }
    case Lose =>
    case Foreign(o) =>
      if !OwnSession(s, o) {
        ForeignKeepsInv(s, o);
      }
  }

  lemma {:induction false} ExecKeepsInv(s: State, ops: seq<Op>)
    requires Inv(s)
    ensures Inv(Exec(s, ops))
    decreases |ops|
  {
    if ops != [] {
      StepKeepsInv(s, ops[0]);
      ExecKeepsInv(Step(s, ops[0]), ops[1..]);
    }
  }

  // ---- Convergence ---------------------------------------------------------

  /** Every request among `frames` comes into force when the server works through them with these answers. */
  predicate AllInForce(table: map<string, RuleState>, net: Net, frames: seq<Frame>, answers: seq<Option<Addr>>)
    requires |answers| == |frames|
    decreases |frames|
  {
    frames == [] ||
    (var (r, n) := HandleIn(table, net, frames[0], answers[0]);
     (frames[0].Register? ==> InForce(table, net, frames[0].rule, answers[0])) &&
     AllInForce(r, n, frames[1..], answers[1..]))
  }

  /** What working through `frames` does to the entry of `id`. */
  lemma {:induction false} HandleAllAt(
    table: map<string, RuleState>, net: Net, frames: seq<Frame>, answers: seq<Option<Addr>>, id: string)
    requires |answers| == |frames|
    ensures var r := HandleAll(table, net, frames, answers).0;
            match LastAbout(frames, id)
            case None => (id in r <==> id in table) && (id in table ==> r[id] == table[id])
            case Some(Register(rule)) =>
              AllInForce(table, net, frames, answers) ==> id in r && r[id].rule.listen == rule.listen
            case Some(_) => id !in r
    decreases |frames|
  {
    if frames != [] {
      var f := frames[0];
      var (r, n) := HandleIn(table, net, f, answers[0]);
      HandleAllAt(r, n, frames[1..], answers[1..], id);
      assert frames == [f] + frames[1..];
      LastAboutConcat([f], frames[1..], id);
      assert [f][..0] == [];
    }
  }

  /** The rules the server ends up with when it works through everything this client has sent on its session. */
  function Settled(s: State, answers: seq<Option<Addr>>): map<string, RuleState>
    requires s.cur.Some? && s.cur.value in s.wires && s.cur.value in s.server.sessions
    requires |answers| == |s.wires[s.cur.value]|
  {
    HandleAll(s.server.sessions[s.cur.value].rules, s.server.net, s.wires[s.cur.value], answers).0
  }

  lemma SettledAgrees(s: State, answers: seq<Option<Addr>>)
    requires Inv(s) && s.cur.Some? && |answers| == |s.wires[s.cur.value]|
    ensures var sid, r := s.cur.value, Settled(s, answers);
            && r.Keys <= s.rules.Keys
            && (s.replayed && AllInForce(s.server.sessions[sid].rules, s.server.net, s.wires[sid], answers) ==>
                  forall id | id !in s.stale || LastAbout(s.wires[sid], id).Some? ::
                    && (id in r <==> id in s.rules)
                    && (id in r ==> r[id].rule.listen == s.rules[id].listen))
  {
    var q, table := s.wires[s.cur.value], s.server.sessions[s.cur.value].rules;
    forall id
      ensures id in Settled(s, answers) ==> id in s.rules
      ensures s.replayed && AllInForce(table, s.server.net, q, answers) &&
              (id !in s.stale || LastAbout(q, id).Some?) ==>
                && (id in Settled(s, answers) <==> id in s.rules)
                && (id in Settled(s, answers) ==> Settled(s, answers)[id].rule.listen == s.rules[id].listen)
    {
      HandleAllAt(table, s.server.net, q, answers, id);
      assert Tracks(s, q, table, id);
    }
  }

  /**
   * Convergence. In every run of edits, deliveries, losses and reconnects, working through the undelivered
   * frames never leaves a rule the client does not hold, whatever binds are refused. Once the replay has been
   * sent and the binds succeed, it leaves exactly the client's rules, each on the listen address the client
   * has for it; a refusal earlier in the session costs only the rules in `stale`.
   */
  lemma Converges(ops: seq<Op>, answers: seq<Option<Addr>>)
    ensures var s := Exec(START, ops);
            s.cur.Some? ==>
              var sid := s.cur.value;
              && sid in s.wires && sid in s.server.sessions
              && (|answers| == |s.wires[sid]| ==>
                    var r := Settled(s, answers);
                    && r.Keys <= s.rules.Keys
                    && (s.replayed && AllInForce(s.server.sessions[sid].rules, s.server.net, s.wires[sid], answers) ==>
                          forall id | id !in s.stale || LastAbout(s.wires[sid], id).Some? ::
                            && (id in r <==> id in s.rules)
                            && (id in r ==> r[id].rule.listen == s.rules[id].listen)))
  {
    ExecKeepsInv(START, ops);
    var s := Exec(START, ops);
    if s.cur.Some? && |answers| == |s.wires[s.cur.value]| {
      SettledAgrees(s, answers);
    }
  }

  /**
   * Once the server has caught up with a replayed session on which no request was refused, its table holds
   * exactly the client's rules, each on the listen address the client has for it.
   */
  lemma QuietMeansAgreed(ops: seq<Op>)
    ensures var s := Exec(START, ops);
            s.cur.Some? && s.replayed && s.stale == {} ==>
              var sid := s.cur.value;
              && sid in s.wires && sid in s.server.sessions
              && (s.wires[sid] == [] ==>
                    var table := s.server.sessions[sid].rules;
                    && table.Keys == s.rules.Keys
                    && forall id <- table.Keys :: table[id].rule.listen == s.rules[id].listen)
  {
    Converges(ops, []);
    var s := Exec(START, ops);
    if s.cur.Some? && s.replayed && s.stale == {} && s.wires[s.cur.value] == [] {
      var table := s.server.sessions[s.cur.value].rules;
      assert Settled(s, []) == table;
      forall id ensures id in table <==> id in s.rules
                ensures id in table ==> table[id].rule.listen == s.rules[id].listen {
        assert id !in s.stale;
      }
    }
  }

  /** What a step asks of the server, if anything. */
  function ServerOp(s: State, op: Op): Option<TunnelServer.Op> {
    match op
    case Connect(sid) => if s.cur.Some? || sid in s.server.sessions then None else Some(AcceptOp(sid))
    case Deliver(sid, answer) =>
      if IsOpen(s.server, sid) && sid in s.wires && s.wires[sid] != [] then
        Some(FrameOp(sid, s.wires[sid][0], answer))
      else None
    case Foreign(o) => if OwnSession(s, o) then None else Some(o)
    case _ => None
  }

  lemma StepDrivesServer(s: State, op: Op)
    ensures Step(s, op).server ==
            match ServerOp(s, op) case None => s.server case Some(o) => TunnelServer.Step(s.server, o)
  {
  }

  lemma {:induction false} ExecConserves(s: State, ops: seq<Op>)
    requires Conserved(s.server)
    ensures Conserved(Exec(s, ops).server)
    decreases |ops|
  {
    hide Conserved, Step;
    if ops != [] {
      StepDrivesServer(s, ops[0]);
      if ServerOp(s, ops[0]).Some? {
        StepConserves(s.server, ServerOp(s, ops[0]).value);
      }
      ExecConserves(Step(s, ops[0]), ops[1..]);
    }
  }

  /**
   * Listener conservation carries over to the whole protocol, which drives the server only by accepts, frames
   * and closes.
   */
  lemma TunnelConservesListeners(ops: seq<Op>)
    ensures Conserved(Exec(START, ops).server)
  {
    assert Conserved(START.server) by {
      assert Table(START.server) == map[];
    }
    hide Conserved, Exec;
    ExecConserves(START, ops);
  }
}

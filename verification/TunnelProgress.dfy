/**
 * What a control frame does at the server, and that delivering the frames of a connection brings the server's table
 * to the client's (internal/tunnel/server.go, internal/tunnel/client.go).
 */
module TunnelProgress {
  import opened Common
  import opened Network
  import opened Rules
  import opened TunnelServer
  import opened Tunnel
  import T = Tunnel

  // ---- One frame -----------------------------------------------------------

  /** Rule `id` of session `sid` and its public listener are in `t` what they were in `s`. */
  ghost predicate SameAt(s: Server, t: Server, sid: nat, id: string) {
    && (IsOpen(t, sid) <==> IsOpen(s, sid))
    && (IsOpen(s, sid) ==>
          && (id in t.sessions[sid].rules <==> id in s.sessions[sid].rules)
          && (id in s.sessions[sid].rules ==>
                var rs := s.sessions[sid].rules[id];
                && t.sessions[sid].rules[id] == rs
                && (rs.listener in s.net.bound ==>
                      rs.listener in t.net.bound && t.net.bound[rs.listener] == s.net.bound[rs.listener])))
  }

  /** No other rule has the listener of rule `id` of session `sid`. */
  lemma OwnListener(s: Server, sid: nat, id: string, j: nat, k: string)
    requires Exact(s) && IsOpen(s, sid) && id in s.sessions[sid].rules
    requires IsOpen(s, j) && k in s.sessions[j].rules && (j, k) != (sid, id)
    ensures s.sessions[sid].rules[id].listener != s.sessions[j].rules[k].listener
  {
    TableAt(s, sid, id);
    TableAt(s, j, k);
  }

  /**
   * A register frame: if the host grants an address at which nothing listens, the session has the rule as the client
   * sent it, with a listener at that address, and the listener it replaces is closed; if not, nothing changes. No
   * other rule of any session is touched.
   */
  lemma RegisterListensIff(s: Server, sid: nat, rule: ClientRule, answer: Option<Addr>)
    requires Conserved(s) && IsOpen(s, sid)
    ensures var t := Handle(s, sid, Register(rule), answer);
            var before := s.sessions[sid].rules;
            && IsOpen(t, sid)
            && (if answer.Some? && forall h <- s.net.bound.Keys :: s.net.bound[h] != answer.value then
                  && rule.id in t.sessions[sid].rules
                  && var rs := t.sessions[sid].rules[rule.id];
                     && rs.rule == rule && rs.listener in t.net.bound && t.net.bound[rs.listener] == answer.value
                     && (rule.id in before ==> before[rule.id].listener !in t.net.bound)
                else t == s)
            && (forall j: nat, k: string | (j, k) != (sid, rule.id) :: SameAt(s, t, j, k))
  {
    hide Exact;
    var t := Handle(s, sid, Register(rule), answer);
    assert answer.Some? ==>
      ((exists h :: h in s.net.bound && s.net.bound[h] == answer.value) <==> answer.value in s.net.bound.Values);
    assert s.net.ledger.next !in s.net.bound by {
      NextIsNew(s);
    }
    assert s.sessions[sid := s.sessions[sid]] == s.sessions;
    forall j: nat, k: string | (j, k) != (sid, rule.id) ensures SameAt(s, t, j, k) {
      if rule.id in s.sessions[sid].rules && IsOpen(s, j) && k in s.sessions[j].rules {
        OwnListener(s, sid, rule.id, j, k);
      }
    }
  }

  lemma NextIsNew(s: Server)
    requires Exact(s)
    ensures s.net.ledger.next !in s.net.bound
  {
  }

  /** An unregister frame closes the rule's listener and forgets it, and touches no other. */
  lemma UnregisterCloses(s: Server, sid: nat, id: string, answer: Option<Addr>)
    requires Conserved(s) && IsOpen(s, sid)
    ensures var t := Handle(s, sid, Unregister(id), answer);
            && IsOpen(t, sid) && id !in t.sessions[sid].rules
            && (id in s.sessions[sid].rules ==> s.sessions[sid].rules[id].listener !in t.net.bound)
            && (forall j: nat, k: string | (j, k) != (sid, id) :: SameAt(s, t, j, k))
  {
    hide Exact;
    var t := Handle(s, sid, Unregister(id), answer);
    forall j: nat, k: string | (j, k) != (sid, id) ensures SameAt(s, t, j, k) {
      if id in s.sessions[sid].rules && IsOpen(s, j) && k in s.sessions[j].rules {
        OwnListener(s, sid, id, j, k);
      }
    }
  }

  // ---- Refusals ------------------------------------------------------------

  /** The host opens a new address for every frame that asks for one. */
  ghost predicate AllNew(net: Net, answers: seq<Option<Addr>>) {
    && (forall i | 0 <= i < |answers| ::
          answers[i].Some? && forall h <- net.bound.Keys :: net.bound[h] != answers[i].value)
    && (forall i, j | 0 <= i < j < |answers| :: answers[i] != answers[j])
  }

  /** A frame binds the address it is granted at most. */
  lemma HandleBinds(rules: map<string, RuleState>, net: Net, f: Frame, answer: Option<Addr>)
    ensures var n := HandleIn(rules, net, f, answer).1;
            forall h <- n.bound.Keys ::
              (h in net.bound && n.bound[h] == net.bound[h]) || (answer.Some? && n.bound[h] == answer.value)
  {
  }

  /** Then every request comes into force. */
  lemma {:induction false} NewAddressesComeIntoForce(
    rules: map<string, RuleState>, net: Net, frames: seq<Frame>, answers: seq<Option<Addr>>)
    requires |answers| == |frames| && AllNew(net, answers)
    ensures AllInForce(rules, net, frames, answers)
    decreases |frames|
  {
    if frames != [] {
      var (r, n) := HandleIn(rules, net, frames[0], answers[0]);
      HandleBinds(rules, net, frames[0], answers[0]);
      assert AllNew(n, answers[1..]);
      NewAddressesComeIntoForce(r, n, frames[1..], answers[1..]);
      assert answers[0].value !in net.bound.Values;
    }
  }

  /** The request in the frame is refused, and the rule does not listen where it asks to as it is. */
  predicate RefusedFor(s: Server, sid: nat, f: Frame, answer: Option<Addr>, id: string)
    requires IsOpen(s, sid)
  {
    && f.Register? && f.rule.id == id && !Accepts(s.net, answer)
    && (id in s.sessions[sid].rules ==> s.sessions[sid].rules[id].rule.listen != f.rule.listen)
  }

  /**
   * A rule is stale exactly while its last request on the current session was refused: each delivered request about it
   * decides, and nothing else makes a rule stale.
   */
  lemma StaleIff(s: State, op: T.Op, id: string)
    ensures var t := T.Step(s, op);
            if op.Deliver? && s.cur == Some(op.sid) && IsOpen(s.server, op.sid) && op.sid in s.wires &&
               s.wires[op.sid] != [] && s.wires[op.sid][0].Register? && s.wires[op.sid][0].rule.id == id then
              id in t.stale <==> RefusedFor(s.server, op.sid, s.wires[op.sid][0], op.answer, id)
            else
              && (id in t.stale ==> id in s.stale)
              && (t.cur == s.cur && !op.Connect? ==> (id in t.stale <==> id in s.stale))
  {
  }

  // ---- Delivering ----------------------------------------------------------

  function Deliveries(sid: nat, answers: seq<Option<Addr>>): seq<T.Op> {
    if answers == [] then [] else [Deliver(sid, answers[0])] + Deliveries(sid, answers[1..])
  }

  lemma DeliverOne(s: State, sid: nat, answers: seq<Option<Addr>>)
    requires s.cur == Some(sid) && sid in s.wires && IsOpen(s.server, sid) && |answers| == |s.wires[sid]| > 0
    ensures var t := T.Step(s, Deliver(sid, answers[0]));
            && t.cur == Some(sid) && t.rules == s.rules && sid in t.wires && t.wires[sid] == s.wires[sid][1..]
            && IsOpen(t.server, sid) && Settled(t, answers[1..]) == Settled(s, answers)
  {
    hide HandleIn;
  }

  /** Delivering what is under way takes the table of an open session to where working through it leads. */
  lemma {:induction false} DeliveriesSettle(s: State, sid: nat, answers: seq<Option<Addr>>)
    requires s.cur == Some(sid) && sid in s.wires && IsOpen(s.server, sid) && |answers| == |s.wires[sid]|
    ensures var t := T.Exec(s, Deliveries(sid, answers));
            && t.cur == Some(sid) && t.rules == s.rules && sid in t.wires && t.wires[sid] == []
            && IsOpen(t.server, sid) && t.server.sessions[sid].rules == Settled(s, answers)
    decreases |answers|
  {
    hide T.Step;
    if answers != [] {
      var op := Deliver(sid, answers[0]);
      DeliverOne(s, sid, answers);
      hide Settled;
      DeliveriesSettle(T.Step(s, op), sid, answers[1..]);
      assert Deliveries(sid, answers)[1..] == Deliveries(sid, answers[1..]);
    }
  }

  lemma ReplayFacts(s: State, order: seq<string>)
    requires Inv(s) && s.cur.Some? && Walks(order, s.rules.Keys)
    ensures var t, sid := T.Step(s, Replay(order)), s.cur.value;
            && Inv(t) && t.cur == s.cur && t.replayed && t.rules == s.rules && t.server == s.server
            && sid in t.wires && sid in t.server.sessions
            && forall id <- s.rules.Keys :: LastAbout(t.wires[sid], id).Some?
  {
    var t, sid := T.Step(s, Replay(order)), s.cur.value;
    ReplayKeepsInv(s, order);
    forall id | id in s.rules ensures LastAbout(t.wires[sid], id).Some? {
      LastAboutReplay(s.rules, order, id);
      LastAboutConcat(s.wires[sid], ReplayFrames(s.rules, order), id);
    }
  }

  /**
   * From every reachable state in which the client has a connection whose session is open: replaying the rules, in any
   * order, and delivering everything under way leaves the server's table with no rule that the client does not hold;
   * and if the binds come into force, with exactly the client's rules, each on the listen address the client has for
   * it, whatever was refused on the session before.
   */
  lemma ReplayBringsAgreement(ops: seq<T.Op>, order: seq<string>, answers: seq<Option<Addr>>)
    requires var s := T.Exec(START, ops);
             && s.cur.Some? && IsOpen(s.server, s.cur.value) && Walks(order, s.rules.Keys)
    ensures var s := T.Exec(START, ops);
            var sid, r := s.cur.value, T.Step(s, Replay(order));
            && sid in r.wires && sid in r.server.sessions
            && (|answers| == |r.wires[sid]| ==>
                  var t := T.Exec(r, Deliveries(sid, answers));
                  && t.rules == s.rules && IsOpen(t.server, sid)
                  && var table := t.server.sessions[sid].rules;
                     && table.Keys <= s.rules.Keys
                     && (AllInForce(r.server.sessions[sid].rules, r.server.net, r.wires[sid], answers) ==>
                           table.Keys == s.rules.Keys &&
                           forall id <- table.Keys :: table[id].rule.listen == s.rules[id].listen))
  {
    hide Inv, T.Step, T.Exec, Settled, AllInForce, Deliveries;
    StartInv();
    T.ExecKeepsInv(START, ops);
    var s := T.Exec(START, ops);
    var sid, r := s.cur.value, T.Step(s, Replay(order));
    ReplayFacts(s, order);
    if |answers| == |r.wires[sid]| {
      DeliveriesSettle(r, sid, answers);
      SettledAgrees(r, answers);
      assert forall id <- s.rules.Keys :: id !in r.stale || LastAbout(r.wires[sid], id).Some?;
    }
  }

  /** An edit changes the table, and on a connection it is the last word about its ID. */
  lemma EditsSay(s: State, rule: ClientRule, id: string)
    requires Inv(s)
    ensures var t := T.Step(s, Add(rule));
            && t.rules == s.rules[rule.id := rule]
            && (s.cur.Some? ==> LastAbout(t.wires[s.cur.value], rule.id) == Some(Register(rule)))
    ensures var t := T.Step(s, Remove(id));
            && t.rules == s.rules - {id}
            && (s.cur.Some? ==> LastAbout(t.wires[s.cur.value], id) == Some(Unregister(id)))
  {
    if s.cur.Some? {
      LastAboutConcat(s.wires[s.cur.value], [Register(rule)], rule.id);
      LastAboutConcat(s.wires[s.cur.value], [Unregister(id)], id);
    }
  }

  /** Losing the connection and dialling again opens a session with an empty table; the rules are kept. */
  lemma ReconnectOpens(s: State, sid: nat)
    requires sid !in s.server.sessions
    ensures var t := T.Step(T.Step(s, Lose), Connect(sid));
            && t.cur == Some(sid) && t.rules == s.rules && IsOpen(t.server, sid)
            && t.server.sessions[sid].rules == map[] && t.wires[sid] == []
  {
  }

  lemma {:induction false} RunsJoin(s: State, p: seq<T.Op>, q: seq<T.Op>)
    ensures T.Exec(s, p + q) == T.Exec(T.Exec(s, p), q)
    decreases |p|
  {
    if p == [] {
      assert p + q == q;
    } else {
      assert (p + q)[1..] == p[1..] + q;
      RunsJoin(T.Step(s, p[0]), p[1..], q);
    }
  }

  lemma RunTwo(s: State, a: T.Op, b: T.Op)
    ensures T.Exec(s, [a, b]) == T.Step(T.Step(s, a), b)
  {
    hide T.Step;
    assert [a, b][1..] == [b] && [b][1..] == [];
    assert T.Exec(T.Step(s, a), [b]) == T.Exec(T.Step(T.Step(s, a), b), []);
  }

  /** So from every reachable state, connected or not, reconnecting to a new session leads to agreement. */
  lemma ReconnectBringsAgreement(ops: seq<T.Op>, sid: nat, order: seq<string>, answers: seq<Option<Addr>>)
    requires var s := T.Exec(START, ops); sid !in s.server.sessions && Walks(order, s.rules.Keys)
    ensures var s := T.Exec(START, ops);
            var r := T.Step(T.Step(T.Step(s, Lose), Connect(sid)), Replay(order));
            && sid in r.wires && sid in r.server.sessions
            && (|answers| == |r.wires[sid]| &&
                AllInForce(r.server.sessions[sid].rules, r.server.net, r.wires[sid], answers) ==>
                  var t := T.Exec(r, Deliveries(sid, answers));
                  && t.rules == s.rules && IsOpen(t.server, sid)
                  && var table := t.server.sessions[sid].rules;
                     && table.Keys == s.rules.Keys
                     && forall id <- table.Keys :: table[id].rule.listen == s.rules[id].listen)
  {
    hide T.Step, T.Exec, AllInForce, Deliveries;
    var s := T.Exec(START, ops);
    RunsJoin(START, ops, [Lose, Connect(sid)]);
    RunTwo(s, Lose, Connect(sid));
    ReconnectOpens(s, sid);
    ReplayBringsAgreement(ops + [Lose, Connect(sid)], order, answers);
  }

  /** In particular if the host opens a new address for every frame. */
  lemma ReconnectAgreesOnNewAddresses(ops: seq<T.Op>, sid: nat, order: seq<string>, answers: seq<Option<Addr>>)
    requires var s := T.Exec(START, ops); sid !in s.server.sessions && Walks(order, s.rules.Keys)
    ensures var s := T.Exec(START, ops);
            var r := T.Step(T.Step(T.Step(s, Lose), Connect(sid)), Replay(order));
            && sid in r.wires
            && (|answers| == |r.wires[sid]| && AllNew(r.server.net, answers) ==>
                  var t := T.Exec(r, Deliveries(sid, answers));
                  && t.rules == s.rules && IsOpen(t.server, sid)
                  && var table := t.server.sessions[sid].rules;
                     && table.Keys == s.rules.Keys
                     && forall id <- table.Keys :: table[id].rule.listen == s.rules[id].listen)
  {
    hide T.Step, T.Exec, AllInForce, Deliveries, AllNew;
    ReconnectBringsAgreement(ops, sid, order, answers);
    var r := T.Step(T.Step(T.Step(T.Exec(START, ops), Lose), Connect(sid)), Replay(order));
    if |answers| == |r.wires[sid]| && AllNew(r.server.net, answers) {
      NewAddressesComeIntoForce(r.server.sessions[sid].rules, r.server.net, r.wires[sid], answers);
    }
  }

  lemma StartInv()
    ensures Inv(START)
  {
  }
}

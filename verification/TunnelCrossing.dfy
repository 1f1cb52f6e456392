/**
 * When a public connection that waits for its data connection can be relayed to another one's: connIDs start again
 * in each session of the server, and data addresses are reused (internal/tunnel/server.go).
 */
module TunnelCrossing {
  import opened Common
  import opened Network
  import opened Protocol
  import opened TunnelOpen

  /** The public connection is relayed to a data connection that was dialled for another one's open frame. */
  predicate Crossed(s: State, pub: nat) {
    pub in s.opens && s.opens[pub].pc.Relaying? && !WellPaired(s, pub)
  }

  /** The data connection waits at the listener of `pub`. */
  predicate Queued(s: State, pub: nat, d: nat)
    requires pub in s.opens
  {
    d in s.datas && d !in s.accepted && s.datas[d].listener == s.opens[pub].listener
  }

  /** The data connection will present, or has presented, a connID that was meant for another connection. */
  predicate Mistaken(s: State, pub: nat, d: nat)
    requires pub in s.opens && d in s.datas
  {
    Mistakable(s, pub, s.datas[d].frame) && !s.datas[d].pc.Silent?
  }

  /**
   * What can still go wrong for a waiting connection: the first data connection at its listener is mistaken, or none
   * is there yet and a frame it can be mistaken for has not been dialled for.
   */
  ghost predicate Crossable(s: State, pub: nat)
    requires pub in s.opens
  {
    || (exists d :: Queued(s, pub, d) && First(s, d) && Mistaken(s, pub, d))
    || ((forall d :: !Queued(s, pub, d)) && exists f <- s.frames :: f !in s.spent && Mistakable(s, pub, f))
  }

  // ---- More of the invariant -----------------------------------------------

  /** Later dials have higher turns. */
  ghost predicate TurnsInv(s: State) {
    forall d <- s.datas.Keys :: s.datas[d].turn < |s.datas|
  }

  ghost predicate Base(s: State) {
    Inv(s) && AddressInv(s) && TurnsInv(s) && Injective(s.net.bound)
  }

  lemma BoundStaysInjective(s: State, op: Op)
    requires Injective(s.net.bound) && ListenersInv(s)
    ensures Injective(Step(s, op).net.bound)
  {
    if op.Server? && op.pub in s.opens && Enabled(s, s.opens[op.pub], op.op) {
      ServerStepListener(s, op.pub, op.op);
      var o := op.op;
      if o.ListenData? && Accepts(s.net, o.answer) {
        OpenInjective(s.net, o.answer.value);
      }
    }
  }

  lemma OpenInjective(n: Net, addr: Addr)
    requires Injective(n.bound) && addr !in n.bound.Values
    ensures Injective(Open(n, addr).bound)
  {
    var m := Open(n, addr).bound;
    forall j, k | j in m && k in m && m[j] == m[k] ensures j == k {
      assert j in n.bound && j != n.ledger.next ==> m[j] in n.bound.Values;
      assert k in n.bound && k != n.ledger.next ==> m[k] in n.bound.Values;
    }
  }

  lemma StepKeepsTurns(s: State, op: Op)
    requires TurnsInv(s)
    ensures TurnsInv(Step(s, op))
  {
  }

  lemma StepKeepsBase(s: State, op: Op)
    requires Base(s)
    ensures Base(Step(s, op))
  {
    hide Inv, ListenersInv, Injective, TurnsInv, Step;
    StepKeepsInv(s, op);
    StepKeepsAddresses(s, op);
    StepKeepsTurns(s, op);
    BoundStaysInjective(s, op);
  }

  lemma {:induction false} ExecKeepsBase(s: State, ops: seq<Op>)
    requires Base(s)
    ensures Base(Exec(s, ops))
    decreases |ops|
  {
    hide Base, Step;
    if ops != [] {
      StepKeepsBase(s, ops[0]);
      ExecKeepsBase(Step(s, ops[0]), ops[1..]);
    }
  }

  // ---- When it cannot go wrong ---------------------------------------------

  /** The connection is, or has been, waiting, and no schedule from here on crosses it. */
  ghost predicate Safe(s: State, pub: nat) {
    && pub in s.opens
    && match s.opens[pub].pc
       case Waiting => !Crossable(s, pub)
       case Checking(d) => d in s.datas && !Mistaken(s, pub, d)
       case Relaying(d) => d in s.datas && !Mistakable(s, pub, s.datas[d].frame)
       case Over => true
       case _ => false
  }

  lemma SafeIsNotCrossed(s: State, pub: nat)
    requires Base(s) && Safe(s, pub)
    ensures !Crossed(s, pub)
  {
    if s.opens[pub].pc.Relaying? {
      var d := RelayedFrame(s, pub);
    }
  }

  /** A step of its own. */
  lemma OwnStepKeepsSafe(s: State, pub: nat, op: ServerOp)
    requires Safe(s, pub) && Enabled(s, s.opens[pub], op)
    ensures Safe(ServerStep(s, pub, op), pub)
  {
  }

  /** What another connection's step leaves alone. */
  lemma OtherStepFacts(s: State, q: nat, op: ServerOp, pub: nat)
    requires Base(s) && pub in s.opens && q in s.opens && q != pub && Enabled(s, s.opens[q], op)
    requires HasListener(s.opens[pub])
    ensures var t := ServerStep(s, q, op);
            && pub in t.opens && t.opens[pub] == s.opens[pub] && t.datas == s.datas && t.spent == s.spent
            && (forall d | d in s.datas && s.datas[d].listener == s.opens[pub].listener ::
                  d in t.accepted <==> d in s.accepted)
            && (forall f <- t.frames :: f in s.frames || !Mistakable(s, pub, f))
  {
    hide Inv, TurnsInv;
    ServerStepListener(s, q, op);
    if op.AcceptData? {
      assert HasListener(s.opens[q]);
    }
    if op.SendOpen? {
      assert HasListener(s.opens[q]) && s.opens[q].addr != s.opens[pub].addr;
    }
  }

  lemma OtherStepKeepsSafe(s: State, q: nat, op: ServerOp, pub: nat)
    requires Base(s) && Safe(s, pub) && q in s.opens && q != pub && Enabled(s, s.opens[q], op)
    ensures Safe(ServerStep(s, q, op), pub)
  {
    hide Base, ServerStep, Enabled;
    var t := ServerStep(s, q, op);
    if s.opens[pub].pc.Over? {
      OverStays(s, q, op, pub);
    } else {
      OtherStepFacts(s, q, op, pub);
      assert forall d :: Queued(t, pub, d) <==> Queued(s, pub, d);
      forall d | Queued(t, pub, d) && First(t, d) ensures First(s, d) {
      }
    }
  }

  lemma OverStays(s: State, q: nat, op: ServerOp, pub: nat)
    requires q in s.opens && q != pub && Enabled(s, s.opens[q], op) && pub in s.opens && s.opens[pub].pc.Over?
    ensures Safe(ServerStep(s, q, op), pub)
  {
  }

  /** What a step of the client, or a new connection, leaves alone. */
  lemma ClientStepLeaves(s: State, op: Op, pub: nat)
    requires pub in s.opens && !op.Server?
    ensures var t := Step(s, op);
            && pub in t.opens && t.opens[pub] == s.opens[pub] && t.accepted == s.accepted && t.frames == s.frames
            && s.spent <= t.spent
  {
  }

  lemma ClientStepMoves(s: State, op: Op, d: nat)
    requires d in s.datas && !op.Server?
    ensures var t := Step(s, op);
            && d in t.datas && t.datas[d] == s.datas[d].(pc := t.datas[d].pc)
            && (s.datas[d].pc.Silent? ==> t.datas[d].pc.Silent?)
  {
  }

  lemma ClientStepDials(s: State, op: Op, d: nat)
    requires d !in s.datas && !op.Server?
    ensures var t := Step(s, op);
            d in t.datas ==>
              t.datas[d].frame in s.frames && t.datas[d].frame !in s.spent && t.datas[d].turn == |s.datas|
  {
  }

  lemma ClientStepFacts(s: State, op: Op, pub: nat, d: nat)
    requires pub in s.opens && !op.Server?
    ensures var t := Step(s, op);
            && pub in t.opens && t.opens[pub] == s.opens[pub] && t.accepted == s.accepted && t.frames == s.frames
            && s.spent <= t.spent
            && (d in s.datas ==>
                  && d in t.datas && t.datas[d] == s.datas[d].(pc := t.datas[d].pc)
                  && (s.datas[d].pc.Silent? ==> t.datas[d].pc.Silent?))
            && (d in t.datas && d !in s.datas ==>
                  && t.datas[d].frame in s.frames && t.datas[d].frame !in s.spent && t.datas[d].turn == |s.datas|)
  {
    hide Step;
    ClientStepLeaves(s, op, pub);
    if d in s.datas {
      ClientStepMoves(s, op, d);
    } else {
      ClientStepDials(s, op, d);
    }
  }

  /** A dial that comes second changes nothing, and one that comes first is for a frame that was not dialled for. */
  lemma ClientStepAddsNoCrossing(s: State, op: Op, pub: nat)
    requires TurnsInv(s) && pub in s.opens && !op.Server?
    ensures pub in Step(s, op).opens && (Crossable(Step(s, op), pub) ==> Crossable(s, pub))
  {
    hide Step, Mistakable;
    var t := Step(s, op);
    ClientStepFacts(s, op, pub, 0);
    forall d ensures Queued(s, pub, d) ==> Queued(t, pub, d) {
      ClientStepFacts(s, op, pub, d);
    }
    if d :| Queued(t, pub, d) && First(t, d) && Mistaken(t, pub, d) {
      ClientStepFacts(s, op, pub, d);
      SameMistakable(s, t, pub, t.datas[d].frame);
      if d in s.datas {
        forall e | e in s.datas && e !in s.accepted && s.datas[e].listener == s.datas[d].listener
          ensures s.datas[d].turn <= s.datas[e].turn
        {
          ClientStepFacts(s, op, pub, e);
        }
        assert Queued(s, pub, d) && First(s, d) && Mistaken(s, pub, d);
      } else if e :| Queued(s, pub, e) {
        ClientStepFacts(s, op, pub, e);
        assert false;
      } else {
        assert Mistakable(s, pub, t.datas[d].frame);
      }
    }
    if f :| f in t.frames && f !in t.spent && Mistakable(t, pub, f) {
      SameMistakable(s, t, pub, f);
    }
  }

  lemma SameMistakable(s: State, t: State, pub: nat, f: OpenFrame)
    requires pub in s.opens && pub in t.opens && t.opens[pub] == s.opens[pub]
    ensures Mistakable(t, pub, f) <==> Mistakable(s, pub, f)
  {
  }

  lemma ClientStepKeepsSafe(s: State, op: Op, pub: nat)
    requires TurnsInv(s) && Safe(s, pub) && !op.Server?
    ensures Safe(Step(s, op), pub)
  {
    hide Step, Mistakable, TurnsInv;
    var t := Step(s, op);
    match s.opens[pub].pc
    case Waiting =>
      ClientStepAddsNoCrossing(s, op, pub);
      ClientStepFacts(s, op, pub, 0);
    case Checking(d) =>
      ClientStepFacts(s, op, pub, d);
      SameMistakable(s, t, pub, s.datas[d].frame);
    case Relaying(d) =>
      ClientStepFacts(s, op, pub, d);
      SameMistakable(s, t, pub, s.datas[d].frame);
    case Over => ClientStepFacts(s, op, pub, 0);
    case _ =>
  }

  lemma {:induction false} SafeStaysSafe(s: State, ops: seq<Op>, pub: nat)
    requires Base(s) && Safe(s, pub)
    ensures !Crossed(Exec(s, ops), pub)
    decreases |ops|
  {
    hide Inv, AddressInv, Injective, Enabled, ServerStep, TurnsInv, Crossed;
    if ops == [] {
      SafeIsNotCrossed(s, pub);
    } else {
      var op := ops[0];
      StepKeepsBase(s, op);
      if !op.Server? {
        ClientStepKeepsSafe(s, op, pub);
      } else if op.pub in s.opens && Enabled(s, s.opens[op.pub], op.op) {
        if op.pub == pub {
          OwnStepKeepsSafe(s, pub, op.op);
        } else {
          OtherStepKeepsSafe(s, op.pub, op.op, pub);
        }
      }
      SafeStaysSafe(Step(s, op), ops[1..], pub);
    }
  }

  // ---- When it can ---------------------------------------------------------

  /** The first data connection at the listener is accepted and passes the check. */
  lemma FirstIsRelayed(s: State, pub: nat, d: nat) returns (more: seq<Op>)
    requires pub in s.opens && s.opens[pub].pc == Waiting && Queued(s, pub, d) && First(s, d)
    requires !s.datas[d].pc.Silent? && s.datas[d].frame.connID == ConnID(s.opens[pub])
    ensures var t := Exec(s, more);
            && pub in t.opens && t.opens[pub] == s.opens[pub].(pc := Relaying(d))
            && d in t.datas && t.datas[d].frame == s.datas[d].frame && t.rules == s.rules
            && (s.datas[d].pc.Dialled? ==> t.datas[d].pc == Headed)
    ensures forall op <- more :: !op.SetRule? && !op.DropRule?
  {
    HeaderRoundTrip(s.datas[d].frame.connID);
    var s1 := Step(s, WriteHeader(d, true));
    assert s1 == s.(datas := s1.datas) && s1.datas[d] == s.datas[d].(pc := s1.datas[d].pc);
    assert !s1.datas[d].pc.Dialled? && !s1.datas[d].pc.Silent?;
    assert First(s1, d);
    var s2 := Step(s1, Server(pub, AcceptData(d)));
    assert s2.opens == s.opens[pub := s.opens[pub].(pc := Checking(d))] && s2.datas == s1.datas;
    assert Matches(s2.opens[pub], s2.datas[d], false);
    var s3 := Step(s2, Server(pub, Check(false)));
    more := [WriteHeader(d, true), Server(pub, AcceptData(d)), Server(pub, Check(false))];
    Three(s, more[0], more[1], more[2]);
  }

  lemma Three(s: State, a: Op, b: Op, c: Op)
    ensures Exec(s, [a, b, c]) == Step(Step(Step(s, a), b), c)
  {
    hide Step;
    var s1 := Step(s, a);
    assert [a, b, c][1..] == [b, c] && [b, c][1..] == [c] && [c][1..] == [];
    assert Exec(s1, [b, c]) == Exec(Step(s1, b), [c]);
    assert Exec(Step(s1, b), [c]) == Exec(Step(Step(s1, b), c), []);
  }

  lemma FreshNumber(used: set<nat>) returns (n: nat)
    ensures n !in used && forall k <- used :: k < n
  {
    if used == {} {
      n := 0;
    } else {
      var k :| k in used;
      n := FreshNumber(used - {k});
      n := if n <= k then k + 1 else n;
      assert forall j <- used :: j == k || j in used - {k};
    }
  }

  /** A dial for a frame reaches the listener of `pub`, and no other is there. */
  lemma DialArrives(s: State, pub: nat, i: nat, d: nat)
    requires pub in s.opens && (forall e :: !Queued(s, pub, e)) && d !in s.datas && d !in s.accepted
    requires i < |s.frames| && s.frames[i] !in s.spent && CanReach(s.net, s.opens[pub].listener, s.frames[i])
    ensures var t := Step(s, DialBack(d, i, s.opens[pub].listener));
            && t.opens == s.opens && Queued(t, pub, d) && First(t, d)
            && t.datas[d].frame == s.frames[i] && t.datas[d].pc.Dialled? && t.rules == s.rules
  {
    var t := Step(s, DialBack(d, i, s.opens[pub].listener));
    forall e | e in t.datas && e !in t.accepted && t.datas[e].listener == t.datas[d].listener
      ensures e == d
    {
      assert e in s.datas ==> !Queued(s, pub, e);
    }
  }

  /** A frame that was not dialled for yet is, and its connection is relayed. */
  lemma FrameIsRelayed(s: State, pub: nat, i: nat) returns (more: seq<Op>, d: nat)
    requires pub in s.opens && s.opens[pub].pc == Waiting && (forall e :: !Queued(s, pub, e))
    requires i < |s.frames| && s.frames[i] !in s.spent && CanReach(s.net, s.opens[pub].listener, s.frames[i])
    requires s.frames[i].connID == ConnID(s.opens[pub])
    ensures var t := Exec(s, more);
            && pub in t.opens && t.opens[pub] == s.opens[pub].(pc := Relaying(d))
            && d in t.datas && t.datas[d].frame == s.frames[i] && t.datas[d].pc == Headed && t.rules == s.rules
    ensures forall op <- more :: !op.SetRule? && !op.DropRule?
  {
    d := FreshNumber(s.datas.Keys + s.accepted);
    var op := DialBack(d, i, s.opens[pub].listener);
    DialArrives(s, pub, i, d);
    hide Step, First, Queued;
    var rest := FirstIsRelayed(Step(s, op), pub, d);
    more := [op] + rest;
    assert more[1..] == rest;
  }

  lemma CrossableCrosses(s: State, pub: nat) returns (more: seq<Op>)
    requires Base(s) && pub in s.opens && s.opens[pub].pc == Waiting && Crossable(s, pub)
    ensures Crossed(Exec(s, more), pub)
  {
    hide Inv, Step, Exec, First, Injective, TurnsInv;
    assert HasListener(s.opens[pub]);
    if d :| Queued(s, pub, d) && First(s, d) && Mistaken(s, pub, d) {
      more := FirstIsRelayed(s, pub, d);
    } else {
      var f :| f in s.frames && f !in s.spent && Mistakable(s, pub, f);
      var i :| 0 <= i < |s.frames| && s.frames[i] == f;
      var d;
      more, d := FrameIsRelayed(s, pub, i);
    }
  }

  lemma StartBase()
    ensures Base(START)
  {
  }

  /**
   * The exact condition. In every reachable state in which a public connection waits for its data connection, some
   * schedule relays it to one that was dialled for another connection's open frame if and only if the first data
   * connection at its listener was, and its frame has the same connID and data address, or none is there yet and such
   * a frame has been sent and not dialled for.
   */
  lemma CrossingPossibleIff(ops: seq<Op>, pub: nat)
    requires pub in Exec(START, ops).opens && Exec(START, ops).opens[pub].pc == Waiting
    ensures (exists more :: Crossed(Exec(Exec(START, ops), more), pub)) <==> Crossable(Exec(START, ops), pub)
  {
    hide Base, Exec, Crossed, Crossable;
    StartBase();
    ExecKeepsBase(START, ops);
    var s := Exec(START, ops);
    if Crossable(s, pub) {
      var more := CrossableCrosses(s, pub);
    } else {
      forall more ensures !Crossed(Exec(s, more), pub) {
        SafeStaysSafe(s, more, pub);
      }
    }
  }

  // ---- A run that crosses --------------------------------------------------

  /** Session 0 sends an open frame and gives up waiting. */
  function GivenUp(): State {
    Step(FrameSteps(START, 0, 0, "a", "x"), Server(0, Deadline))
  }

  /** Then session 1 sends one from the same address. */
  function Reused(): State {
    FrameSteps(GivenUp(), 1, 1, "b", "x")
  }

  lemma DeadlineStep(s: State, pub: nat)
    requires pub in s.opens && s.opens[pub].pc == Waiting
    ensures Step(s, Server(pub, Deadline)) ==
            s.(opens := s.opens[pub := s.opens[pub].(pc := Over)], net := Close(s.net, s.opens[pub].listener))
  {
  }

  lemma GivenUpResult()
    ensures var t := GivenUp();
            && t.opens.Keys == {0} && t.issued == map[0 := 1] && t.frames == [OpenFrame(0, 0, "a", 1, "x")]
            && t.net.bound == map[] && t.net.ledger.next == 1 && t.datas == map[] && t.accepted == {} && t.spent == {}
  {
    hide FrameSteps, Step;
    var s, t := FrameSteps(START, 0, 0, "a", "x"), GivenUp();
    FrameStepsResult(START, 0, 0, "a", "x");
    DeadlineStep(s, 0);
    assert t.opens.Keys == {0} && t.net.bound == map[];
  }

  lemma ReusedResult()
    ensures var u := Reused();
            && 1 in u.opens && u.opens[1] == Opening(1, "b", Waiting, 1, "x", 1)
            && 1 in u.net.bound && u.net.bound[1] == "x" && u.datas == map[] && u.accepted == {} && u.spent == {}
            && |u.frames| > 0 && u.frames[0] == OpenFrame(0, 0, "a", 1, "x")
  {
    hide FrameSteps, GivenUp;
    GivenUpResult();
    FrameStepsResult(GivenUp(), 1, 1, "b", "x");
  }

  /**
   * Across sessions the pairing can go wrong. In this run session 0 gives up waiting on an address, session 1 gets the
   * same address for its first data listener, and only then the client's dial for session 0's open frame arrives.
   */
  lemma LateDialCrossesSessions() returns (ops: seq<Op>, d: nat)
    ensures var s := Exec(START, ops);
            && 1 in s.opens && s.opens[1].pc == Relaying(d) && s.opens[1].rule == "b"
            && d in s.datas && s.datas[d].frame.rule == "a" && Crossed(s, 1)
  {
    hide FrameSteps, Step, Exec;
    assert Exec(START, []) == START by {
      NoSteps();
    }
    ops := ThenFrameSteps([], 0, 0, "a", "x");
    ops := Then(ops, Server(0, Deadline));
    ops := ThenFrameSteps(ops, 1, 1, "b", "x");
    assert Exec(START, ops) == Reused();
    ReusedResult();
    var more;
    more, d := FrameIsRelayed(Reused(), 1, 0);
    ExecConcat(START, ops, more);
    ops := ops + more;
  }

  lemma NoSteps()
    ensures Exec(START, []) == START
  {
  }
}

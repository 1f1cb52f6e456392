/**
 * internal/forward/forward.go as a step machine: two goroutines copy in opposite directions between
 * connections 0 (`a`) and 1 (`b`); pipe `i` writes to connection `i` and reads from the other one.
 */
module Relay {
  type Byte = nat
  type Side = i: nat | i < 2

  function Other(i: Side): Side {
    1 - i
  }

  /** Where one pipe stands. The flag `clean` says that the copy ended with end of stream, not with an error. */
  datatype Pc =
    | Reading
    | Writing(buf: seq<Byte>)
    | Copied(clean: bool)      // io.Copy has returned
    | HalfClosed(clean: bool)  // about to call terminate
    | ClosingA(clean: bool)    // inside the once body
    | ClosingB(clean: bool)
    | Finished(clean: bool)    // wg.Done has been called

  /** One direction: what the far peer of the source sent, how much was read, and what reached the destination. */
  datatype Pipe = Pipe(sent: seq<Byte>, eof: bool, taken: nat, delivered: seq<Byte>, pc: Pc)

  /** One connection. `tcp` decides whether its write half can be closed on its own. */
  datatype End = End(tcp: bool, closed: bool, writeClosed: bool, reset: bool)

  datatype Once = Fresh | Held(owner: Side) | Spent

  datatype State = State(pipes: seq<Pipe>, ends: seq<End>, once: Once, terminations: nat)

  predicate WellFormed(s: State) {
    |s.pipes| == 2 && |s.ends| == 2
  }

  function Init(tcpA: bool, tcpB: bool): (s: State)
    ensures WellFormed(s)
  {
    var pipe := Pipe([], false, 0, [], Reading);
    State([pipe, pipe], [End(tcpA, false, false, false), End(tcpB, false, false, false)], Fresh, 0)
  }

  datatype Op =
    | PeerSends(i: Side, bytes: seq<Byte>)  // the peer of pipe i's source
    | PeerEnds(i: Side)
    | Reset(i: Side)                        // connection i breaks
    | Read(i: Side, n: nat)
    | Write(i: Side, n: nat)
    | CloseWriteHalf(i: Side)
    | EnterOnce(i: Side)
    | CloseA(i: Side)
    | CloseB(i: Side)
    | SkipOnce(i: Side)

  predicate CanRead(e: End) {
    !e.closed && !e.reset
  }

  predicate CanWrite(e: End) {
    !e.closed && !e.reset && !e.writeClosed
  }

  function WithPipe(s: State, i: Side, p: Pipe): (t: State)
    requires WellFormed(s)
    ensures WellFormed(t)
  {
    s.(pipes := s.pipes[i := p])
  }

  function WithPc(s: State, i: Side, pc: Pc): (t: State)
    requires WellFormed(s)
    ensures WellFormed(t)
  {
    WithPipe(s, i, s.pipes[i].(pc := pc))
  }

  function WithClosed(s: State, i: Side): (t: State)
    requires WellFormed(s)
    ensures WellFormed(t)
  {
    s.(ends := s.ends[i := s.ends[i].(closed := true)])
  }

  /** One round of io.Copy's read: an error, some bytes, end of stream, or nothing to read yet. */
  function ReadSome(p: Pipe, readable: bool, n: nat): Pipe {
    if !readable then p.(pc := Copied(false))
    else if 0 < n && p.taken + n <= |p.sent| then
      p.(taken := p.taken + n, pc := Writing(p.sent[p.taken..p.taken + n]))
    else if p.eof && p.taken == |p.sent| then p.(pc := Copied(true))
    else p
  }

  /** Its write: an error, or `n` more bytes of the buffer delivered. */
  function WriteSome(p: Pipe, writable: bool, n: nat): Pipe
    requires p.pc.Writing?
  {
    var buf := p.pc.buf;
    if !writable then p.(pc := Copied(false))
    else if 0 < n < |buf| then p.(delivered := p.delivered + buf[..n], pc := Writing(buf[n..]))
    else if n == |buf| then p.(delivered := p.delivered + buf, pc := Reading)
    else p
  }

  /** Steps that are not enabled change nothing. */
  function Step(s: State, op: Op): (t: State)
    requires WellFormed(s)
    ensures WellFormed(t)
  {
    match op
    case PeerSends(i, bytes) =>
      var p := s.pipes[i];
      if p.eof then s else WithPipe(s, i, p.(sent := p.sent + bytes))
    case PeerEnds(i) => WithPipe(s, i, s.pipes[i].(eof := true))
    case Reset(i) => s.(ends := s.ends[i := s.ends[i].(reset := true)])
    case Read(i, n) =>
      if s.pipes[i].pc.Reading? then WithPipe(s, i, ReadSome(s.pipes[i], CanRead(s.ends[Other(i)]), n)) else s
    case Write(i, n) =>
      if s.pipes[i].pc.Writing? then WithPipe(s, i, WriteSome(s.pipes[i], CanWrite(s.ends[i]), n)) else s
    case CloseWriteHalf(i) =>
      if !s.pipes[i].pc.Copied? then s
      else
        var t := WithPc(s, i, HalfClosed(s.pipes[i].pc.clean));
        if s.ends[i].tcp then t.(ends := s.ends[i := s.ends[i].(writeClosed := true)]) else WithClosed(t, i)
    case EnterOnce(i) =>
      if s.pipes[i].pc.HalfClosed? && s.once == Fresh then
        WithPc(s, i, ClosingA(s.pipes[i].pc.clean)).(once := Held(i), terminations := s.terminations + 1)
      else s
    case CloseA(i) =>
      if s.pipes[i].pc.ClosingA? then WithClosed(WithPc(s, i, ClosingB(s.pipes[i].pc.clean)), 0) else s
    case CloseB(i) =>
      if s.pipes[i].pc.ClosingB? then
        WithClosed(WithPc(s, i, Finished(s.pipes[i].pc.clean)), 1).(once := Spent)
      else s
    case SkipOnce(i) =>
      if s.pipes[i].pc.HalfClosed? && s.once == Spent then WithPc(s, i, Finished(s.pipes[i].pc.clean)) else s
  }

  function Exec(s: State, ops: seq<Op>): (t: State)
    requires WellFormed(s)
    ensures WellFormed(t)
    decreases |ops|
  {
    if ops == [] then s else Exec(Step(s, ops[0]), ops[1..])
  }

  /** `wg.Wait` lets Relay return. */
  predicate Returned(s: State)
    requires WellFormed(s)
  {
    s.pipes[0].pc.Finished? && s.pipes[1].pc.Finished?
  }

  // ---- Safety -------------------------------------------------------------

  predicate Copying(pc: Pc) {
    pc.Reading? || pc.Writing?
  }

  ghost predicate PipeInv(p: Pipe) {
    && p.taken <= |p.sent|
    && match p.pc
       case Reading => p.delivered == p.sent[..p.taken]
       case Writing(buf) => buf != [] && p.delivered + buf == p.sent[..p.taken]
       case _ => p.delivered <= p.sent && (p.pc.clean ==> p.eof && p.delivered == p.sent)
  }

  /** Pipe `i` and the shared once agree. */
  ghost predicate Agrees(pc: Pc, i: Side, once: Once, aClosed: bool) {
    && (pc.ClosingA? || pc.ClosingB? <==> once == Held(i))
    && (pc.ClosingB? ==> aClosed)
    && (pc.Finished? ==> once == Spent)
  }

  ghost predicate OnceInv(s: State)
    requires WellFormed(s)
  {
    && s.terminations == (if s.once == Fresh then 0 else 1)
    && (s.once == Spent ==> s.ends[0].closed && s.ends[1].closed)
    && Agrees(s.pipes[0].pc, 0, s.once, s.ends[0].closed)
    && Agrees(s.pipes[1].pc, 1, s.once, s.ends[0].closed)
  }

  ghost predicate Inv(s: State) {
    && WellFormed(s)
    && PipeInv(s.pipes[0]) && PipeInv(s.pipes[1])
    && OnceInv(s)
  }

  lemma ReadKeepsInv(p: Pipe, readable: bool, n: nat)
    requires PipeInv(p) && p.pc.Reading?
    ensures PipeInv(ReadSome(p, readable, n))
  {
    if p.taken + n <= |p.sent| {
      assert p.sent[..p.taken] + p.sent[p.taken..p.taken + n] == p.sent[..p.taken + n];
    }
    assert p.sent[..|p.sent|] == p.sent;
  }

  lemma WriteKeepsInv(p: Pipe, writable: bool, n: nat)
    requires PipeInv(p) && p.pc.Writing?
    ensures PipeInv(WriteSome(p, writable, n))
  {
    var buf := p.pc.buf;
    if n <= |buf| {
      assert p.delivered + buf == (p.delivered + buf[..n]) + buf[n..];
    }
    assert p.delivered == (p.delivered + buf)[..|p.delivered|];
  }

  /** Only these operations touch the data of a pipe; the others move program counters behind the copy. */
  predicate MovesData(op: Op) {
    op.PeerSends? || op.PeerEnds? || op.Read? || op.Write?
  }

  lemma DataOpsKeepPipes(s: State, op: Op)
    requires Inv(s) && MovesData(op)
    ensures PipeInv(Step(s, op).pipes[0]) && PipeInv(Step(s, op).pipes[1])
  {
    match op
    case PeerSends(i, bytes) =>
      var p := s.pipes[i];
      assert (p.sent + bytes)[..p.taken] == p.sent[..p.taken];
      assert PipeInv(Step(s, op).pipes[i]);
    case PeerEnds(i) => assert PipeInv(Step(s, op).pipes[i]);
    case Read(i, n) =>
      if s.pipes[i].pc.Reading? {
        ReadKeepsInv(s.pipes[i], CanRead(s.ends[Other(i)]), n);
        assert PipeInv(Step(s, op).pipes[i]);
      }
    case Write(i, n) =>
      if s.pipes[i].pc.Writing? {
        WriteKeepsInv(s.pipes[i], CanWrite(s.ends[i]), n);
        assert PipeInv(Step(s, op).pipes[i]);
      }
  }

  lemma OtherOpsKeepPipes(s: State, op: Op, j: Side)
    requires Inv(s) && !MovesData(op)
    ensures PipeInv(Step(s, op).pipes[j])
  {
    var p, q := s.pipes[j], Step(s, op).pipes[j];
    assert p == q || (q == p.(pc := q.pc) && !Copying(p.pc) && !Copying(q.pc) && q.pc.clean == p.pc.clean);
  }

  lemma OnceKeepsInv(s: State, op: Op)
    requires Inv(s)
    ensures OnceInv(Step(s, op))
  {
    match op
    case PeerSends(i, bytes) => assert i == 0 || i == 1;
    case PeerEnds(i) => assert i == 0 || i == 1;
    case Reset(i) => assert i == 0 || i == 1;
    case Read(i, n) => assert i == 0 || i == 1;
    case Write(i, n) => assert i == 0 || i == 1;
    case CloseWriteHalf(i) => assert i == 0 || i == 1;
    case EnterOnce(i) => assert i == 0 || i == 1;
    case CloseA(i) => assert i == 0 || i == 1;
    case CloseB(i) => assert i == 0 || i == 1;
    case SkipOnce(i) => assert i == 0 || i == 1;
  }

  lemma StepKeepsInv(s: State, op: Op)
    requires Inv(s)
    ensures Inv(Step(s, op))
  {
    if MovesData(op) {
      DataOpsKeepPipes(s, op);
    } else {
      OtherOpsKeepPipes(s, op, 0);
      OtherOpsKeepPipes(s, op, 1);
    }
    OnceKeepsInv(s, op);
  }

  lemma {:induction false} ExecKeepsInv(s: State, ops: seq<Op>)
    requires Inv(s)
    ensures Inv(Exec(s, ops))
    decreases |ops|
  {
    if ops != [] {
      StepKeepsInv(s, ops[0]);
      ExecKeepsInv(Step(s, ops[0]), ops[1..]);
    }
  }

  /**
   * In every interleaving, what a direction delivered is a prefix of what its source sent, all of it if the
   * direction ended with end of stream; the once body runs at most once, and when Relay returns it has run
   * exactly once and both connections are closed.
   */
  lemma RelaySafety(tcpA: bool, tcpB: bool, ops: seq<Op>)
    ensures var s := Exec(Init(tcpA, tcpB), ops);
            && (forall i: Side ::
                  var p := s.pipes[i];
                  p.delivered <= p.sent && (!Copying(p.pc) && p.pc.clean ==> p.eof && p.delivered == p.sent))
            && s.terminations <= 1
            && (Returned(s) ==> s.terminations == 1 && s.ends[0].closed && s.ends[1].closed)
  {
    ExecKeepsInv(Init(tcpA, tcpB), ops);
    var s := Exec(Init(tcpA, tcpB), ops);
    forall i: Side ensures s.pipes[i].delivered <= s.pipes[i].sent {
      var p := s.pipes[i];
      assert PipeInv(p);
      if p.pc.Writing? {
        assert p.delivered == (p.delivered + p.pc.buf)[..|p.delivered|];
      }
    }
  }

  // ---- Termination --------------------------------------------------------

  function Rank(pc: Pc): nat {
    match pc
    case Reading => 5
    case Writing(_) => 5
    case Copied(_) => 4
    case HalfClosed(_) => 3
    case ClosingA(_) => 2
    case ClosingB(_) => 1
    case Finished(_) => 0
  }

  function Measure(s: State): nat
    requires WellFormed(s)
  {
    Rank(s.pipes[0].pc) + Rank(s.pipes[1].pc)
  }

  /** The step pipe `i` takes next when nothing blocks it. */
  function NextOf(s: State, i: Side): Op
    requires WellFormed(s)
  {
    match s.pipes[i].pc
    case Reading => Read(i, 0)
    case Writing(_) => Write(i, 0)
    case Copied(_) => CloseWriteHalf(i)
    case HalfClosed(_) => if s.once == Fresh then EnterOnce(i) else SkipOnce(i)
    case ClosingA(_) => CloseA(i)
    case _ => CloseB(i)
  }

  /** One direction has ended its copy. */
  predicate Ended(s: State)
    requires WellFormed(s)
  {
    !Copying(s.pipes[0].pc) || !Copying(s.pipes[1].pc)
  }

  /** The pipe that is next: the one inside the once body, else one that has left its copy, else the remaining one. */
  function TurnOf(s: State): Side
    requires WellFormed(s)
  {
    if s.once.Held? then s.once.owner
    else if !Copying(s.pipes[0].pc) && !s.pipes[0].pc.Finished? then 0
    else if !Copying(s.pipes[1].pc) && !s.pipes[1].pc.Finished? then 1
    else if s.pipes[0].pc.Finished? then 1 else 0
  }

  /** A step of pipe `i` itself, not of a peer or the network. */
  predicate OwnMove(op: Op, i: Side) {
    !op.PeerSends? && !op.PeerEnds? && !op.Reset? && op.i == i
  }

  /** The step is one of pipe `i` and has an effect. */
  predicate Moves(s: State, op: Op, i: Side)
    requires WellFormed(s)
  {
    OwnMove(op, i) && Step(s, op) != s
  }

  ghost predicate CanMove(s: State, i: Side)
    requires WellFormed(s)
  {
    exists op :: Moves(s, op, i)
  }

  lemma MeasureNeverGrows(s: State, op: Op)
    requires WellFormed(s)
    ensures Measure(Step(s, op)) <= Measure(s)
  {
  }

  lemma CopyStaysEnded(s: State, op: Op)
    requires WellFormed(s) && Ended(s)
    ensures Ended(Step(s, op))
  {
  }

  /** Whatever the pipe does whose turn it is, if it has an effect it lowers the measure. */
  lemma TurnLowersMeasure(s: State, op: Op)
    requires Inv(s) && Ended(s) && !Returned(s) && Moves(s, op, TurnOf(s))
    ensures Measure(Step(s, op)) < Measure(s) <= 9
  {
    assert TurnOf(s) == 0 || TurnOf(s) == 1;
  }

  /** And it is always able to move. */
  lemma TurnCanMove(s: State)
    requires Inv(s) && Ended(s) && !Returned(s)
    ensures CanMove(s, TurnOf(s))
  {
    var i := TurnOf(s);
    assert i == 0 || i == 1;
    assert Moves(s, NextOf(s, i), i);
  }

  /** A step that leaves the measure leaves the turn. */
  lemma TurnStays(s: State, op: Op)
    requires Inv(s) && Measure(Step(s, op)) == Measure(s)
    ensures TurnOf(Step(s, op)) == TurnOf(s) && Returned(Step(s, op)) == Returned(s)
  {
    assert op.i == 0 || op.i == 1;
  }

  /**
   * Once one direction has ended, some pipe's turn it is until Relay returns; that pipe can always move, every
   * move of it lowers a measure of at most nine that no step of anyone raises, and the turn passes on only when the
   * measure drops.
   */
  lemma SecondPipeMustEnd(tcpA: bool, tcpB: bool, ops: seq<Op>)
    ensures var s := Exec(Init(tcpA, tcpB), ops);
            && (Ended(s) && !Returned(s) ==>
                  && CanMove(s, TurnOf(s))
                  && (forall op | Moves(s, op, TurnOf(s)) :: Measure(Step(s, op)) < Measure(s) <= 9)
                  && (forall op | Measure(Step(s, op)) == Measure(s) :: TurnOf(Step(s, op)) == TurnOf(s)))
            && forall op :: Measure(Step(s, op)) <= Measure(s)
  {
    ExecKeepsInv(Init(tcpA, tcpB), ops);
    hide Step, Exec, Inv, TurnOf;
    var s := Exec(Init(tcpA, tcpB), ops);
    if Ended(s) && !Returned(s) {
      TurnCanMove(s);
      forall op | Moves(s, op, TurnOf(s)) ensures Measure(Step(s, op)) < Measure(s) <= 9 {
        TurnLowersMeasure(s, op);
      }
      forall op | Measure(Step(s, op)) == Measure(s) ensures TurnOf(Step(s, op)) == TurnOf(s) {
        TurnStays(s, op);
      }
    }
    forall op ensures Measure(Step(s, op)) <= Measure(s) {
      MeasureNeverGrows(s, op);
    }
  }

  // ---- Fair schedules ------------------------------------------------------

  /** The state after the first `n` steps of an endless schedule. */
  function At(s: State, sched: nat -> Op, n: nat): (t: State)
    requires WellFormed(s)
    ensures WellFormed(t)
  {
    if n == 0 then s else Step(At(s, sched, n - 1), sched(n - 1))
  }

  /** At or after point `k`, pipe `i` gets to move or is unable to. */
  ghost predicate Heeded(s: State, sched: nat -> Op, i: Side, k: nat)
    requires WellFormed(s)
  {
    exists m: nat :: m >= k && (CanMove(At(s, sched, m), i) ==> Moves(At(s, sched, m), sched(m), i))
  }

  ghost predicate Fair(s: State, sched: nat -> Op, i: Side)
    requires WellFormed(s)
  {
    forall k: nat :: Heeded(s, sched, i, k)
  }

  lemma {:induction false} AtKeepsInv(s: State, sched: nat -> Op, n: nat)
    requires WellFormed(s) && Inv(s)
    ensures Inv(At(s, sched, n))
  {
    hide Inv, Step;
    if n > 0 {
      AtKeepsInv(s, sched, n - 1);
      StepKeepsInv(At(s, sched, n - 1), sched(n - 1));
    }
  }

  /** As long as the measure stays, the turn does. */
  lemma {:induction false} TurnStaysUntil(s: State, sched: nat -> Op, k: nat, m: nat)
    requires WellFormed(s) && Inv(s) && k <= m && Ended(At(s, sched, k))
    ensures var a, b := At(s, sched, k), At(s, sched, m);
            && Ended(b) && Measure(b) <= Measure(a)
            && (Measure(b) == Measure(a) ==> TurnOf(b) == TurnOf(a) && Returned(b) == Returned(a))
    decreases m - k
  {
    hide Inv, Step, Measure, TurnOf, Returned, Ended;
    if k < m {
      var b := At(s, sched, m - 1);
      TurnStaysUntil(s, sched, k, m - 1);
      AtKeepsInv(s, sched, m - 1);
      MeasureNeverGrows(b, sched(m - 1));
      CopyStaysEnded(b, sched(m - 1));
      if Measure(Step(b, sched(m - 1))) == Measure(b) {
        TurnStays(b, sched(m - 1));
      }
    }
  }

  lemma FairReturns(s: State, sched: nat -> Op, k: nat) returns (m: nat)
    requires WellFormed(s) && Inv(s) && Fair(s, sched, 0) && Fair(s, sched, 1) && Ended(At(s, sched, k))
    ensures m >= k && Returned(At(s, sched, m))
    decreases Measure(At(s, sched, k))
  {
    hide Inv, Step, Measure, TurnOf, Ended, Returned, Moves, CanMove;
    var a := At(s, sched, k);
    if Returned(a) {
      return k;
    }
    var i := TurnOf(a);
    assert Fair(s, sched, i) by {
      assert i == 0 || i == 1;
    }
    assert Heeded(s, sched, i, k);
    var j: nat :| j >= k && (CanMove(At(s, sched, j), i) ==> Moves(At(s, sched, j), sched(j), i));
    TurnStaysUntil(s, sched, k, j);
    AtKeepsInv(s, sched, j);
    var b := At(s, sched, j);
    if Measure(b) == Measure(a) {
      TurnCanMove(b);
      TurnLowersMeasure(b, sched(j));
      CopyStaysEnded(b, sched(j));
      assert At(s, sched, j + 1) == Step(b, sched(j));
      m := FairReturns(s, sched, j + 1);
    } else {
      m := FairReturns(s, sched, j);
    }
  }

  /**
   * Relay returns on every schedule that is fair to both pipes, once one direction has ended: however long the
   * peers go on sending and whatever the network does.
   */
  lemma RelayReturns(tcpA: bool, tcpB: bool, sched: nat -> Op, k: nat)
    requires Fair(Init(tcpA, tcpB), sched, 0) && Fair(Init(tcpA, tcpB), sched, 1)
    requires Ended(At(Init(tcpA, tcpB), sched, k))
    ensures exists m: nat :: m >= k && Returned(At(Init(tcpA, tcpB), sched, m))
  {
    assert Inv(Init(tcpA, tcpB));
    var m := FairReturns(Init(tcpA, tcpB), sched, k);
  }
}

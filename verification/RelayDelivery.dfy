/**
 * What Relay is for (internal/forward/forward.go): a direction that nothing disturbs delivers all that its source
 * sends, and what can keep it from doing so.
 */
module RelayDelivery {
  import opened Relay

  /** The source of pipe `i` can be read and its destination written. */
  predicate Clear(s: State, i: Side)
    requires WellFormed(s)
  {
    CanRead(s.ends[Other(i)]) && CanWrite(s.ends[i])
  }

  // ---- A copying pipe can deliver everything -------------------------------

  /** A whole buffer is written. */
  lemma WriteAll(s: State, i: Side)
    requires Inv(s) && s.pipes[i].pc.Writing? && Clear(s, i)
    ensures var p, t := s.pipes[i], Step(s, Write(i, |s.pipes[i].pc.buf|));
            Clear(t, i) && t.pipes[i] == p.(delivered := p.sent[..p.taken], pc := Reading)
  {
    assert i == 0 || i == 1;
  }

  /** Everything unread is read at once. */
  lemma ReadAll(s: State, i: Side)
    requires Inv(s) && s.pipes[i].pc.Reading? && Clear(s, i) && s.pipes[i].taken < |s.pipes[i].sent|
    ensures var p, t := s.pipes[i], Step(s, Read(i, |s.pipes[i].sent| - s.pipes[i].taken));
            Clear(t, i) && t.pipes[i] == p.(taken := |p.sent|, pc := Writing(p.sent[p.taken..]))
  {
    assert i == 0 || i == 1;
    assert s.pipes[i].sent[s.pipes[i].taken..|s.pipes[i].sent|] == s.pipes[i].sent[s.pipes[i].taken..];
  }

  lemma RunOne(s: State, op: Op, rest: seq<Op>)
    requires WellFormed(s)
    ensures Exec(s, [op] + rest) == Exec(Step(s, op), rest)
  {
    assert ([op] + rest)[1..] == rest;
  }

  lemma DeliverAll(s: State, i: Side) returns (ops: seq<Op>)
    requires Inv(s) && Copying(s.pipes[i].pc) && Clear(s, i)
    ensures forall op <- ops :: OwnMove(op, i)
    ensures Exec(s, ops).pipes[i].delivered == Exec(s, ops).pipes[i].sent == s.pipes[i].sent
    decreases |s.pipes[i].sent| - s.pipes[i].taken, s.pipes[i].pc.Writing?
  {
    hide Step, CanRead, CanWrite, OnceInv;
    var p := s.pipes[i];
    assert PipeInv(p) by {
      assert i == 0 || i == 1;
    }
    if p.pc.Reading? && p.taken == |p.sent| {
      return [];
    }
    var op := if p.pc.Reading? then Read(i, |p.sent| - p.taken) else Write(i, |p.pc.buf|);
    if p.pc.Reading? {
      ReadAll(s, i);
    } else {
      WriteAll(s, i);
    }
    StepKeepsInv(s, op);
    var rest := DeliverAll(Step(s, op), i);
    RunOne(s, op, rest);
    ops := [op] + rest;
  }

  /**
   * From every reachable state in which a pipe is copying, its source can be read and its destination written, steps
   * of that pipe alone deliver all that was sent.
   */
  lemma CopyCanDeliver(tcpA: bool, tcpB: bool, ops: seq<Op>, i: Side)
    requires var s := Exec(Init(tcpA, tcpB), ops); Copying(s.pipes[i].pc) && Clear(s, i)
    ensures var s := Exec(Init(tcpA, tcpB), ops);
            exists more :: (forall op <- more :: OwnMove(op, i)) &&
                           Exec(s, more).pipes[i].delivered == Exec(s, more).pipes[i].sent == s.pipes[i].sent
  {
    hide Exec;
    assert Inv(Init(tcpA, tcpB));
    ExecKeepsInv(Init(tcpA, tcpB), ops);
    var more := DeliverAll(Exec(Init(tcpA, tcpB), ops), i);
  }

  // ---- A fair schedule does ------------------------------------------------

  /** What is left to do for a pipe that copies: every read and every write makes it less. */
  function Left(p: Pipe): int {
    2 * (|p.sent| - |p.delivered|) + if p.pc.Reading? then 1 else 0
  }

  lemma LeftIsNat(p: Pipe)
    requires PipeInv(p) && Copying(p.pc)
    ensures Left(p) >= 0
  {
    if p.pc.Writing? {
      assert |p.delivered| <= |p.delivered + p.pc.buf|;
    }
  }

  /** The others leave the copy alone, and once its peer has ended the whole pipe. */
  lemma OthersLeavePipe(s: State, op: Op, i: Side)
    requires WellFormed(s) && !OwnMove(op, i)
    ensures var p, q := s.pipes[i], Step(s, op).pipes[i];
            q.pc == p.pc && q.delivered == p.delivered && (p.eof ==> q == p)
  {
    assert i == 0 || i == 1;
    assert op.i == 0 || op.i == 1;
  }

  /** Its own moves get on with it. */
  lemma OwnMoveGetsOn(s: State, op: Op, i: Side)
    requires Inv(s) && Copying(s.pipes[i].pc) && Clear(s, i) && Moves(s, op, i)
    ensures var p, q := s.pipes[i], Step(s, op).pipes[i];
            && q.sent == p.sent && q.eof == p.eof
            && (if Copying(q.pc) then Left(q) < Left(p) else q.pc.clean)
  {
    assert i == 0 || i == 1;
  }

  /** With its peer ended a copying pipe can always move. */
  lemma CopyCanMove(s: State, i: Side)
    requires Inv(s) && Copying(s.pipes[i].pc) && Clear(s, i) && s.pipes[i].eof
    ensures CanMove(s, i)
  {
    var p := s.pipes[i];
    assert i == 0 || i == 1;
    if p.pc.Writing? {
      WriteAll(s, i);
      assert Moves(s, Write(i, |p.pc.buf|), i);
    } else if p.taken < |p.sent| {
      ReadAll(s, i);
      assert Moves(s, Read(i, |p.sent| - p.taken), i);
    } else {
      assert Moves(s, Read(i, 0), i);
    }
  }

  /** Nothing breaks, closes or half-closes the two connections in the way of pipe `i` before it has left its copy. */
  ghost predicate Undisturbed(s: State, sched: nat -> Op, i: Side)
    requires WellFormed(s)
  {
    forall m: nat | Copying(At(s, sched, m).pipes[i].pc) :: Clear(At(s, sched, m), i)
  }

  /** A step by anyone, as the pipe sees it. */
  lemma OneStepOn(s: State, op: Op, i: Side)
    requires WellFormed(s) && Inv(s) && (Copying(s.pipes[i].pc) ==> Clear(s, i))
    ensures var p, q := s.pipes[i], Step(s, op).pipes[i];
            && (!Copying(p.pc) ==> !Copying(q.pc) && q.pc.clean == p.pc.clean)
            && (Copying(p.pc) && !Copying(q.pc) ==> q.pc.clean)
            && (p.eof ==> q.eof && q.sent == p.sent && (Copying(p.pc) && Copying(q.pc) ==> Left(q) <= Left(p)))
  {
    hide Inv, Clear, Step, Left;
    if !OwnMove(op, i) {
      OthersLeavePipe(s, op, i);
    } else if Step(s, op) != s {
      if Copying(s.pipes[i].pc) {
        OwnMoveGetsOn(s, op, i);
      } else {
        LeftStaysLeft(s, op, i);
        if s.pipes[i].eof {
          EndedSendsNoMore(s, op, i);
        }
      }
    }
  }

  /** So it leaves its copy cleanly if at all. */
  lemma {:induction false} LeavesCleanly(s: State, sched: nat -> Op, i: Side, n: nat)
    requires WellFormed(s) && Inv(s) && Undisturbed(s, sched, i) && Copying(s.pipes[i].pc)
    ensures var p := At(s, sched, n).pipes[i]; Copying(p.pc) || p.pc.clean
  {
    hide Inv, Step, Clear;
    if n > 0 {
      LeavesCleanly(s, sched, i, n - 1);
      AtKeepsInv(s, sched, n - 1);
      OneStepOn(At(s, sched, n - 1), sched(n - 1), i);
    }
  }

  /** From `k` on, while it copies. */
  lemma {:induction false} LeftNeverGrows(s: State, sched: nat -> Op, i: Side, k: nat, n: nat)
    requires WellFormed(s) && Inv(s) && Undisturbed(s, sched, i) && k <= n && At(s, sched, k).pipes[i].eof
    requires Copying(At(s, sched, n).pipes[i].pc)
    ensures var p, q := At(s, sched, k).pipes[i], At(s, sched, n).pipes[i];
            Copying(p.pc) && q.eof && q.sent == p.sent && Left(q) <= Left(p)
    decreases n - k
  {
    hide Inv, Step, Clear;
    if k < n {
      AtKeepsInv(s, sched, n - 1);
      assert Clear(At(s, sched, n - 1), i) || !Copying(At(s, sched, n - 1).pipes[i].pc);
      OneStepOn(At(s, sched, n - 1), sched(n - 1), i);
      LeftNeverGrows(s, sched, i, k, n - 1);
    }
  }

  /** What was sent stays what was sent. */
  lemma {:induction false} SentIsFixed(s: State, sched: nat -> Op, i: Side, k: nat, n: nat)
    requires WellFormed(s) && k <= n && At(s, sched, k).pipes[i].eof
    ensures At(s, sched, n).pipes[i].eof && At(s, sched, n).pipes[i].sent == At(s, sched, k).pipes[i].sent
    decreases n - k
  {
    hide Step;
    if k < n {
      SentIsFixed(s, sched, i, k, n - 1);
      EndedSendsNoMore(At(s, sched, n - 1), sched(n - 1), i);
    }
  }

  lemma EndedSendsNoMore(s: State, op: Op, i: Side)
    requires WellFormed(s) && s.pipes[i].eof
    ensures Step(s, op).pipes[i].eof && Step(s, op).pipes[i].sent == s.pipes[i].sent
  {
    assert i == 0 || i == 1;
    assert op.i == 0 || op.i == 1;
  }

  lemma NextHeeded(s: State, sched: nat -> Op, i: Side, k: nat) returns (j: nat)
    requires WellFormed(s) && Inv(s) && Fair(s, sched, i) && Undisturbed(s, sched, i)
    ensures j >= k && (CanMove(At(s, sched, j), i) ==> Moves(At(s, sched, j), sched(j), i))
    ensures Inv(At(s, sched, j)) && At(s, sched, j + 1) == Step(At(s, sched, j), sched(j))
    ensures Copying(At(s, sched, j).pipes[i].pc) ==> Clear(At(s, sched, j), i)
  {
    hide Inv, Step, Clear, Moves, CanMove;
    assert Heeded(s, sched, i, k);
    j :| j >= k && (CanMove(At(s, sched, j), i) ==> Moves(At(s, sched, j), sched(j), i));
    AtKeepsInv(s, sched, j);
  }

  lemma FairLeaves(s: State, sched: nat -> Op, i: Side, k: nat) returns (m: nat)
    requires WellFormed(s) && Inv(s) && Fair(s, sched, i) && Undisturbed(s, sched, i) && At(s, sched, k).pipes[i].eof
    ensures m >= k && !Copying(At(s, sched, m).pipes[i].pc)
    decreases if Copying(At(s, sched, k).pipes[i].pc) then 1 + Left(At(s, sched, k).pipes[i]) else 0
  {
    hide Inv, Step, Clear, Left, Moves, CanMove, At, Fair, Undisturbed, Copying;
    var j := NextHeeded(s, sched, i, k);
    m := k;
    if Copying(At(s, sched, k).pipes[i].pc) {
      m := j;
      if Copying(At(s, sched, j).pipes[i].pc) {
        LeftNeverGrows(s, sched, i, k, j);
        HeededGetsOn(At(s, sched, j), sched(j), i);
        m := j + 1;
        if Copying(At(s, sched, m).pipes[i].pc) {
          m := FairLeaves(s, sched, i, m);
        }
      }
    }
  }

  lemma HeededGetsOn(s: State, op: Op, i: Side)
    requires WellFormed(s) && Inv(s) && Copying(s.pipes[i].pc) && Clear(s, i) && s.pipes[i].eof
    requires CanMove(s, i) ==> Moves(s, op, i)
    ensures var p, q := s.pipes[i], Step(s, op).pipes[i];
            q.eof && (Copying(q.pc) ==> 0 <= Left(q) < Left(p))
  {
    hide Inv, Step, Clear, Left, Moves, CanMove;
    CopyCanMove(s, i);
    OwnMoveGetsOn(s, op, i);
    StepKeepsInv(s, op);
    PipeFits(Step(s, op), i);
    if Copying(Step(s, op).pipes[i].pc) {
      LeftIsNat(Step(s, op).pipes[i]);
    }
  }

  lemma PipeFits(s: State, i: Side)
    requires Inv(s)
    ensures PipeInv(s.pipes[i])
  {
    assert i == 0 || i == 1;
  }

  /**
   * Relay delivers. On every schedule that is fair to a pipe, in which its peer sends something, or nothing, and then
   * ends, and in which nothing gets in the pipe's way before it has finished its copy, the pipe leaves its copy with
   * end of stream and everything that was sent has been delivered.
   */
  lemma RelayDelivers(tcpA: bool, tcpB: bool, sched: nat -> Op, i: Side, k: nat)
    requires Fair(Init(tcpA, tcpB), sched, i) && Undisturbed(Init(tcpA, tcpB), sched, i)
    requires At(Init(tcpA, tcpB), sched, k).pipes[i].eof
    ensures exists m: nat :: m >= k &&
              var p := At(Init(tcpA, tcpB), sched, m).pipes[i];
              && !Copying(p.pc) && p.pc.clean
              && p.delivered == p.sent == At(Init(tcpA, tcpB), sched, k).pipes[i].sent
  {
    var s := Init(tcpA, tcpB);
    assert Inv(s);
    hide Inv, Step, Fair, Undisturbed, Init;
    var m := FairLeaves(s, sched, i, k);
    AtKeepsInv(s, sched, m);
    PipeFits(At(s, sched, m), i);
    LeavesCleanly(s, sched, i, m);
    SentIsFixed(s, sched, i, k, m);
  }

  // ---- What happens to the connections -------------------------------------

  /** `closeWriteHalf` has run for the destination of the pipe. */
  predicate PastHalfClose(pc: Pc) {
    pc.HalfClosed? || pc.ClosingA? || pc.ClosingB? || pc.Finished?
  }

  /** Connection `i`, as the pipes and the once body have left it. */
  ghost predicate EndFits(s: State, i: Side, tcp: bool)
    requires WellFormed(s)
  {
    && s.ends[i].tcp == tcp
    && (s.ends[i].writeClosed <==> tcp && PastHalfClose(s.pipes[i].pc))
    && (s.ends[i].closed <==>
          || (!tcp && PastHalfClose(s.pipes[i].pc))
          || s.once == Spent
          || (i == 0 && (s.pipes[0].pc.ClosingB? || s.pipes[1].pc.ClosingB?)))
  }

  lemma CopyStaysBefore(p: Pipe, ok: bool, n: nat)
    requires Copying(p.pc)
    ensures p.pc.Reading? ==> !PastHalfClose(ReadSome(p, ok, n).pc)
    ensures p.pc.Writing? ==> !PastHalfClose(WriteSome(p, ok, n).pc)
  {
  }

  lemma DataLeavesEnds(s: State, op: Op, j: Side)
    requires WellFormed(s) && (MovesData(op) || op.Reset?)
    ensures var t := Step(s, op);
            && t.once == s.once && t.ends[j] == s.ends[j].(reset := t.ends[j].reset)
            && (PastHalfClose(t.pipes[j].pc) <==> PastHalfClose(s.pipes[j].pc))
            && (t.pipes[j].pc.ClosingB? <==> s.pipes[j].pc.ClosingB?)
  {
    hide ReadSome, WriteSome;
    assert op.i == j || op.i == Other(j);
    if op.Read? && s.pipes[op.i].pc.Reading? {
      CopyStaysBefore(s.pipes[op.i], CanRead(s.ends[Other(op.i)]), op.n);
    }
    if op.Write? && s.pipes[op.i].pc.Writing? {
      CopyStaysBefore(s.pipes[op.i], CanWrite(s.ends[op.i]), op.n);
    }
  }

  lemma StepKeepsEnds(s: State, op: Op, i: Side, tcp: bool)
    requires Inv(s) && EndFits(s, i, tcp)
    ensures EndFits(Step(s, op), i, tcp)
  {
    assert i == 0 || i == 1;
    if MovesData(op) || op.Reset? {
      DataLeavesEnds(s, op, 0);
      DataLeavesEnds(s, op, 1);
    } else {
      assert op.i == 0 || op.i == 1;
    }
  }

  lemma {:induction false} ExecKeepsEnds(s: State, ops: seq<Op>, i: Side, tcp: bool)
    requires WellFormed(s) && Inv(s) && EndFits(s, i, tcp)
    ensures EndFits(Exec(s, ops), i, tcp)
    decreases |ops|
  {
    hide Inv, Step, EndFits;
    if ops != [] {
      StepKeepsInv(s, ops[0]);
      StepKeepsEnds(s, ops[0], i, tcp);
      ExecKeepsEnds(Step(s, ops[0]), ops[1..], i, tcp);
    }
  }

  /**
   * When the connections are closed, in every interleaving: the write half of a TCP connection exactly when the pipe
   * that writes to it has ended its copy and gone on, so that its peer sees the end of the stream behind everything
   * delivered; any other connection is closed as a whole at that point; and either is closed for good by the once body.
   */
  lemma ConnectionsAreClosed(tcpA: bool, tcpB: bool, ops: seq<Op>, i: Side)
    ensures var s := Exec(Init(tcpA, tcpB), ops);
            && EndFits(s, i, if i == 0 then tcpA else tcpB)
            && (s.ends[i].writeClosed ==> !Copying(s.pipes[i].pc))
            && (Returned(s) ==> s.ends[i].closed)
  {
    hide Exec, Step;
    assert Inv(Init(tcpA, tcpB));
    assert i == 0 || i == 1;
    ExecKeepsEnds(Init(tcpA, tcpB), ops, i, if i == 0 then tcpA else tcpB);
    ExecKeepsInv(Init(tcpA, tcpB), ops);
  }

  // ---- One direction cuts the other ----------------------------------------

  /** The pipe has left its copy with an error. */
  predicate CutOff(p: Pipe) {
    !Copying(p.pc) && !p.pc.clean
  }

  /** A pipe that has left its copy keeps how it left. */
  lemma LeftStaysLeft(s: State, op: Op, j: Side)
    requires WellFormed(s) && !Copying(s.pipes[j].pc)
    ensures var p := Step(s, op).pipes[j];
            !Copying(p.pc) && p.delivered == s.pipes[j].delivered && (CutOff(p) <==> CutOff(s.pipes[j]))
  {
    assert j == 0 || j == 1;
    assert op.i == 0 || op.i == 1;
  }

  lemma {:induction false} CutStaysCut(s: State, ops: seq<Op>, j: Side)
    requires WellFormed(s) && !Copying(s.pipes[j].pc)
    ensures var p := Exec(s, ops).pipes[j];
            !Copying(p.pc) && p.delivered == s.pipes[j].delivered && (CutOff(p) <==> CutOff(s.pipes[j]))
    decreases |ops|
  {
    hide Step, Copying, CutOff;
    if ops != [] {
      LeftStaysLeft(s, ops[0], j);
      CutStaysCut(Step(s, ops[0]), ops[1..], j);
    }
  }

  /** A step of one of the two pipes, not of a peer or the network. */
  predicate PipeMove(op: Op) {
    OwnMove(op, 0) || OwnMove(op, 1)
  }

  /** A pipe that copies while the other one has ended gets a turn only when both connections are closed. */
  lemma TurnBehindEnded(s: State, j: Side)
    requires Inv(s) && !Copying(s.pipes[Other(j)].pc) && Copying(s.pipes[j].pc)
    ensures TurnOf(s) == (if s.pipes[Other(j)].pc.Finished? then j else Other(j))
    ensures TurnOf(s) == j ==> s.ends[0].closed && s.ends[1].closed
  {
    assert j == 0 || j == 1;
  }

  /** The step whose turn it is. It moves no byte, and if it ends the copy of `j`, it cuts it off. */
  lemma NextStepCuts(s: State, j: Side)
    requires Inv(s) && !Copying(s.pipes[Other(j)].pc) && Copying(s.pipes[j].pc)
    ensures var p := Step(s, NextOf(s, TurnOf(s))).pipes[j];
            p.delivered == s.pipes[j].delivered && (Copying(p.pc) || CutOff(p))
  {
    TurnBehindEnded(s, j);
    hide Inv, TurnOf;
    assert j == 0 || j == 1;
  }

  lemma TurnMoves(s: State)
    requires Inv(s) && Ended(s) && !Returned(s)
    ensures Moves(s, NextOf(s, TurnOf(s)), TurnOf(s)) && PipeMove(NextOf(s, TurnOf(s)))
  {
    var i := TurnOf(s);
    assert i == 0 || i == 1;
  }

  /** And whether `j` is cut off, or will be, does not change. */
  lemma NextKeepsDelivered(s: State, j: Side)
    requires WellFormed(s) && Inv(s) && !Copying(s.pipes[Other(j)].pc)
    ensures var t := Step(s, NextOf(s, TurnOf(s)));
            && !Copying(t.pipes[Other(j)].pc) && t.pipes[j].delivered == s.pipes[j].delivered
            && (Copying(s.pipes[j].pc) || CutOff(s.pipes[j]) ==> Copying(t.pipes[j].pc) || CutOff(t.pipes[j]))
  {
    hide Inv, Step, Copying, CutOff, TurnOf;
    LeftStaysLeft(s, NextOf(s, TurnOf(s)), Other(j));
    if Copying(s.pipes[j].pc) {
      NextStepCuts(s, j);
    } else {
      LeftStaysLeft(s, NextOf(s, TurnOf(s)), j);
    }
  }

  lemma ReturnedHasLeft(s: State, j: Side)
    requires WellFormed(s) && Returned(s)
    ensures !Copying(s.pipes[j].pc)
  {
    assert j == 0 || j == 1;
  }

  lemma OneHasEnded(s: State, j: Side)
    requires WellFormed(s) && !Copying(s.pipes[Other(j)].pc)
    ensures Ended(s)
  {
    assert j == 0 || j == 1;
  }

  /** Left to themselves, the two pipes can return without another byte being copied. */
  lemma ReturnAtOnce(s: State, j: Side) returns (ops: seq<Op>)
    requires WellFormed(s) && Inv(s) && !Copying(s.pipes[Other(j)].pc)
    ensures (forall op <- ops :: PipeMove(op)) && Returned(Exec(s, ops))
    ensures Exec(s, ops).pipes[j].delivered == s.pipes[j].delivered
    ensures Copying(s.pipes[j].pc) || CutOff(s.pipes[j]) ==> CutOff(Exec(s, ops).pipes[j])
    decreases Measure(s)
  {
    hide Inv, Step, Measure, Ended, Returned, Copying, CutOff, TurnOf, Moves, PipeMove;
    OneHasEnded(s, j);
    if Returned(s) {
      ReturnedHasLeft(s, j);
      return [];
    }
    var op := NextOf(s, TurnOf(s));
    TurnMoves(s);
    StepKeepsInv(s, op);
    TurnLowersMeasure(s, op);
    NextKeepsDelivered(s, j);
    var rest := ReturnAtOnce(Step(s, op), j);
    RunOne(s, op, rest);
    ops := [op] + rest;
  }

  /**
   * Relay does not wait for both directions. In every reachable state in which one direction has ended its copy, some
   * schedule of the two pipes alone makes Relay return with the other direction cut off, and nothing more of it
   * delivered, if and only if that direction is still copying or is cut off already.
   */
  lemma CutPossibleIff(tcpA: bool, tcpB: bool, ops: seq<Op>, j: Side)
    requires !Copying(Exec(Init(tcpA, tcpB), ops).pipes[Other(j)].pc)
    ensures var s := Exec(Init(tcpA, tcpB), ops);
            (exists more :: (forall op <- more :: PipeMove(op)) && Returned(Exec(s, more)) &&
                            CutOff(Exec(s, more).pipes[j]) &&
                            Exec(s, more).pipes[j].delivered == s.pipes[j].delivered) <==>
            Copying(s.pipes[j].pc) || CutOff(s.pipes[j])
  {
    hide Exec, Returned, CutOff, Copying;
    assert Inv(Init(tcpA, tcpB));
    ExecKeepsInv(Init(tcpA, tcpB), ops);
    var s := Exec(Init(tcpA, tcpB), ops);
    var more := ReturnAtOnce(s, j);
    if !Copying(s.pipes[j].pc) && !CutOff(s.pipes[j]) {
      forall more ensures !CutOff(Exec(s, more).pipes[j]) {
        CutStaysCut(s, more, j);
      }
    }
  }

  /** A run: one peer ends at once, and what the other one has sent by then is lost. */
  lemma EndCutsOther() returns (ops: seq<Op>)
    ensures var s := Exec(Init(true, true), ops);
            Returned(s) && s.pipes[1].sent == [7] && s.pipes[1].delivered == []
  {
    var start := [PeerSends(1, [7]), PeerEnds(0), Read(0, 0)];
    var s := Init(true, true);
    var s1 := Step(s, start[0]);
    var s2 := Step(s1, start[1]);
    assert start[1..] == [start[1], start[2]] && start[1..][1..] == [start[2]] && [start[2]][1..] == [];
    assert Exec(s2, [start[2]]) == Exec(Step(s2, start[2]), []);
    assert Exec(s1, start[1..]) == Exec(s2, [start[2]]);
    assert Inv(s);
    ExecKeepsInv(s, start);
    var t := Exec(s, start);
    assert t.pipes[1].sent == [7] && t.pipes[1].delivered == [] && t.pipes[0].pc == Copied(true);
    hide Step, Exec;
    var more := ReturnAtOnce(t, 1);
    ops := start + more;
    RunBoth(s, start, more);
    MovesSendNothing(t, more, 1);
  }

  lemma {:induction false} RunBoth(s: State, p: seq<Op>, q: seq<Op>)
    requires WellFormed(s)
    ensures Exec(s, p + q) == Exec(Exec(s, p), q)
    decreases |p|
  {
    if p == [] {
      assert p + q == q;
    } else {
      assert (p + q)[1..] == p[1..] + q;
      RunBoth(Step(s, p[0]), p[1..], q);
    }
  }

  lemma {:induction false} MovesSendNothing(s: State, ops: seq<Op>, j: Side)
    requires WellFormed(s) && forall op <- ops :: PipeMove(op)
    ensures Exec(s, ops).pipes[j].sent == s.pipes[j].sent
    decreases |ops|
  {
    if ops != [] {
      var op := ops[0];
      MoveSendsNothing(s, op, j);
      hide Step, PipeMove;
      MovesSendNothing(Step(s, op), ops[1..], j);
    }
  }

  lemma MoveSendsNothing(s: State, op: Op, j: Side)
    requires WellFormed(s) && PipeMove(op)
    ensures Step(s, op).pipes[j].sent == s.pipes[j].sent
  {
    assert j == 0 || j == 1;
    assert op.i == 0 || op.i == 1;
  }
}

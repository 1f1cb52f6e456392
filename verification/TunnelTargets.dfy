/**
 * How a public connection gets to its target (internal/tunnel/server.go, internal/tunnel/client.go): what the client's
 * lookup links it to, that it can always get there, and what `openData` leaves behind.
 */
module TunnelTargets {
  import opened Common
  import opened Network
  import opened Protocol
  import opened TunnelOpen
  import opened TunnelCrossing

  // ---- The target ----------------------------------------------------------

  /**
   * The client's half of an open frame ends with its lookup: the call is linked to a target exactly if the target can
   * be dialled and the client holds the frame's rule ID at that moment, and then to the target it holds there at that
   * moment. Otherwise it ends. Nothing else changes.
   */
  lemma LookupLinksIff(s: State, d: nat, ok: bool)
    requires d in s.datas && s.datas[d].pc.Headed?
    ensures var t := Step(s, Lookup(d, ok));
            var f := s.datas[d].frame;
            && t == s.(datas := t.datas) && t.datas.Keys == s.datas.Keys
            && (forall e <- s.datas.Keys | e != d :: t.datas[e] == s.datas[e])
            && t.datas[d] == s.datas[d].(pc := t.datas[d].pc)
            && (t.datas[d].pc.Linked? <==> ok && f.rule in s.rules)
            && (t.datas[d].pc.Linked? ==> t.datas[d].pc.target == s.rules[f.rule])
            && (!t.datas[d].pc.Linked? ==> t.datas[d].pc == Ended)
  {
  }

  /** The public connection is relayed to its own data connection, and that one to `target`. */
  predicate Served(s: State, pub: nat, target: string) {
    WellPaired(s, pub) && s.datas[s.opens[pub].pc.data].pc == Linked(target)
  }

  /** A frame is sent before anyone waits for its data connection, and only frames that were sent are spent. */
  ghost predicate SentInv(s: State) {
    && (forall p <- s.opens.Keys | s.opens[p].pc == Waiting :: FrameOf(p, s.opens[p]) in s.frames)
    && (forall f <- s.spent :: f in s.frames)
  }

  lemma StepKeepsSent(s: State, op: Op)
    requires SentInv(s)
    ensures SentInv(Step(s, op))
  {
    hide SentInv;
    if !op.Server? {
      ClientKeepsSent(s, op);
    } else if op.pub in s.opens && Enabled(s, s.opens[op.pub], op.op) {
      ServerKeepsSent(s, op.pub, op.op);
    }
  }

  lemma SpentWereSent(s: State, op: Op)
    requires !op.Server?
    ensures Step(s, op).frames == s.frames && forall f <- Step(s, op).spent :: f in s.spent || f in s.frames
  {
  }

  lemma ClientKeepsSent(s: State, op: Op)
    requires SentInv(s) && !op.Server?
    ensures SentInv(Step(s, op))
  {
    hide Step;
    SpentWereSent(s, op);
    forall p
      ensures p in s.opens ==> p in Step(s, op).opens && Step(s, op).opens[p] == s.opens[p]
      ensures p in Step(s, op).opens && p !in s.opens ==> Step(s, op).opens[p].pc.Start?
    {
      OpeningAfter(s, op, p);
    }
  }

  lemma ServerKeepsSent(s: State, pub: nat, op: ServerOp)
    requires SentInv(s) && pub in s.opens && Enabled(s, s.opens[pub], op)
    ensures SentInv(ServerStep(s, pub, op))
  {
    ServerStepSends(s, pub, op);
    hide ServerStep, Enabled;
  }

  lemma ServerStepSends(s: State, pub: nat, op: ServerOp)
    requires pub in s.opens && Enabled(s, s.opens[pub], op)
    ensures var t := ServerStep(s, pub, op);
            && t.opens == s.opens[pub := t.opens[pub]] && t.spent == s.spent
            && (forall f <- s.frames :: f in t.frames)
            && (t.opens[pub].pc == Waiting ==> FrameOf(pub, t.opens[pub]) in t.frames)
  {
  }

  lemma {:induction false} ExecKeepsSent(s: State, ops: seq<Op>)
    requires SentInv(s)
    ensures SentInv(Exec(s, ops))
    decreases |ops|
  {
    hide SentInv, Step;
    if ops != [] {
      StepKeepsSent(s, ops[0]);
      ExecKeepsSent(Step(s, ops[0]), ops[1..]);
    }
  }

  lemma ReachedTwice(ops: seq<Op>)
    ensures Base(Exec(START, ops)) && SentInv(Exec(START, ops))
  {
    hide Exec;
    StartBase();
    ExecKeepsBase(START, ops);
    ExecKeepsSent(START, ops);
  }

  /** The client dials for the connection's own frame and looks its rule up. */
  lemma OwnFrameServes(s: State, pub: nat) returns (more: seq<Op>)
    requires Base(s) && SentInv(s) && pub in s.opens && s.opens[pub].pc == Waiting
    requires FrameOf(pub, s.opens[pub]) !in s.spent && (forall d :: !Queued(s, pub, d))
    requires s.opens[pub].rule in s.rules
    ensures Served(Exec(s, more), pub, s.rules[s.opens[pub].rule])
    ensures forall op <- more :: !op.SetRule? && !op.DropRule?
  {
    hide Inv, Exec, Step, Injective, TurnsInv;
    assert HasListener(s.opens[pub]);
    var i :| 0 <= i < |s.frames| && s.frames[i] == FrameOf(pub, s.opens[pub]);
    var relay, d := FrameIsRelayed(s, pub, i);
    var t := Exec(s, relay);
    LookupLinksIff(t, d, true);
    more := relay + [Lookup(d, true)];
    ExecConcat(s, relay, [Lookup(d, true)]);
    JustOne(t, Lookup(d, true));
  }

  lemma JustOne(s: State, op: Op)
    ensures Exec(s, [op]) == Step(s, op)
  {
    hide Step;
    assert [op][1..] == [];
    assert Exec(Step(s, op), []) == Step(s, op);
  }

  /**
   * From every reachable state in which a public connection waits, its open frame has not been dialled for, no data
   * connection stands at its listener and the client holds its rule, some schedule relays it, well paired, to the
   * target that the client holds, without any change to the client's rules.
   */
  lemma WaitingCanBeServed(ops: seq<Op>, pub: nat)
    requires var s := Exec(START, ops);
             && pub in s.opens && s.opens[pub].pc == Waiting && FrameOf(pub, s.opens[pub]) !in s.spent
             && (forall d :: !Queued(s, pub, d)) && s.opens[pub].rule in s.rules
    ensures var s := Exec(START, ops);
            exists more: seq<Op> :: Served(Exec(s, more), pub, s.rules[s.opens[pub].rule]) &&
                                     forall op <- more :: !op.SetRule? && !op.DropRule?
  {
    hide Base, SentInv, Exec, Served;
    ReachedTwice(ops);
    var more := OwnFrameServes(Exec(START, ops), pub);
  }

  lemma FrameStepsRun(s: State, pub: nat, session: nat, rule: string, addr: Addr)
    ensures Exec(s, [Public(pub, session, rule), Server(pub, ListenData(Some(addr))), Server(pub, Number),
                     Server(pub, Pend), Server(pub, SendOpen(true))]) == FrameSteps(s, pub, session, rule, addr)
  {
    hide Step;
    var s1 := Step(s, Public(pub, session, rule));
    var s2 := Step(s1, Server(pub, ListenData(Some(addr))));
    var head := [Public(pub, session, rule), Server(pub, ListenData(Some(addr)))];
    var tail := [Server(pub, Number), Server(pub, Pend), Server(pub, SendOpen(true))];
    ExecConcat(s, head, tail);
    ExecConcat(s, [head[0]], [head[1]]);
    JustOne(s, head[0]);
    JustOne(s1, head[1]);
    Three(s2, tail[0], tail[1], tail[2]);
    assert head == [head[0]] + [head[1]];
    assert head + tail == [head[0], head[1], tail[0], tail[1], tail[2]];
  }

  lemma FrameStepsFresh(s: State, pub: nat, session: nat, rule: string, addr: Addr)
    requires Base(s) && SentInv(s) && pub !in s.opens && addr !in s.net.bound.Values
    ensures var t := FrameSteps(s, pub, session, rule, addr);
            && pub in t.opens && t.opens[pub].pc == Waiting && t.opens[pub].rule == rule && t.rules == s.rules
            && FrameOf(pub, t.opens[pub]) !in t.spent && forall d :: !Queued(t, pub, d)
  {
    FrameStepsResult(s, pub, session, rule, addr);
    hide FrameSteps, Injective, TurnsInv, SerialsInv;
    var t := FrameSteps(s, pub, session, rule, addr);
    forall f | f in s.spent ensures f.pub in s.opens {
      assert Genuine(s, f);
    }
    forall d ensures !Queued(t, pub, d) {
      assert d in s.datas ==> DialInv(s.net, s.datas[d]);
    }
  }

  /**
   * The tunnel serves: in every reachable state, a new public connection that arrives on a rule the client holds, and
   * whose data listener is granted an address, can be relayed to the target that the client holds for that rule.
   */
  lemma NewConnectionCanBeServed(ops: seq<Op>, pub: nat, session: nat, rule: string, addr: Addr)
    requires var s := Exec(START, ops); pub !in s.opens && addr !in s.net.bound.Values && rule in s.rules
    ensures var s := Exec(START, ops);
            exists more: seq<Op> :: Served(Exec(s, more), pub, s.rules[rule]) &&
                                     forall op <- more :: !op.SetRule? && !op.DropRule?
  {
    hide Base, SentInv, Exec, Served, FrameSteps, Step;
    ReachedTwice(ops);
    var s := Exec(START, ops);
    var start := [Public(pub, session, rule), Server(pub, ListenData(Some(addr))), Server(pub, Number),
                  Server(pub, Pend), Server(pub, SendOpen(true))];
    FrameStepsRun(s, pub, session, rule, addr);
    FrameStepsFresh(s, pub, session, rule, addr);
    ExecKeepsBase(s, start);
    ExecKeepsSent(s, start);
    var more := OwnFrameServes(Exec(s, start), pub);
    ExecConcat(s, start, more);
  }

  /**
   * The client's edits matter at once: behind an addition a new public connection can be relayed to the new target,
   * and behind a removal no lookup for the rule links anything.
   */
  lemma EditsTakeEffect(
    ops: seq<Op>, pub: nat, session: nat, rule: string, addr: Addr, target: string, d: nat, ok: bool)
    requires var s := Exec(START, ops); pub !in s.opens && addr !in s.net.bound.Values
    ensures var s := Step(Exec(START, ops), SetRule(rule, target));
            exists more: seq<Op> :: Served(Exec(s, more), pub, target) &&
                                     forall op <- more :: !op.SetRule? && !op.DropRule?
    ensures var s := Step(Exec(START, ops), DropRule(rule));
            d in s.datas && s.datas[d].pc.Headed? && s.datas[d].frame.rule == rule ==>
              Step(s, Lookup(d, ok)).datas[d].pc == Ended
  {
    var longer := Then(ops, SetRule(rule, target));
    NewConnectionCanBeServed(longer, pub, session, rule, addr);
  }

  // ---- What openData leaves behind -----------------------------------------

  /** The data listeners that `openData` calls hold. */
  function Held(opens: map<nat, Opening>): map<nat, nat> {
    map p | p in opens && HasListener(opens[p]) :: opens[p].listener
  }

  ghost predicate ListenersExact(s: State) {
    Holds(s.net, s.net.bound.Keys) && Owns(Held(s.opens), s.net.bound.Keys)
  }

  lemma ServerStepKeepsExact(s: State, pub: nat, op: ServerOp)
    requires ListenersExact(s) && pub in s.opens && Enabled(s, s.opens[pub], op)
    ensures ListenersExact(ServerStep(s, pub, op))
  {
    ServerStepListener(s, pub, op);
    GrantedOnly(s, pub, op);
    hide ServerStep, Advance, Enabled, NetAfter;
    var t := ServerStep(s, pub, op);
    var o, a := s.opens[pub], t.opens[pub];
    if HasListener(o) == HasListener(a) {
      assert Held(t.opens) == Held(s.opens);
    } else if HasListener(a) {
      OpenHolds(s.net, s.net.bound.Keys, Some(a.addr));
      OwnsInsert(Held(s.opens), s.net.bound.Keys, pub, s.net.ledger.next);
      assert Held(t.opens) == Held(s.opens)[pub := s.net.ledger.next];
    } else {
      assert Held(s.opens)[pub] in Held(s.opens).Values;
      CloseHolds(s.net, s.net.bound.Keys, o.listener);
      OwnsRemove(Held(s.opens), s.net.bound.Keys, pub);
      assert Held(t.opens) == Held(s.opens) - {pub};
    }
  }

  lemma GrantedOnly(s: State, pub: nat, op: ServerOp)
    requires pub in s.opens && Enabled(s, s.opens[pub], op)
    ensures var o, a := s.opens[pub], ServerStep(s, pub, op).opens[pub];
            HasListener(a) && !HasListener(o) ==> Accepts(s.net, Some(a.addr))
  {
  }

  lemma StepKeepsExact(s: State, op: Op)
    requires ListenersExact(s)
    ensures ListenersExact(Step(s, op))
  {
    hide ListenersExact;
    if !op.Server? {
      ClientKeepsExact(s, op);
    } else if op.pub in s.opens && Enabled(s, s.opens[op.pub], op.op) {
      ServerStepKeepsExact(s, op.pub, op.op);
    }
  }

  lemma ClientKeepsExact(s: State, op: Op)
    requires ListenersExact(s) && !op.Server?
    ensures ListenersExact(Step(s, op))
  {
    hide Step;
    forall p
      ensures p in s.opens ==> p in Step(s, op).opens && Step(s, op).opens[p] == s.opens[p]
      ensures p in Step(s, op).opens && p !in s.opens ==> Step(s, op).opens[p].pc.Start?
    {
      OpeningAfter(s, op, p);
    }
    OpeningAfter(s, op, 0);
    assert Held(Step(s, op).opens) == Held(s.opens);
  }

  lemma {:induction false} ExecKeepsExact(s: State, ops: seq<Op>)
    requires ListenersExact(s)
    ensures ListenersExact(Exec(s, ops))
    decreases |ops|
  {
    hide ListenersExact, Step;
    if ops != [] {
      StepKeepsExact(s, ops[0]);
      ExecKeepsExact(Step(s, ops[0]), ops[1..]);
    }
  }

  /**
   * Data listeners are conserved over every run: one is open exactly while an `openData` call holds it, no two calls
   * hold the same one, and every other one that was ever opened was closed exactly once.
   */
  lemma DataListenersConserved(ops: seq<Op>)
    ensures var s := Exec(START, ops);
            && (forall h: nat :: h in s.net.bound <==>
                                 exists p :: p in s.opens && HasListener(s.opens[p]) && s.opens[p].listener == h)
            && (forall p, q | p in s.opens && q in s.opens && HasListener(s.opens[p]) && HasListener(s.opens[q]) &&
                              s.opens[p].listener == s.opens[q].listener :: p == q)
            && (forall h: nat :: s.net.ledger.closed[h] == if h < s.net.ledger.next && h !in s.net.bound then 1 else 0)
  {
    hide Exec;
    assert Held(map[]).Values == {};
    ExecKeepsExact(START, ops);
    var s := Exec(START, ops);
    assert forall p <- Held(s.opens).Keys :: p in s.opens && Held(s.opens)[p] == s.opens[p].listener;
    forall h: nat
      ensures h in s.net.bound <==>
              exists p :: p in s.opens && HasListener(s.opens[p]) && s.opens[p].listener == h
    {
      if h in s.net.bound {
        assert h in Held(s.opens).Values;
        var p :| p in Held(s.opens) && Held(s.opens)[p] == h;
      }
      if p :| p in s.opens && HasListener(s.opens[p]) && s.opens[p].listener == h {
        assert Held(s.opens)[p] in Held(s.opens).Values;
      }
    }
  }

  /** A step that brings an `openData` call closer to its return. */
  function WayOut(pc: Pc): ServerOp {
    match pc
    case Start => ListenData(None)
    case Listening => Number
    case Numbered => Pend
    case Pended => SendOpen(false)
    case Waiting => Deadline
    case Checking(_) => Check(true)
    case _ => RelayEnds
  }

  function StepsLeft(pc: Pc): nat {
    match pc
    case Listening => 3
    case Numbered => 2
    case Over => 0
    case _ => 1
  }

  lemma WayOutEnds(s: State, pub: nat)
    requires Inv(s) && pub in s.opens && !s.opens[pub].pc.Over?
    ensures var o, t := s.opens[pub], Step(s, Server(pub, WayOut(s.opens[pub].pc)));
            && pub in t.opens && StepsLeft(t.opens[pub].pc) < StepsLeft(o.pc)
            && (HasListener(o) ==>
                  if t.opens[pub].pc.Over? then o.listener !in t.net.bound
                  else HasListener(t.opens[pub]) && t.opens[pub].listener == o.listener)
  {
    hide SerialsInv;
    assert OpeningInv(s, s.opens[pub]);
  }

  /** Every `openData` call can return, by steps of its own, and then its listener is closed. */
  lemma OpenDataCanReturn(s: State, pub: nat) returns (own: seq<Op>)
    requires Inv(s) && pub in s.opens
    ensures (forall op <- own :: op.Server? && op.pub == pub) && (s.opens[pub].pc.Over? ==> own == [])
    ensures var t := Exec(s, own);
            && pub in t.opens && t.opens[pub].pc == Over
            && (HasListener(s.opens[pub]) ==> s.opens[pub].listener !in t.net.bound)
    decreases StepsLeft(s.opens[pub].pc)
  {
    hide Inv, Step, WayOut;
    if s.opens[pub].pc.Over? {
      return [];
    }
    var op := Server(pub, WayOut(s.opens[pub].pc));
    WayOutEnds(s, pub);
    StepKeepsInv(s, op);
    var t := Step(s, op);
    var rest := OpenDataCanReturn(t, pub);
    own := [op] + rest;
    assert own[1..] == rest;
    if t.opens[pub].pc.Over? {
      assert rest == [];
    }
  }

  // ---- The pending table ---------------------------------------------------

  function KeyOf(o: Opening): (nat, nat) {
    (o.session, ConnID(o))
  }

  /** The connection is in the table from before its open frame goes out until its data connection is verified. */
  ghost predicate PendingAt(s: State, p: nat)
    requires p in s.opens
  {
    var o := s.opens[p];
    Issued(s, o.session) < UINT64_SIZE ==>
      && (o.pc.Pended? || o.pc.Waiting? || o.pc.Checking? ==> KeyOf(o) in s.pending && s.pending[KeyOf(o)] == p)
      && (o.pc.Relaying? ==> KeyOf(o) !in s.pending)
  }

  ghost predicate PendingInv(s: State) {
    forall p <- s.opens.Keys :: PendingAt(s, p)
  }

  predicate HasKey(o: Opening) {
    o.pc.Pended? || o.pc.Waiting? || o.pc.Checking? || o.pc.Relaying?
  }

  /** Below 2^64 connIDs per session no two connections share a key. */
  lemma KeysDiffer(s: State, p: nat, q: nat)
    requires Inv(s) && p in s.opens && q in s.opens && p != q && s.opens[p].serial > 0
    requires Issued(s, s.opens[p].session) < UINT64_SIZE
    ensures s.opens[q].serial > 0 ==> KeyOf(s.opens[p]) != KeyOf(s.opens[q])
  {
  }

  /** What a server step does to the table, apart from its own key. */
  lemma OwnPending(s: State, pub: nat, op: ServerOp)
    requires Inv(s) && pub in s.opens && Enabled(s, s.opens[pub], op) && PendingAt(s, pub)
    ensures var t := ServerStep(s, pub, op);
            var a := t.opens[pub];
            && a.session == s.opens[pub].session && t.opens == s.opens[pub := a]
            && Issued(s, a.session) <= Issued(t, a.session)
            && PendingAt(t, pub)
            && (t.pending == s.pending || (HasKey(a) && t.pending == s.pending[KeyOf(a) := pub])
                || (HasKey(a) && t.pending == s.pending - {KeyOf(a)}))
  {
    hide SerialsInv;
    assert OpeningInv(s, s.opens[pub]);
  }

  lemma IssuedGrows(s: State, pub: nat, op: ServerOp, session: nat)
    requires Inv(s) && pub in s.opens && Enabled(s, s.opens[pub], op)
    ensures Issued(s, session) <= Issued(ServerStep(s, pub, op), session)
  {
  }

  lemma ServerKeepsPending(s: State, pub: nat, op: ServerOp)
    requires Inv(s) && PendingInv(s) && pub in s.opens && Enabled(s, s.opens[pub], op)
    ensures PendingInv(ServerStep(s, pub, op))
  {
    hide ServerStep, Enabled, Inv;
    StepKeepsInv(s, Server(pub, op)) by {
      EnabledStep(s, pub, op);
    }
    EnabledStep(s, pub, op);
    OwnPending(s, pub, op);
    var t := ServerStep(s, pub, op);
    forall p | p in t.opens ensures PendingAt(t, p) {
      if p != pub && HasKey(t.opens[p]) && Issued(t, t.opens[p].session) < UINT64_SIZE {
        assert PendingAt(s, p);
        IssuedGrows(s, pub, op, t.opens[p].session);
        HasSerial(t, p);
        if HasKey(t.opens[pub]) {
          HasSerial(t, pub);
          KeysDiffer(t, p, pub);
        }
      }
    }
  }

  lemma HasSerial(s: State, p: nat)
    requires Inv(s) && p in s.opens && HasKey(s.opens[p])
    ensures s.opens[p].serial > 0
  {
    assert OpeningInv(s, s.opens[p]);
  }

  lemma EnabledStep(s: State, pub: nat, op: ServerOp)
    requires pub in s.opens && Enabled(s, s.opens[pub], op)
    ensures Step(s, Server(pub, op)) == ServerStep(s, pub, op)
  {
  }

  lemma ClientPending(s: State, op: Op)
    requires !op.Server?
    ensures Step(s, op).pending == s.pending && Step(s, op).issued == s.issued
  {
  }

  lemma StepKeepsPending(s: State, op: Op)
    requires Inv(s) && PendingInv(s)
    ensures PendingInv(Step(s, op))
  {
    hide Inv, Enabled, Step;
    if !op.Server? {
      ClientPending(s, op);
      forall p | p in Step(s, op).opens ensures PendingAt(Step(s, op), p) {
        OpeningAfter(s, op, p);
        assert p in s.opens ==> PendingAt(s, p);
      }
    } else if op.pub in s.opens && Enabled(s, s.opens[op.pub], op.op) {
      EnabledStep(s, op.pub, op.op);
      ServerKeepsPending(s, op.pub, op.op);
    } else {
      NotEnabled(s, op);
    }
  }

  lemma NotEnabled(s: State, op: Op)
    requires op.Server? && !(op.pub in s.opens && Enabled(s, s.opens[op.pub], op.op))
    ensures Step(s, op) == s
  {
  }

  lemma {:induction false} ExecKeepsPending(s: State, ops: seq<Op>)
    requires Inv(s) && PendingInv(s)
    ensures PendingInv(Exec(s, ops))
    decreases |ops|
  {
    hide Inv, PendingInv, Step;
    if ops != [] {
      StepKeepsInv(s, ops[0]);
      StepKeepsPending(s, ops[0]);
      ExecKeepsPending(Step(s, ops[0]), ops[1..]);
    }
  }

  /**
   * The pending table in every reachable state, as long as the session has issued fewer than 2^64 connIDs: a public
   * connection stands under its session and connID from before its open frame is sent until its data connection is
   * verified, and not while it is relayed.
   */
  lemma PendingIsKept(ops: seq<Op>, pub: nat)
    requires pub in Exec(START, ops).opens
    requires Issued(Exec(START, ops), Exec(START, ops).opens[pub].session) < UINT64_SIZE
    ensures var s := Exec(START, ops);
            var o := s.opens[pub];
            && (o.pc.Pended? || o.pc.Waiting? || o.pc.Checking? ==>
                  (o.session, ConnID(o)) in s.pending && s.pending[(o.session, ConnID(o))] == pub)
            && (o.pc.Relaying? ==> (o.session, ConnID(o)) !in s.pending)
  {
    hide Exec;
    ExecKeepsPending(START, ops);
    assert PendingAt(Exec(START, ops), pub);
  }
}

/**
 * Pairing public connections with dialled-back data connections: any number of `openData` goroutines of the
 * server's sessions (internal/tunnel/server.go) interleaved with any number of `handleOpen` goroutines of the
 * client (internal/tunnel/client.go), down to their single steps.
 */
module TunnelOpen {
  import opened Common
  import opened Network
  import opened Protocol

  /** Where one `openData` call stands. The numbers are public and data connections. */
  datatype Pc =
    | Start
    | Listening            // the data listener is open
    | Numbered             // it has its connID
    | Pended               // it is in the session's pending table
    | Waiting              // the open frame is out; waiting in Accept
    | Checking(data: nat)  // reading the handshake of an accepted connection
    | Relaying(data: nat)
    | Over

  /** One public connection: the session and rule it arrived on, its data listener and the serial number it drew. */
  datatype Opening = Opening(session: nat, rule: string, pc: Pc, listener: nat, addr: Addr, serial: nat)

  /** An open frame. `pub` records for whom it was issued; it is not on the wire. */
  datatype OpenFrame = OpenFrame(pub: nat, session: nat, rule: string, connID: nat, addr: Addr)

  /** Where one `handleOpen` call stands. `Silent` is the end of one that could not write its header. */
  datatype DialPc = Dialled | Headed | Linked(target: string) | Ended | Silent

  /** One data connection: the frame it was dialled for, the listener the dial reached, and how many came before it. */
  datatype Data = Data(frame: OpenFrame, listener: nat, turn: nat, pc: DialPc)

  datatype State = State(
    opens: map<nat, Opening>,
    issued: map<nat, nat>,                  // how often each session's connID counter was advanced
    pending: map<(nat, nat), nat>,          // session and connID to public connection
    frames: seq<OpenFrame>,                 // every open frame ever sent
    spent: set<OpenFrame>,                  // the frames that were dialled for, or never will be
    datas: map<nat, Data>,
    accepted: set<nat>,
    net: Net,                               // the data listeners
    rules: map<string, string>,             // the client's table: rule ID to target
    held: set<(string, string)>)            // every rule ID and target the client ever had together

  const START := State(map[], map[], map[], [], {}, map[], {}, EMPTY_NET, map[], {})

  /** A step of the `openData` call for public connection `pub`. */
  datatype ServerOp =
    | ListenData(answer: Option<Addr>)
    | Number
    | Pend
    | SendOpen(ok: bool)
    | AcceptData(data: nat)
    | Deadline                    // Accept gives up
    | Check(eof: bool)
    | RelayEnds

  datatype Op =
    | Public(pub: nat, session: nat, rule: string)
    | Server(pub: nat, op: ServerOp)
    | DialBack(data: nat, frame: nat, listener: nat)
    | NoDial(frame: nat)           // the dial fails, or the frame never arrives
    | WriteHeader(data: nat, ok: bool)
    | Lookup(data: nat, ok: bool)  // find the rule, dial its target
    | SetRule(id: string, target: string)
    | DropRule(id: string)

  function Issued(s: State, session: nat): nat {
    if session in s.issued then s.issued[session] else 0
  }

  /** The connID counter is a uint64, so the serial number wraps on the wire. */
  function ConnID(o: Opening): nat {
    o.serial % UINT64_SIZE
  }

  function FrameOf(pub: nat, o: Opening): OpenFrame {
    OpenFrame(pub, o.session, o.rule, ConnID(o), o.addr)
  }

  /** The first line that arrives on a data connection, if one arrives. */
  function LineOf(d: Data, eof: bool): Option<string> {
    if eof || d.pc.Dialled? || d.pc.Silent? then None else Some(DataHeader(d.frame.connID))
  }

  predicate Matches(o: Opening, d: Data, eof: bool) {
    var line := LineOf(d, eof);
    line.Some? && ParseDataHeader(line.value) == Some(ConnID(o))
  }

  /** Of the connections waiting at its listener, `d` was dialled first. */
  predicate First(s: State, d: nat) {
    && d in s.datas && d !in s.accepted
    && forall e <- s.datas.Keys | e !in s.accepted && s.datas[e].listener == s.datas[d].listener ::
         s.datas[d].turn <= s.datas[e].turn
  }

  predicate Enabled(s: State, o: Opening, op: ServerOp) {
    match op
    case ListenData(answer) => o.pc == Start
    case Number => o.pc == Listening
    case Pend => o.pc == Numbered
    case SendOpen(ok) => o.pc == Pended
    case AcceptData(d) => o.pc == Waiting && First(s, d) && s.datas[d].listener == o.listener
    case Deadline => o.pc == Waiting
    case Check(eof) => o.pc.Checking? && o.pc.data in s.datas && (eof || !s.datas[o.pc.data].pc.Dialled?)
    case RelayEnds => o.pc.Relaying?
  }

  /** Where the step leaves the opening. */
  function Advance(s: State, o: Opening, op: ServerOp): Opening
    requires Enabled(s, o, op)
  {
    match op
    case ListenData(answer) =>
      if Accepts(s.net, answer) then o.(pc := Listening, listener := s.net.ledger.next, addr := answer.value)
      else o.(pc := Over)
    case Number => o.(pc := Numbered, serial := Issued(s, o.session) + 1)
    case Pend => o.(pc := Pended)
    case SendOpen(ok) => o.(pc := if ok then Waiting else Over)
    case AcceptData(d) => o.(pc := Checking(d))
    case Deadline => o.(pc := Over)
    case Check(eof) => o.(pc := if Matches(o, s.datas[o.pc.data], eof) then Relaying(o.pc.data) else Over)
    case RelayEnds => o.(pc := Over)
  }

  /** `openData` closes its data listener whenever it returns after having opened it. */
  function NetAfter(net: Net, before: Opening, after: Opening): Net {
    if before.pc == Start then
      if after.pc == Listening then Open(net, after.addr) else net
    else if after.pc == Over then Close(net, before.listener) else net
  }

  function PendingAfter(pending: map<(nat, nat), nat>, pub: nat, after: Opening): map<(nat, nat), nat> {
    match after.pc
    case Pended => pending[(after.session, ConnID(after)) := pub]
    case Relaying(_) => pending - {(after.session, ConnID(after))}
    case _ => pending
  }

  function ServerStep(s: State, pub: nat, op: ServerOp): State
    requires pub in s.opens && Enabled(s, s.opens[pub], op)
  {
    var before := s.opens[pub];
    var after := Advance(s, before, op);
    s.(opens := s.opens[pub := after],
       issued := if op.Number? then s.issued[after.session := after.serial] else s.issued,
       pending := PendingAfter(s.pending, pub, after),
       frames := if after.pc == Waiting then s.frames + [FrameOf(pub, after)] else s.frames,
       accepted := if op.AcceptData? then s.accepted + {op.data} else s.accepted,
       net := NetAfter(s.net, before, after))
  }

  /** A dial for the frame reaches whatever listener is bound to its address. */
  predicate CanReach(net: Net, listener: nat, f: OpenFrame) {
    listener in net.bound && net.bound[listener] == f.addr
  }

  /** Each frame is dialled for once at most. Steps that are not enabled change nothing. */
  function Step(s: State, op: Op): State {
    match op
    case Public(pub, session, rule) =>
      if pub in s.opens then s else s.(opens := s.opens[pub := Opening(session, rule, Start, 0, "", 0)])
    case Server(pub, o) => if pub in s.opens && Enabled(s, s.opens[pub], o) then ServerStep(s, pub, o) else s
    case DialBack(d, i, listener) =>
      if d !in s.datas && i < |s.frames| && s.frames[i] !in s.spent && CanReach(s.net, listener, s.frames[i])
      then s.(datas := s.datas[d := Data(s.frames[i], listener, |s.datas|, Dialled)], spent := s.spent + {s.frames[i]})
      else s
    case NoDial(i) => if i < |s.frames| then s.(spent := s.spent + {s.frames[i]}) else s
    case WriteHeader(d, ok) =>
      if d in s.datas && s.datas[d].pc.Dialled? then
        s.(datas := s.datas[d := s.datas[d].(pc := if ok then Headed else Silent)])
      else s
    case Lookup(d, ok) =>
      if d in s.datas && s.datas[d].pc.Headed? then
        var rule := s.datas[d].frame.rule;
        s.(datas := s.datas[d := s.datas[d].(pc := if ok && rule in s.rules then Linked(s.rules[rule]) else Ended)])
      else s
    case SetRule(id, target) => s.(rules := s.rules[id := target], held := s.held + {(id, target)})
    case DropRule(id) => s.(rules := s.rules - {id})
  }

  function Exec(s: State, ops: seq<Op>): State
    decreases |ops|
  {
    if ops == [] then s else Exec(Step(s, ops[0]), ops[1..])
  }

  // ---- Invariant -----------------------------------------------------------

  predicate HasNumber(o: Opening) {
    !o.pc.Start? && !o.pc.Listening?
  }

  /** Serial numbers of one session are drawn once each and lie within what the session has issued. */
  ghost predicate SerialsInv(s: State) {
    && (forall p <- s.opens.Keys :: s.opens[p].serial <= Issued(s, s.opens[p].session))
    && (forall p, q | p in s.opens && q in s.opens && p != q && s.opens[p].session == s.opens[q].session &&
                      s.opens[p].serial == s.opens[q].serial :: s.opens[p].serial == 0)
  }

  /** Frame `f` was issued for opening `f.pub`, which had drawn its number by then. */
  ghost predicate Genuine(s: State, f: OpenFrame) {
    f.pub in s.opens && f == FrameOf(f.pub, s.opens[f.pub]) && s.opens[f.pub].serial > 0 && HasNumber(s.opens[f.pub])
  }

  ghost predicate DataInv(s: State, d: nat)
    requires d in s.datas
  {
    && s.datas[d].frame in s.frames
    && (s.datas[d].pc.Linked? ==> (s.datas[d].frame.rule, s.datas[d].pc.target) in s.held)
  }

  ghost predicate OpeningInv(s: State, o: Opening) {
    && (o.pc.Start? || o.pc.Listening? ==> o.serial == 0)
    && (HasNumber(o) && !o.pc.Over? ==> o.serial > 0)
    && (o.pc.Checking? || o.pc.Relaying? ==> o.pc.data in s.datas && o.pc.data in s.accepted)
    && (o.pc.Relaying? ==> s.datas[o.pc.data].frame.connID == ConnID(o))
  }

  predicate Uses(o: Opening, d: nat) {
    (o.pc.Checking? || o.pc.Relaying?) && o.pc.data == d
  }

  ghost predicate Inv(s: State) {
    && SerialsInv(s)
    && (forall f <- s.frames :: Genuine(s, f))
    && (forall d <- s.datas.Keys :: DataInv(s, d))
    && (forall id <- s.rules.Keys :: (id, s.rules[id]) in s.held)
    && (forall p <- s.opens.Keys :: OpeningInv(s, s.opens[p]))
    && (forall p, q, d | p in s.opens && q in s.opens && Uses(s.opens[p], d) && Uses(s.opens[q], d) :: p == q)
  }

  lemma AdvanceFacts(s: State, o: Opening, op: ServerOp)
    requires Enabled(s, o, op) && OpeningInv(s, o)
    requires forall d <- s.datas.Keys :: s.datas[d].frame in s.frames
    requires forall f <- s.frames :: Genuine(s, f)
    ensures var a := Advance(s, o, op);
            && a.session == o.session && a.rule == o.rule
            && (if op.Number? then a.serial == Issued(s, o.session) + 1 else a.serial == o.serial)
            && (HasNumber(o) ==> HasNumber(a) && a.addr == o.addr && a.serial == o.serial)
            && (a.pc == Waiting ==> a.serial > 0)
            && (forall d | Uses(a, d) :: Uses(o, d) || d !in s.accepted)
            && (op.AcceptData? ==> Uses(a, op.data))
            && OpeningInv(s.(accepted := if op.AcceptData? then s.accepted + {op.data} else s.accepted), a)
  {
    if op.Check? {
      var f := s.datas[o.pc.data].frame;
      assert Genuine(s, f);
      HeaderRoundTrip(f.connID);
    }
  }

  /** The part of a server step that matters for the invariant. */
  ghost predicate Moves(s: State, t: State, pub: nat, numbers: bool) {
    && pub in s.opens && pub in t.opens
    && t.opens == s.opens[pub := t.opens[pub]]
    && (var o, a := s.opens[pub], t.opens[pub];
        && a.session == o.session && a.rule == o.rule
        && a.serial == (if numbers then Issued(s, o.session) + 1 else o.serial)
        && t.issued == (if numbers then s.issued[o.session := a.serial] else s.issued)
        && (HasNumber(o) ==> HasNumber(a) && a.addr == o.addr && a.serial == o.serial)
        && (forall d | Uses(a, d) :: Uses(o, d) || d !in s.accepted)
        && OpeningInv(t, a)
        && (t.frames == s.frames || (a.pc == Waiting && t.frames == s.frames + [FrameOf(pub, a)])))
    && s.accepted <= t.accepted
    && t.datas == s.datas && t.rules == s.rules && t.held == s.held
  }

  lemma ServerStepMoves(s: State, pub: nat, op: ServerOp)
    requires Inv(s) && pub in s.opens && Enabled(s, s.opens[pub], op)
    ensures Moves(s, ServerStep(s, pub, op), pub, op.Number?)
  {
    AdvanceFacts(s, s.opens[pub], op);
  }

  lemma MovesKeepsSerials(s: State, t: State, pub: nat, numbers: bool)
    requires SerialsInv(s) && Moves(s, t, pub, numbers)
    ensures SerialsInv(t)
  {
  }

  lemma MovesKeepsFrames(s: State, t: State, pub: nat, numbers: bool)
    requires Inv(s) && Moves(s, t, pub, numbers)
    ensures forall f <- t.frames :: Genuine(t, f)
    ensures forall d <- t.datas.Keys :: DataInv(t, d)
  {
    forall f | f in t.frames ensures Genuine(t, f) {
      if f in s.frames {
        assert Genuine(s, f);
      }
    }
    forall d | d in t.datas ensures DataInv(t, d) {
      assert DataInv(s, d);
    }
  }

  lemma MovesKeepsPairing(s: State, t: State, pub: nat, numbers: bool)
    requires Inv(s) && Moves(s, t, pub, numbers)
    ensures forall p <- t.opens.Keys :: OpeningInv(t, t.opens[p])
    ensures forall p, q, d | p in t.opens && q in t.opens && Uses(t.opens[p], d) && Uses(t.opens[q], d) :: p == q
  {
    forall p | p in t.opens
      ensures OpeningInv(t, t.opens[p])
      ensures p != pub ==> t.opens[p] == s.opens[p] && forall d | Uses(t.opens[p], d) :: d in s.accepted
    {
      assert p != pub ==> OpeningInv(s, s.opens[p]);
    }
  }

  lemma PublicKeepsSerials(s: State, pub: nat, o: Opening)
    requires SerialsInv(s) && pub !in s.opens && o.serial == 0
    ensures SerialsInv(s.(opens := s.opens[pub := o]))
  {
    assert forall p <- s.opens.Keys :: s.opens[pub := o][p] == s.opens[p];
  }

  lemma PublicKeepsInv(s: State, pub: nat, o: Opening)
    requires Inv(s) && pub !in s.opens && o.pc == Start && o.serial == 0
    ensures Inv(s.(opens := s.opens[pub := o]))
  {
    hide SerialsInv;
    var t := s.(opens := s.opens[pub := o]);
    assert forall p <- s.opens.Keys :: t.opens[p] == s.opens[p];
    PublicKeepsSerials(s, pub, o);
    forall f | f in t.frames ensures Genuine(t, f) {
      assert Genuine(s, f);
    }
    forall p | p in t.opens ensures OpeningInv(t, t.opens[p]) {
      assert p != pub ==> OpeningInv(s, s.opens[p]);
    }
    forall d | d in t.datas ensures DataInv(t, d) {
      assert DataInv(s, d);
    }
    assert forall d :: !Uses(o, d);
  }

  /** What a client step does to one data connection. */
  lemma DataAfter(s: State, op: Op, d: nat)
    requires !op.Server? && !op.Public?
    requires (d in s.datas ==> DataInv(s, d)) && forall id <- s.rules.Keys :: (id, s.rules[id]) in s.held
    ensures d in s.datas ==> d in Step(s, op).datas && Step(s, op).datas[d].frame == s.datas[d].frame
    ensures d in Step(s, op).datas ==> DataInv(Step(s, op), d)
  {
  }

  lemma RulesAfter(s: State, op: Op)
    requires Inv(s) && !op.Server? && !op.Public?
    ensures var t := Step(s, op);
            && t == s.(datas := t.datas, spent := t.spent, rules := t.rules, held := t.held)
            && s.held <= t.held
            && (forall id <- t.rules.Keys :: (id, t.rules[id]) in t.held)
  {
  }

  lemma ClientStepKeepsInv(s: State, op: Op)
    requires Inv(s) && !op.Server? && !op.Public?
    ensures Inv(Step(s, op))
  {
    RulesAfter(s, op);
    var t := Step(s, op);
    forall d
      ensures d in s.datas ==> d in t.datas && t.datas[d].frame == s.datas[d].frame
      ensures d in t.datas ==> DataInv(t, d)
    {
      assert d in s.datas ==> DataInv(s, d);
      DataAfter(s, op, d);
    }
    forall f | f in t.frames ensures Genuine(t, f) {
      assert Genuine(s, f);
    }
    forall p | p in t.opens ensures OpeningInv(t, t.opens[p]) {
      assert OpeningInv(s, s.opens[p]);
    }
    assert SerialsInv(t) by {
      assert t.opens == s.opens && t.issued == s.issued;
    }
  }

  lemma StepKeepsInv(s: State, op: Op)
    requires Inv(s)
    ensures Inv(Step(s, op))
  {
    if op.Public? {
      if op.pub !in s.opens {
        PublicKeepsInv(s, op.pub, Opening(op.session, op.rule, Start, 0, "", 0));
      }
    } else if !op.Server? {
      ClientStepKeepsInv(s, op);
    } else if op.pub in s.opens && Enabled(s, s.opens[op.pub], op.op) {
      var t := ServerStep(s, op.pub, op.op);
      ServerStepMoves(s, op.pub, op.op);
      MovesKeepsSerials(s, t, op.pub, op.op.Number?);
      MovesKeepsFrames(s, t, op.pub, op.op.Number?);
      MovesKeepsPairing(s, t, op.pub, op.op.Number?);
    }
  }

  lemma {:induction false} ExecKeepsInv(s: State, ops: seq<Op>)
    requires Inv(s)
    ensures Inv(Exec(s, ops))
    decreases |ops|
  {
    if ops != [] {
      StepKeepsInv(s, ops[0]);
      ExecKeepsInv(Step(s, ops[0]), ops[1..]);
    }
  }

  // ---- Addresses -----------------------------------------------------------

  predicate HasListener(o: Opening) {
    !o.pc.Start? && !o.pc.Over?
  }

  /** A data listener that is open is bound to its opening's address, and belongs to that opening alone. */
  ghost predicate ListenersInv(s: State) {
    && (forall h <- s.net.bound.Keys :: h < s.net.ledger.next)
    && (forall p <- s.opens.Keys | HasListener(s.opens[p]) ::
          s.opens[p].listener in s.net.bound && s.net.bound[s.opens[p].listener] == s.opens[p].addr)
    && (forall p, q | p in s.opens && q in s.opens && p != q && HasListener(s.opens[p]) && HasListener(s.opens[q]) ::
          s.opens[p].listener != s.opens[q].listener)
  }

  /** A listener that was dialled and is still open is bound to the address in the frame. */
  ghost predicate DialInv(net: Net, d: Data) {
    d.listener < net.ledger.next && (d.listener in net.bound ==> net.bound[d.listener] == d.frame.addr)
  }

  /** An accepted data connection has reached its opening's own listener. */
  ghost predicate ReachedInv(s: State, o: Opening) {
    o.pc.Checking? || o.pc.Relaying? ==> o.pc.data in s.datas && s.datas[o.pc.data].listener == o.listener
  }

  ghost predicate AddressInv(s: State) {
    && ListenersInv(s)
    && (forall d <- s.datas.Keys :: DialInv(s.net, s.datas[d]))
    && (forall p <- s.opens.Keys :: ReachedInv(s, s.opens[p]))
  }

  /** What a server step does to its own opening and to the listeners. */
  lemma ServerStepListener(s: State, pub: nat, op: ServerOp)
    requires pub in s.opens && Enabled(s, s.opens[pub], op)
    ensures var t, o := ServerStep(s, pub, op), s.opens[pub];
            var a := t.opens[pub];
            && t.opens == s.opens[pub := a] && t.datas == s.datas
            && (HasListener(o) ==> a.listener == o.listener && a.addr == o.addr)
            && t.net == (if HasListener(o) == HasListener(a) then s.net
                         else if HasListener(a) then Open(s.net, a.addr) else Close(s.net, o.listener))
            && (HasListener(a) && !HasListener(o) ==> a.listener == s.net.ledger.next)
            && (a.pc.Checking? || a.pc.Relaying? ==>
                  HasListener(o) && a.pc.data in s.datas &&
                  (s.datas[a.pc.data].listener == o.listener || (o.pc.Checking? && a.pc.data == o.pc.data)))
  {
  }

  lemma ServerStepKeepsListeners(s: State, pub: nat, op: ServerOp)
    requires ListenersInv(s) && pub in s.opens && Enabled(s, s.opens[pub], op)
    ensures ListenersInv(ServerStep(s, pub, op))
  {
    ServerStepListener(s, pub, op);
    hide ServerStep, Advance, Enabled;
    var t := ServerStep(s, pub, op);
    assert forall p <- s.opens.Keys | p != pub :: t.opens[p] == s.opens[p];
  }

  lemma ServerStepKeepsDials(s: State, pub: nat, op: ServerOp, d: nat)
    requires pub in s.opens && Enabled(s, s.opens[pub], op) && d in s.datas && DialInv(s.net, s.datas[d])
    ensures DialInv(ServerStep(s, pub, op).net, s.datas[d])
  {
    ServerStepListener(s, pub, op);
    hide ServerStep, Advance, Enabled;
  }

  lemma ServerStepKeepsAddresses(s: State, pub: nat, op: ServerOp)
    requires AddressInv(s) && pub in s.opens && Enabled(s, s.opens[pub], op)
    ensures AddressInv(ServerStep(s, pub, op))
  {
    ServerStepListener(s, pub, op);
    ServerStepKeepsListeners(s, pub, op);
    hide ServerStep, Advance, Enabled, ListenersInv;
    var t := ServerStep(s, pub, op);
    forall d | d in t.datas ensures DialInv(t.net, t.datas[d]) {
      ServerStepKeepsDials(s, pub, op, d);
    }
    forall p | p in t.opens ensures ReachedInv(t, t.opens[p]) {
      assert ReachedInv(s, s.opens[p]) || p !in s.opens;
    }
  }

  /** What a new connection, or a client step, does to one opening and to one data connection. */
  lemma OpeningAfter(s: State, op: Op, p: nat)
    requires !op.Server?
    ensures Step(s, op).net == s.net
    ensures p in s.opens ==> p in Step(s, op).opens && Step(s, op).opens[p] == s.opens[p]
    ensures p in Step(s, op).opens && p !in s.opens ==> Step(s, op).opens[p].pc.Start?
  {
  }

  lemma DialAfter(s: State, op: Op, d: nat)
    requires !op.Server? && (forall h <- s.net.bound.Keys :: h < s.net.ledger.next)
    requires d in s.datas ==> DialInv(s.net, s.datas[d])
    ensures d in Step(s, op).datas ==> DialInv(s.net, Step(s, op).datas[d])
    ensures d in s.datas ==> d in Step(s, op).datas && Step(s, op).datas[d].listener == s.datas[d].listener
  {
  }

  lemma ClientStepKeepsListeners(s: State, op: Op)
    requires ListenersInv(s) && !op.Server?
    ensures ListenersInv(Step(s, op))
  {
    hide Step;
    var t := Step(s, op);
    forall p
      ensures t.net == s.net
      ensures p in s.opens ==> p in t.opens && t.opens[p] == s.opens[p]
      ensures p in t.opens && p !in s.opens ==> t.opens[p].pc.Start?
    {
      OpeningAfter(s, op, p);
    }
    OpeningAfter(s, op, 0);
  }

  lemma ClientStepKeepsAddresses(s: State, op: Op)
    requires AddressInv(s) && !op.Server?
    ensures AddressInv(Step(s, op))
  {
    hide Step;
    var t := Step(s, op);
    OpeningAfter(s, op, 0);
    ClientStepKeepsListeners(s, op);
    forall d | d in t.datas ensures DialInv(t.net, t.datas[d]) {
      DialAfter(s, op, d);
    }
    forall p | p in t.opens ensures ReachedInv(t, t.opens[p]) {
      OpeningAfter(s, op, p);
      if p in s.opens && (s.opens[p].pc.Checking? || s.opens[p].pc.Relaying?) {
        assert ReachedInv(s, s.opens[p]);
        DialAfter(s, op, s.opens[p].pc.data);
      }
    }
  }

  lemma StepKeepsAddresses(s: State, op: Op)
    requires AddressInv(s)
    ensures AddressInv(Step(s, op))
  {
    hide AddressInv;
    if !op.Server? {
      ClientStepKeepsAddresses(s, op);
    } else if op.pub in s.opens && Enabled(s, s.opens[op.pub], op.op) {
      ServerStepKeepsAddresses(s, op.pub, op.op);
    }
  }

  lemma {:induction false} ExecKeepsAddresses(s: State, ops: seq<Op>)
    requires AddressInv(s)
    ensures AddressInv(Exec(s, ops))
    decreases |ops|
  {
    hide AddressInv, Step;
    if ops != [] {
      StepKeepsAddresses(s, ops[0]);
      ExecKeepsAddresses(Step(s, ops[0]), ops[1..]);
    }
  }

  lemma Reached(ops: seq<Op>)
    ensures Inv(Exec(START, ops)) && AddressInv(Exec(START, ops))
  {
    hide Exec;
    ExecKeepsInv(START, ops);
    ExecKeepsAddresses(START, ops);
  }

  // ---- No cross-wiring -----------------------------------------------------

  /** The opening of `pub` is being relayed to a data connection dialled for the frame issued for it. */
  predicate WellPaired(s: State, pub: nat) {
    && pub in s.opens && s.opens[pub].pc.Relaying? && s.opens[pub].pc.data in s.datas
    && s.datas[s.opens[pub].pc.data].frame == FrameOf(pub, s.opens[pub])
  }

  /** The frame carries the connID and the data address of the opening of `pub` but was issued for another one. */
  predicate Mistakable(s: State, pub: nat, f: OpenFrame)
    requires pub in s.opens
  {
    && f.connID == ConnID(s.opens[pub]) && f.addr == s.opens[pub].addr
    && f != FrameOf(pub, s.opens[pub])
  }

  lemma RelayedFrame(s: State, pub: nat) returns (d: Data)
    requires Inv(s) && AddressInv(s) && pub in s.opens && s.opens[pub].pc.Relaying?
    ensures s.opens[pub].pc.data in s.datas && d == s.datas[s.opens[pub].pc.data]
    ensures d.frame in s.frames && Genuine(s, d.frame)
    ensures d.frame.connID == ConnID(s.opens[pub]) && d.frame.addr == s.opens[pub].addr
    ensures d.pc.Linked? ==> (d.frame.rule, d.pc.target) in s.held
    ensures d.frame.session == s.opens[pub].session && Issued(s, s.opens[pub].session) < UINT64_SIZE ==>
              d.frame == FrameOf(pub, s.opens[pub])
  {
    var o := s.opens[pub];
    assert OpeningInv(s, o) && ReachedInv(s, o);
    d := s.datas[o.pc.data];
    assert DataInv(s, o.pc.data) && DialInv(s.net, d);
    assert Genuine(s, d.frame);
    if d.frame.session == o.session && Issued(s, o.session) < UINT64_SIZE {
      assert s.opens[d.frame.pub].serial == o.serial > 0;
    }
  }

  /**
   * In every reachable state, with any number of sessions, a public connection that is being relayed is relayed to
   * a data connection that the client dialled for a frame with this connection's connID and data address. That
   * frame is the one issued for this very connection unless another frame was sent with both the same; and then a
   * target the client linked it to was held under the rule ID the connection arrived on.
   */
  lemma Pairing(ops: seq<Op>, pub: nat)
    ensures var s := Exec(START, ops);
            pub in s.opens && s.opens[pub].pc.Relaying? ==>
              && s.opens[pub].pc.data in s.datas
              && (var o, d := s.opens[pub], s.datas[s.opens[pub].pc.data];
                  && d.frame in s.frames && d.frame.connID == ConnID(o) && d.frame.addr == o.addr
                  && (WellPaired(s, pub) || Mistakable(s, pub, d.frame))
                  && ((forall f <- s.frames :: !Mistakable(s, pub, f)) ==> WellPaired(s, pub))
                  && (WellPaired(s, pub) && d.pc.Linked? ==> (o.rule, d.pc.target) in s.held))
  {
    Reached(ops);
    var s := Exec(START, ops);
    if pub in s.opens && s.opens[pub].pc.Relaying? {
      var d := RelayedFrame(s, pub);
    }
  }

  /** No data connection is relayed to two public connections. */
  lemma RelayIsExclusive(ops: seq<Op>, p: nat, q: nat)
    ensures var s := Exec(START, ops);
            p in s.opens && q in s.opens && s.opens[p].pc.Relaying? && s.opens[q].pc == s.opens[p].pc ==> p == q
  {
    ExecKeepsInv(START, ops);
    var s := Exec(START, ops);
    if p in s.opens && q in s.opens && s.opens[p].pc.Relaying? && s.opens[q].pc == s.opens[p].pc {
      var d := s.opens[p].pc.data;
      assert Uses(s.opens[p], d) && Uses(s.opens[q], d);
    }
  }

  /**
   * Within one session connIDs alone tell connections apart, while it has issued fewer than 2^64 of them: with a
   * single session there is no cross-wiring at all.
   */
  lemma NoCrossWiring(ops: seq<Op>, pub: nat)
    ensures var s := Exec(START, ops);
            (pub in s.opens && s.opens[pub].pc.Relaying? &&
             (forall p <- s.opens.Keys :: s.opens[p].session == s.opens[pub].session) &&
             Issued(s, s.opens[pub].session) < UINT64_SIZE) ==> WellPaired(s, pub)
  {
    Reached(ops);
    var s := Exec(START, ops);
    if pub in s.opens && s.opens[pub].pc.Relaying? {
      var d := RelayedFrame(s, pub);
      assert d.frame.pub in s.opens;
    }
  }

  lemma {:induction false} ExecConcat(s: State, p: seq<Op>, q: seq<Op>)
    ensures Exec(s, p + q) == Exec(Exec(s, p), q)
    decreases |p|
  {
    if p == [] {
      assert p + q == q;
    } else {
      assert (p + q)[1..] == p[1..] + q;
      ExecConcat(Step(s, p[0]), p[1..], q);
    }
  }

  /** A run longer by one step. */
  lemma Then(ops: seq<Op>, op: Op) returns (longer: seq<Op>)
    ensures Exec(START, longer) == Step(Exec(START, ops), op)
  {
    longer := ops + [op];
    ExecConcat(START, ops, [op]);
    assert Exec(Exec(START, ops), [op]) == Exec(Step(Exec(START, ops), op), []);
  }

  /** The steps of one public connection up to its open frame. */
  function FrameSteps(s: State, pub: nat, session: nat, rule: string, addr: Addr): State {
    var s1 := Step(s, Public(pub, session, rule));
    var s2 := Step(s1, Server(pub, ListenData(Some(addr))));
    var s3 := Step(s2, Server(pub, Number));
    var s4 := Step(s3, Server(pub, Pend));
    Step(s4, Server(pub, SendOpen(true)))
  }

  lemma NumberSteps(s: State, pub: nat, session: nat, rule: string, addr: Addr)
    requires pub !in s.opens && addr !in s.net.bound.Values
    ensures var s1 := Step(s, Public(pub, session, rule));
            var s2 := Step(s1, Server(pub, ListenData(Some(addr))));
            var n := Issued(s, session) + 1;
            Step(s2, Server(pub, Number)) ==
              s.(opens := s.opens[pub := Opening(session, rule, Numbered, s.net.ledger.next, addr, n)],
                 issued := s.issued[session := n], net := Open(s.net, addr))
  {
    var s1 := Step(s, Public(pub, session, rule));
    var o := Opening(session, rule, Start, 0, "", 0);
    assert s1 == s.(opens := s.opens[pub := o]);
    var s2 := Step(s1, Server(pub, ListenData(Some(addr))));
    var o2 := o.(pc := Listening, listener := s.net.ledger.next, addr := addr);
    assert s2 == s.(opens := s1.opens[pub := o2], net := Open(s.net, addr));
    assert s1.opens[pub := o2] == s.opens[pub := o2];
    var o3 := o2.(pc := Numbered, serial := Issued(s, session) + 1);
    assert s2.opens[pub := o3] == s.opens[pub := o3];
  }

  lemma SendSteps(s: State, pub: nat, o: Opening)
    requires pub in s.opens && s.opens[pub] == o && o.pc == Numbered
    ensures var t := Step(Step(s, Server(pub, Pend)), Server(pub, SendOpen(true)));
            t == s.(opens := s.opens[pub := o.(pc := Waiting)], frames := s.frames + [FrameOf(pub, o)],
                    pending := s.pending[(o.session, ConnID(o)) := pub])
  {
    var s1 := Step(s, Server(pub, Pend));
    var o1 := o.(pc := Pended);
    assert s1 == s.(opens := s.opens[pub := o1], pending := s.pending[(o.session, ConnID(o)) := pub]);
    assert s1.opens[pub := o.(pc := Waiting)] == s.opens[pub := o.(pc := Waiting)];
  }

  lemma FrameStepsResult(s: State, pub: nat, session: nat, rule: string, addr: Addr)
    requires pub !in s.opens && addr !in s.net.bound.Values
    ensures var t := FrameSteps(s, pub, session, rule, addr);
            var n := Issued(s, session) + 1;
            && t.opens == s.opens[pub := Opening(session, rule, Waiting, s.net.ledger.next, addr, n)]
            && t.frames == s.frames + [OpenFrame(pub, session, rule, n % UINT64_SIZE, addr)]
            && t.issued == s.issued[session := n] && t.rules == s.rules
            && t.datas == s.datas && t.spent == s.spent && t.accepted == s.accepted && t.net == Open(s.net, addr)
  {
    hide Step;
    var o := Opening(session, rule, Numbered, s.net.ledger.next, addr, Issued(s, session) + 1);
    var s3 := s.(opens := s.opens[pub := o], issued := s.issued[session := o.serial], net := Open(s.net, addr));
    NumberSteps(s, pub, session, rule, addr);
    SendSteps(s3, pub, o);
    assert s3.opens[pub := o.(pc := Waiting)] == s.opens[pub := o.(pc := Waiting)];
  }

  lemma ThenFrameSteps(ops: seq<Op>, pub: nat, session: nat, rule: string, addr: Addr) returns (longer: seq<Op>)
    ensures Exec(START, longer) == FrameSteps(Exec(START, ops), pub, session, rule, addr)
  {
    longer := Then(ops, Public(pub, session, rule));
    longer := Then(longer, Server(pub, ListenData(Some(addr))));
    longer := Then(longer, Server(pub, Number));
    longer := Then(longer, Server(pub, Pend));
    longer := Then(longer, Server(pub, SendOpen(true)));
  }
}

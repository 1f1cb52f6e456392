/** Whole runs of the engine, restarts of the process included. */
module EngineRuns {
  import opened Common
  import opened Decimal
  import opened Network
  import opened Rules
  import opened Engine
  import opened EngineProofs

  datatype Op =
    | AddOp(typ: string, name: string, listen: string, target: string, credential: string, answer: Option<Addr>)
    | RemoveOp(id: string)
    | UpdateOp(id: string, name: string, listen: string, target: string, credential: string, answer: Option<Addr>)
    | RestartOp(order: seq<string>, answers: seq<Option<Addr>>)
    | RestoreOp(saved: seq<Rule>, answers: seq<Option<Addr>>)  // of distinct IDs that are not live
    | RebootOp(answers: seq<Option<Addr>>)                     // save the list; a new process restores it

  /** Runs stay below 2^63 - 1 IDs, so that the counter never leaves Go's int. */
  ghost predicate Enabled(e: State, op: Op) {
    match op
    case AddOp(_, _, _, _, _, _) => e.nextID < MAX_INT
    case RestartOp(order, answers) => Walks(order, e.rules.Keys) && |answers| == |order| && StopReady(e)
    case RestoreOp(saved, answers) => Restorable(e, saved) && |answers| == |saved|
    case RebootOp(answers) => |answers| == |List(e)|
    case _ => StopReady(e)
  }

  /** Steps that are not enabled change nothing. */
  ghost function Step(e: State, op: Op): State {
    if !Enabled(e, op) then e
    else
      match op
      case AddOp(typ, name, listen, target, credential, answer) =>
        Add(e, typ, name, listen, target, credential, answer)
      case RemoveOp(id) => Remove(e, id)
      case UpdateOp(id, name, listen, target, credential, answer) =>
        Update(e, id, name, listen, target, credential, answer)
      case RestartOp(order, answers) => Restart(e, order, answers)
      case RestoreOp(saved, answers) => Restore(e, saved, answers)
      case RebootOp(answers) => Reboot(e, answers)
  }

  ghost function Exec(e: State, ops: seq<Op>): State
    decreases |ops|
  {
    if ops == [] then e else Exec(Step(e, ops[0]), ops[1..])
  }

  lemma NewFits(remote: bool)
    ensures Inv(New(remote))
  {
  }

  lemma ListIsRestorable(e: State)
    requires IdsMatch(e)
    ensures Restorable(New(e.remote), Persist(List(e)))
  {
    var l := List(e);
    ListExactIff(e);
    hide Print, Value, List;
    forall i, j | 0 <= i < j < |l| ensures Persist(l)[i].id != Persist(l)[j].id {
      assert l[i] in l && l[j] in l && Value(l[i].id) < Value(l[j].id);
    }
  }

  lemma RebootKeepsInv(e: State, answers: seq<Option<Addr>>)
    requires Inv(e) && |answers| == |List(e)|
    ensures Inv(Reboot(e, answers))
  {
    NewFits(e.remote);
    ListIsRestorable(e);
    hide Inv, List, Restorable, New;
    RestoreKeepsInv(New(e.remote), Persist(List(e)), answers);
  }

  lemma StepKeepsInv(e: State, op: Op)
    requires Inv(e)
    ensures Inv(Step(e, op))
  {
    if Enabled(e, op) {
      match op
      case AddOp(typ, name, listen, target, credential, answer) =>
        AddKeepsInv(e, typ, name, listen, target, credential, answer);
      case RemoveOp(id) => RemoveKeepsInv(e, id);
      case UpdateOp(id, name, listen, target, credential, answer) =>
        UpdateKeepsInv(e, id, name, listen, target, credential, answer);
      case RestartOp(order, answers) => RestartKeepsInv(e, order, answers);
      case RestoreOp(saved, answers) => RestoreKeepsInv(e, saved, answers);
      case RebootOp(answers) => RebootKeepsInv(e, answers);
    }
  }

  lemma {:induction false} ExecKeepsInv(e: State, ops: seq<Op>)
    requires Inv(e)
    ensures Inv(Exec(e, ops))
    decreases |ops|
  {
    if ops != [] {
      StepKeepsInv(e, ops[0]);
      ExecKeepsInv(Step(e, ops[0]), ops[1..]);
    }
  }

  /**
   * Listener conservation over every run: each listener the process ever opened is held under exactly one
   * existing rule that is not remote, or was closed exactly once, and so for the stop channels, whose table has
   * the same IDs; a rule that is not remote has a listener if it is running and none if it is in error.
   */
  lemma ListenersConserved(remote: bool, ops: seq<Op>)
    ensures var e := Exec(New(remote), ops);
            && Conserved(e)
            && (forall id <- e.lns.Keys :: id in e.rules && !IsRemote(e.rules[id]))
            && (forall id <- e.rules.Keys | !IsRemote(e.rules[id]) ::
                  && (e.rules[id].status == Running ==> id in e.lns)
                  && (e.rules[id].status == Error ==> id !in e.lns))
  {
    ExecKeepsInv(New(remote), ops);
    var e := Exec(New(remote), ops);
    forall id | id in e.rules ensures StatusFits(e.rules[id], id in e.lns) {
    }
  }

  // ---- IDs -----------------------------------------------------------------

  lemma FewerKeepNumbered(e: State, t: State)
    requires Numbered(e) && t.nextID == e.nextID && t.rules.Keys <= e.rules.Keys && RulesFit(t)
    ensures Numbered(t)
  {
  }

  lemma AddKeys(e: State, typ: string, name: string, listen: string, target: string, credential: string,
                answer: Option<Addr>)
    ensures var t := Add(e, typ, name, listen, target, credential, answer);
            && t.rules.Keys == e.rules.Keys + {Print(e.nextID)} && t.nextID == e.nextID + 1
            && t.rules[Print(e.nextID)].id == Print(e.nextID)
            && forall id <- e.rules.Keys | id != Print(e.nextID) :: t.rules[id] == e.rules[id]
  {
    var r := NewRule(e, typ, name, listen, target, credential);
    var e' := e.(rules := e.rules[r.id := r], nextID := e.nextID + 1);
    hide Print, Start, Delegate;
    StartOnlyStatus(e', r.id, answer);
    DelegateOnlyStatus(e', r.id);
  }

  lemma AddNumbered(e: State, typ: string, name: string, listen: string, target: string, credential: string,
                    answer: Option<Addr>)
    requires Numbered(e) && e.nextID < MAX_INT
    ensures Numbered(Add(e, typ, name, listen, target, credential, answer))
  {
    PrintCanonical(e.nextID);
    AddKeys(e, typ, name, listen, target, credential, answer);
  }

  lemma RemoveKeys(e: State, id: string)
    requires StopReady(e)
    ensures Remove(e, id).rules.Keys == e.rules.Keys - {id} && Remove(e, id).nextID == e.nextID
  {
  }

  lemma StartKeys(e: State, id: string, answer: Option<Addr>)
    requires id in e.rules
    ensures Start(e, id, answer).rules.Keys == e.rules.Keys && Start(e, id, answer).nextID == e.nextID
  {
  }

  lemma StopKeys(e: State, id: string)
    requires id in e.rules && (id in e.lns ==> id in e.stop)
    ensures Stop(e, id).rules.Keys == e.rules.Keys && Stop(e, id).nextID == e.nextID
  {
  }

  lemma UpdateKeys(e: State, id: string, name: string, listen: string, target: string, credential: string,
                   answer: Option<Addr>)
    requires StopReady(e)
    ensures var t := Update(e, id, name, listen, target, credential, answer);
            t.rules.Keys == e.rules.Keys && t.nextID == e.nextID
  {
    if id in e.rules && !IsRemote(e.rules[id]) {
      StopKeys(e, id);
      var e' := Stop(e, id);
      var r := WithFields(e'.rules[id], name, listen, target).(status := Running);
      StartKeys(e'.(rules := e'.rules[id := r]), id, answer);
      hide Stop, Start;
    }
  }

  /** A restored list holds plain decimals of numbers from 1 on, as every list that was saved does. */
  ghost predicate RestoresInRange(op: Op) {
    op.RestoreOp? ==> InRange(op.saved)
  }

  lemma StepKeepsNumbered(e: State, op: Op)
    requires Numbered(e) && Inv(e) && RestoresInRange(op)
    ensures Numbered(Step(e, op))
  {
    if Enabled(e, op) {
      StepKeepsInv(e, op);
      match op
      case AddOp(typ, name, listen, target, credential, answer) =>
        AddNumbered(e, typ, name, listen, target, credential, answer);
      case RestartOp(order, answers) =>
        RestartKeepsInv(e, order, answers);
        FewerKeepNumbered(e, Step(e, op));
      case RestoreOp(saved, answers) => RestoreNumbered(e, saved, answers);
      case RebootOp(answers) => RebootKeepsRules(e, answers);
      case RemoveOp(id) =>
        RemoveKeys(e, id);
        FewerKeepNumbered(e, Step(e, op));
      case UpdateOp(id, name, listen, target, credential, answer) =>
        UpdateKeys(e, id, name, listen, target, credential, answer);
        FewerKeepNumbered(e, Step(e, op));
    }
  }

  lemma {:induction false} ExecKeepsNumbered(e: State, ops: seq<Op>)
    requires Numbered(e) && Inv(e) && forall op <- ops :: RestoresInRange(op)
    ensures Numbered(Exec(e, ops)) && Inv(Exec(e, ops))
    decreases |ops|
  {
    if ops != [] {
      StepKeepsNumbered(e, ops[0]);
      StepKeepsInv(e, ops[0]);
      ExecKeepsNumbered(Step(e, ops[0]), ops[1..]);
    }
  }

  /**
   * After every history of the engine's operations and restarts, `List` shows each rule exactly once, in ID order,
   * if the lists restored have plain decimal IDs.
   */
  lemma ListIsExact(remote: bool, ops: seq<Op>)
    requires forall op <- ops :: RestoresInRange(op)
    ensures var e := Exec(New(remote), ops);
            && Ascending(List(e))
            && (forall id <- e.rules.Keys :: e.rules[id] in List(e) && e.rules[id].id == id)
            && (forall r <- List(e) :: r.id in e.rules && e.rules[r.id] == r)
  {
    ExecKeepsNumbered(New(remote), ops);
    ListExactIff(Exec(New(remote), ops));
  }

  /** Restarting after any such history, with any refusals, shows the same rules and never reuses an ID. */
  lemma RestartAfterAnyHistory(remote: bool, ops: seq<Op>, answers: seq<Option<Addr>>)
    requires forall op <- ops :: RestoresInRange(op)
    requires |answers| == |List(Exec(New(remote), ops))|
    ensures var e := Exec(New(remote), ops);
            var t := Reboot(e, answers);
            && Persist(List(t)) == Persist(List(e))
            && Numbered(t) && Print(t.nextID) !in t.rules
  {
    ExecKeepsNumbered(New(remote), ops);
    var e := Exec(New(remote), ops);
    RestartRoundTrip(e, answers);
    PrintCanonical(Reboot(e, answers).nextID);
  }
}

/** The rule engine (internal/engine/engine.go): rules, local listeners, stop channels and the ID counter. */
module Engine {
  import opened Common
  import opened Decimal
  import opened Network
  import opened Rules

  /** What the engine asks of its remote backend. */
  datatype Call = AddRemote(rule: Rule) | RemoveRemote(id: string)

  /**
   * `remote` says whether a backend is configured, `calls` what it was asked so far. `chans` counts the
   * creations and closes of stop channels as `net` does for listeners.
   */
  datatype State = State(
    rules: map<string, Rule>,
    lns: map<string, nat>,
    stop: map<string, nat>,
    nextID: nat,
    remote: bool,
    calls: seq<Call>,
    net: Net,
    chans: Ledger)

  function New(remote: bool): State {
    State(map[], map[], map[], 1, remote, [], EMPTY_NET, EMPTY_LEDGER)
  }

  function SetStatus(e: State, id: string, status: Status): State
    requires id in e.rules
  {
    e.(rules := e.rules[id := e.rules[id].(status := status)])
  }

  function Ask(e: State, call: Call): State {
    e.(calls := e.calls + [call])
  }

  /** `startLocked` when the listen is granted. */
  function Bind(e: State, id: string, addr: Addr): State {
    e.(lns := e.lns[id := e.net.ledger.next], net := Open(e.net, addr),
       stop := e.stop[id := e.chans.next], chans := Create(e.chans))
  }

  /** `startLocked`; a refusal sets the status to error, as every caller does. */
  function Start(e: State, id: string, answer: Option<Addr>): State
    requires id in e.rules
  {
    if Accepts(e.net, answer) then Bind(e, id, answer.value) else SetStatus(e, id, Error)
  }

  /** `stopLocked`: closing a missing stop channel would panic, hence the requirement. */
  function Stop(e: State, id: string): State
    requires id in e.rules && (id in e.lns ==> id in e.stop)
  {
    if id !in e.lns then e
    else
      SetStatus(e.(lns := e.lns - {id}, net := Close(e.net, e.lns[id]),
                   stop := e.stop - {id}, chans := Release(e.chans, e.stop[id])), id, Stopped)
  }

  /** Puts a remote rule's registration to the backend, or marks the rule failed when there is none. */
  function Delegate(e: State, id: string): State
    requires id in e.rules
  {
    if e.remote then
      var e' := SetStatus(e, id, Pending);
      Ask(e', AddRemote(e'.rules[id]))
    else SetStatus(e, id, Error)
  }

  function NewRule(e: State, typ: string, name: string, listen: string, target: string, credential: string): Rule {
    Rule(Print(e.nextID), typ, name, listen, target, Running, credential)
  }

  function Add(e: State, typ: string, name: string, listen: string, target: string, credential: string,
               answer: Option<Addr>): State
  {
    var r := NewRule(e, typ, name, listen, target, credential);
    var e' := e.(rules := e.rules[r.id := r], nextID := e.nextID + 1);
    if IsRemote(r) then Delegate(e', r.id) else Start(e', r.id, answer)
  }

  /** `Add` reports success unless the backend is missing or the listen was refused; the rule stays either way. */
  predicate AddSucceeds(e: State, typ: string, answer: Option<Addr>) {
    if typ == REMOTE then e.remote else Accepts(e.net, answer)
  }

  predicate StopReady(e: State) {
    forall id <- e.lns.Keys :: id in e.stop
  }

  function Remove(e: State, id: string): State
    requires StopReady(e)
  {
    if id !in e.rules then e
    else if IsRemote(e.rules[id]) then
      var e' := if e.remote then Ask(e, RemoveRemote(id)) else e;
      e'.(rules := e.rules - {id})
    else
      var e' := Stop(e, id);
      e'.(rules := e'.rules - {id})
  }

  function WithFields(r: Rule, name: string, listen: string, target: string): Rule {
    r.(name := name, listen := listen, target := target)
  }

  function Update(e: State, id: string, name: string, listen: string, target: string, credential: string,
                  answer: Option<Addr>): State
    requires StopReady(e)
  {
    if id !in e.rules then e
    else if IsRemote(e.rules[id]) then
      var r := WithFields(e.rules[id], name, listen, target).(credential := credential, status := Pending);
      var e' := e.(rules := e.rules[id := r]);
      if e.remote then Ask(Ask(e', RemoveRemote(id)), AddRemote(r)) else e'
    else
      var e' := Stop(e, id);
      var r := WithFields(e'.rules[id], name, listen, target).(status := Running);
      Start(e'.(rules := e'.rules[id := r]), id, answer)
  }

  predicate UpdateSucceeds(e: State, id: string, answer: Option<Addr>)
    requires StopReady(e)
  {
    id in e.rules && (IsRemote(e.rules[id]) || Accepts(Stop(e, id).net, answer))
  }

  /** One local rule's turn in `Restart`. */
  function RestartOne(e: State, id: string, answer: Option<Addr>): State
    requires id in e.rules && StopReady(e)
  {
    if IsRemote(e.rules[id]) then e
    else
      var e' := Stop(e, id);
      if Accepts(e'.net, answer) then SetStatus(Bind(e', id, answer.value), id, Running) else SetStatus(e', id, Error)
  }

  lemma RestartOneKeys(e: State, id: string, answer: Option<Addr>)
    requires id in e.rules && StopReady(e)
    ensures RestartOne(e, id, answer).rules.Keys == e.rules.Keys && StopReady(RestartOne(e, id, answer))
  {
  }

  /** `Restart` ranges over the rule map; `order` is the order in which Go happens to walk it. */
  function Restart(e: State, order: seq<string>, answers: seq<Option<Addr>>): State
    requires (forall id <- order :: id in e.rules) && |answers| == |order| && StopReady(e)
    decreases |order|
  {
    if order == [] then e
    else
      RestartOneKeys(e, order[0], answers[0]);
      Restart(RestartOne(e, order[0], answers[0]), order[1..], answers[1..])
  }

  /** One persisted rule's turn in `Restore`. The new record starts without a status. */
  function RestoreOne(e: State, saved: Rule, answer: Option<Addr>): State {
    var n := Atoi(saved.id);
    var r := DropStatus(saved);
    var e' := e.(rules := e.rules[r.id := r],
                 nextID := if n.Some? && n.value >= e.nextID then n.value + 1 else e.nextID);
    if IsRemote(r) then Delegate(e', r.id) else Start(e', r.id, answer)
  }

  function Restore(e: State, saved: seq<Rule>, answers: seq<Option<Addr>>): State
    requires |answers| == |saved|
    decreases |saved|
  {
    if saved == [] then e
    else Restore(RestoreOne(e, saved[0], answers[0]), saved[1..], answers[1..])
  }

  /** The rules with IDs 1 to `n`, in that order. */
  function ListUpTo(e: State, n: nat): seq<Rule> {
    if n == 0 then []
    else ListUpTo(e, n - 1) + if Print(n) in e.rules then [e.rules[Print(n)]] else []
  }

  function List(e: State): seq<Rule> {
    ListUpTo(e, e.nextID)
  }

  /** `Store.Save`: what the rule file holds afterwards. */
  function Persist(rules: seq<Rule>): seq<Rule> {
    seq(|rules|, i requires 0 <= i < |rules| => DropStatus(rules[i]))
  }
}

/**
 * The API operations (internal/api/api.go) over the engine, the SSH manager, the credential store and the rule
 * file, with client connections coming and going and the daemon restarting in between.
 */
module Api {
  import opened Common
  import opened Network
  import opened Rules
  import E = Engine
  import M = Manager
  import S = SshClient
  import C = Credentials

  /** `file` is the rule list last saved. */
  datatype State = State(eng: E.State, mgr: M.State, file: seq<Rule>)

  const START := State(E.New(true), M.New(C.Load([])), [])

  /** The manager serving the engine's calls in order. */
  function Serve(m: M.State, calls: seq<E.Call>, env: M.Env): M.State {
    if calls == [] then m
    else
      var m' := Serve(m, calls[..|calls| - 1], env);
      match calls[|calls| - 1]
      case AddRemote(r) => M.AddRemote(m', r, env)
      case RemoveRemote(id) => M.RemoveRemote(m', id)
  }

  lemma {:induction false} ServeKeepsStore(m: M.State, calls: seq<E.Call>, env: M.Env)
    ensures Serve(m, calls, env).store == m.store
    decreases |calls|
  {
    if calls != [] {
      ServeKeepsStore(m, calls[..|calls| - 1], env);
    }
  }

  /** The engine moved to `e`; its calls reach the manager. */
  function Dispatch(a: State, e: E.State, env: M.Env): State {
    a.(eng := e.(calls := []), mgr := Serve(a.mgr, e.calls, env))
  }

  /** `saveRules` */
  function Save(a: State): State {
    a.(file := E.Persist(E.List(a.eng)))
  }

  /** `a` is what a successful write leaves; the rule file only changes when it is written. */
  function OnDisk(a: State, file: seq<Rule>, write: Write): State {
    if write == Done then a else a.(file := file)
  }

  /** So for the credential file. */
  function WithCredsOnDisk(a: State, file: C.File, write: Write): State {
    a.(mgr := M.WithFile(a.mgr, file, write))
  }

  // ---- Operations ----------------------------------------------------------

  function CreateRule(a: State, typ: string, name: string, listen: string, target: string, credential: string,
                      answer: Option<Addr>, env: M.Env): State
  {
    if typ == REMOTE && credential == "" then a
    else
      var a' := Dispatch(a, E.Add(a.eng, typ, name, listen, target, credential, answer), env);
      if E.AddSucceeds(a.eng, typ, answer) then Save(a') else a'
  }

  function DeleteRule(a: State, id: string, env: M.Env): State
    requires E.StopReady(a.eng)
  {
    if id in a.eng.rules then Save(Dispatch(a, E.Remove(a.eng, id), env)) else a
  }

  function UpdateRule(a: State, id: string, name: string, listen: string, target: string, credential: string,
                      answer: Option<Addr>, env: M.Env): State
    requires E.StopReady(a.eng)
  {
    var a' := Dispatch(a, E.Update(a.eng, id, name, listen, target, credential, answer), env);
    if E.UpdateSucceeds(a.eng, id, answer) then Save(a') else a'
  }

  predicate Uses(r: Rule, cred: string) {
    IsRemote(r) && r.credential == cred
  }

  /** The engine removes a rule, and with it the manager; that needs nothing from the environment. */
  function RemoveOne(a: State, id: string): (b: State)
    requires E.StopReady(a.eng)
    ensures E.StopReady(b.eng) && b.mgr.store == a.mgr.store
  {
    ServeKeepsStore(a.mgr, E.Remove(a.eng, id).calls, NOTHING);
    Dispatch(a, E.Remove(a.eng, id), NOTHING)
  }

  const NOTHING := M.Env({}, map[])

  /** The loop of `deleteCredential` over the listed rules. */
  function Purge(a: State, listed: seq<Rule>, cred: string): (b: State)
    requires E.StopReady(a.eng)
    ensures E.StopReady(b.eng) && b.mgr.store == a.mgr.store
    decreases |listed|
  {
    if listed == [] then a
    else Purge(if Uses(listed[0], cred) then RemoveOne(a, listed[0].id) else a, listed[1..], cred)
  }

  function DeleteCredential(a: State, cred: string, order: seq<string>): State
    requires E.StopReady(a.eng) && Walks(order, a.mgr.store.cs.Keys - {cred})
  {
    var a' := Purge(a, E.List(a.eng), cred);
    a'.(mgr := M.RemoveCredential(a'.mgr, cred, order))
  }

  /** A new daemon: credentials and rules come from their files, clients start anew. */
  function Reboot(a: State, answers: seq<Option<Addr>>, env: M.Env): State
    requires |answers| == |a.file|
  {
    var m := M.New(C.Load(a.mgr.store.file));
    Dispatch(a.(mgr := m), E.Restore(E.New(true), a.file, answers), env)
  }

  datatype Op =
    | CreateRuleOp(typ: string, name: string, listen: string, target: string, credential: string,
                   answer: Option<Addr>, env: M.Env, write: Write)
    | DeleteRuleOp(id: string, env: M.Env, write: Write)
    | UpdateRuleOp(id: string, name: string, listen: string, target: string, credential: string,
                   answer: Option<Addr>, env: M.Env, write: Write)
    | RestartRulesOp(order: seq<string>, answers: seq<Option<Addr>>)
    | CreateCredentialOp(c: C.Credential, write: Write, order: seq<string>)
    | UpdateCredentialOp(cred: string, c: C.Credential, write: Write, order: seq<string>)
    | DeleteCredentialOp(cred: string, write: Write, order: seq<string>)
    | ClientOp(cred: string, op: S.Op)
    | RebootOp(answers: seq<Option<Addr>>, env: M.Env)

  /** Of a client's steps, the ones it takes by itself. */
  predicate OwnStep(op: S.Op) {
    op.ConnectOp? || op.DropOp? || op.DialFailsOp?
  }

  /** Runs stay below 2^63 - 1 rules and credentials. */
  predicate Enabled(a: State, op: Op) {
    E.StopReady(a.eng) &&
    match op
    case CreateRuleOp(_, _, _, _, _, _, _, _) => a.eng.nextID < MAX_INT
    case RestartRulesOp(order, answers) => Walks(order, a.eng.rules.Keys) && |answers| == |order|
    case CreateCredentialOp(c, write, order) => C.Enabled(a.mgr.store, C.AddOp(c, write, order))
    case UpdateCredentialOp(cred, c, write, order) => C.Enabled(a.mgr.store, C.UpdateOp(cred, c, write, order))
    case DeleteCredentialOp(cred, write, order) => C.Enabled(a.mgr.store, C.DeleteOp(cred, write, order))
    case ClientOp(cred, o) => cred in a.mgr.clients && OwnStep(o)
    case RebootOp(answers, env) => |answers| == |a.file|
    case _ => true
  }

  function WithStore(a: State, store: C.State): State {
    a.(mgr := a.mgr.(store := store))
  }

  /** Steps that are not enabled change nothing. */
  function Step(a: State, op: Op): State {
    if !Enabled(a, op) then a
    else
      match op
      case CreateRuleOp(typ, name, listen, target, credential, answer, env, write) =>
        OnDisk(CreateRule(a, typ, name, listen, target, credential, answer, env), a.file, write)
      case DeleteRuleOp(id, env, write) => OnDisk(DeleteRule(a, id, env), a.file, write)
      case UpdateRuleOp(id, name, listen, target, credential, answer, env, write) =>
        OnDisk(UpdateRule(a, id, name, listen, target, credential, answer, env), a.file, write)
      case RestartRulesOp(order, answers) => Dispatch(a, E.Restart(a.eng, order, answers), NOTHING)
      case CreateCredentialOp(c, write, order) => WithStore(a, C.Step(a.mgr.store, C.AddOp(c, write, order)))
      case UpdateCredentialOp(cred, c, write, order) =>
        WithStore(a, C.Step(a.mgr.store, C.UpdateOp(cred, c, write, order)))
      case DeleteCredentialOp(cred, write, order) =>
        WithCredsOnDisk(DeleteCredential(a, cred, order), a.mgr.store.file, write)
      case ClientOp(cred, o) => a.(mgr := M.WithClient(a.mgr, cred, S.Step(a.mgr.clients[cred], o)))
      case RebootOp(answers, env) => Reboot(a, answers, env)
  }

  function Exec(a: State, ops: seq<Op>): State
    decreases |ops|
  {
    if ops == [] then a else Exec(Step(a, ops[0]), ops[1..])
  }
}

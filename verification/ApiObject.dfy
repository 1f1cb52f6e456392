/** The API server as the object it is, over an engine, a manager and a rule store that change in place. */
module ApiObject {
  import opened Common
  import opened Network
  import opened Rules
  import A = Api
  import C = Credentials
  import E = Engine
  import EO = EngineObject
  import M = Manager
  import MO = ManagerObject

  class Server {
    const eng: EO.Engine
    const mgr: MO.Manager
    const rules: EO.Store

    ghost predicate Valid()
      reads this, mgr, mgr.clients.Values
    {
      mgr.Valid()
    }

    ghost function View(): A.State
      reads this, eng, mgr, mgr.clients.Values, mgr.store, rules
    {
      A.State(eng.View(), mgr.View(), rules.file)
    }

    /** A daemon starting from its two files, as main.go wires it up. */
    constructor (ruleFile: seq<Rule>, credFile: C.File, answers: seq<Option<Addr>>, env: M.Env)
      requires |answers| == |ruleFile|
      ensures Valid()
      ensures View() == A.Dispatch(A.State(E.New(true), M.New(C.Load(credFile)), ruleFile),
                                   E.Restore(E.New(true), ruleFile, answers), env)
    {
      var creds := new C.CredStore(credFile);
      mgr := new MO.Manager(creds);
      eng := new EO.Engine(true);
      rules := new EO.Store(ruleFile);
      new;
      var saved := rules.List();
      eng.Restore(saved, answers);
      Forward(env);
    }

    method ForwardCall(call: E.Call, env: M.Env)
      requires Valid()
      modifies mgr, mgr.clients.Values
      ensures Valid()
      ensures mgr.View() == match call
                            case AddRemote(r) => M.AddRemote(old(mgr.View()), r, env)
                            case RemoveRemote(id) => M.RemoveRemote(old(mgr.View()), id)
      ensures fresh(mgr.clients.Values - old(mgr.clients.Values))
    {
      hide MO.InOrder, MO.Views, M.AddRemote, M.RemoveRemote;
      match call {
        case AddRemote(r) => mgr.AddRemote(r, env);
        case RemoveRemote(id) => mgr.RemoveRemote(id);
      }
    }

    /** The engine's calls reach the manager in order. */
    method Forward(env: M.Env)
      requires Valid()
      modifies eng`calls, mgr, mgr.clients.Values
      ensures Valid() && View() == A.Dispatch(old(View()), old(eng.View()), env)
      ensures fresh(mgr.clients.Values - old(mgr.clients.Values))
    {
      hide MO.InOrder, MO.Views, M.AddRemote, M.RemoveRemote;
      ghost var start := mgr.View();
      var calls, i := eng.calls, 0;
      while i < |calls|
        invariant 0 <= i <= |calls| && Valid()
        invariant fresh(mgr.clients.Values - old(mgr.clients.Values))
        invariant mgr.View() == A.Serve(start, calls[..i], env)
      {
        assert calls[..i + 1][..i] == calls[..i];
        ForwardCall(calls[i], env);
        i := i + 1;
      }
      assert calls[..|calls|] == calls;
      eng.calls := [];
    }

    /** An error is ignored. */
    method SaveRules(write: Write)
      requires Valid()
      modifies rules
      ensures Valid() && View() == A.OnDisk(A.Save(old(View())), old(rules.file), write)
    {
      hide E.List, E.Persist, MO.InOrder, MO.Views;
      var listed := eng.List();
      var _ := rules.Save(listed, write);
    }

    /** The engine adds the rule, and its calls reach the manager. */
    method Add(typ: string, name: string, listen: string, target: string, credential: string,
               answer: Option<Addr>, env: M.Env) returns (ok: bool)
      requires Valid()
      modifies eng, mgr, mgr.clients.Values
      ensures Valid() && ok == E.AddSucceeds(old(eng.View()), typ, answer)
      ensures View() == A.Dispatch(old(View()),
                                   E.Add(old(eng.View()), typ, name, listen, target, credential, answer), env)
      ensures fresh(mgr.clients.Values - old(mgr.clients.Values))
    {
      hide E.Add, E.AddSucceeds, A.Serve, MO.InOrder, MO.Views;
      var r;
      r, ok := eng.Add(typ, name, listen, target, credential, answer);
      Forward(env);
    }

    method CreateRule(typ: string, name: string, listen: string, target: string, credential: string,
                      answer: Option<Addr>, env: M.Env, write: Write) returns (ok: bool)
      requires Valid()
      modifies eng, mgr, mgr.clients.Values, rules
      ensures Valid()
      ensures View() == A.OnDisk(A.CreateRule(old(View()), typ, name, listen, target, credential, answer, env),
                               old(rules.file), write)
      ensures ok == (!(typ == REMOTE && credential == "") && E.AddSucceeds(old(eng.View()), typ, answer))
      ensures fresh(mgr.clients.Values - old(mgr.clients.Values))
    {
      hide E.Add, E.AddSucceeds, A.Dispatch, A.Save, MO.InOrder, MO.Views;
      if typ == REMOTE && credential == "" {
        return false;
      }
      ok := Add(typ, name, listen, target, credential, answer, env);
      if ok {
        SaveRules(write);
      }
    }

    method DeleteRule(id: string, env: M.Env, write: Write) returns (ok: bool)
      requires Valid() && E.StopReady(eng.View())
      modifies eng, mgr, mgr.clients.Values, rules
      ensures Valid() && ok == (id in old(eng.rules))
      ensures View() == A.OnDisk(A.DeleteRule(old(View()), id, env), old(rules.file), write)
      ensures fresh(mgr.clients.Values - old(mgr.clients.Values))
    {
      hide A.Serve, A.Save, MO.InOrder, MO.Views;
      ok := eng.Remove(id);
      if !ok {
        return;
      }
      Forward(env);
      SaveRules(write);
    }

    method UpdateRule(id: string, name: string, listen: string, target: string, credential: string,
                      answer: Option<Addr>, env: M.Env, write: Write) returns (ok: bool)
      requires Valid() && E.StopReady(eng.View())
      modifies eng, mgr, mgr.clients.Values, rules
      ensures Valid()
      ensures View() == A.OnDisk(A.UpdateRule(old(View()), id, name, listen, target, credential, answer, env),
                               old(rules.file), write)
      ensures ok == E.UpdateSucceeds(old(eng.View()), id, answer)
      ensures fresh(mgr.clients.Values - old(mgr.clients.Values))
    {
      hide E.Update, A.Serve, A.Save, MO.InOrder, MO.Views;
      ok := eng.Update(id, name, listen, target, credential, answer);
      Forward(env);
      if ok {
        SaveRules(write);
      }
    }

    /** One rule's removal in the loop of `DeleteCredential`. */
    method RemoveOne(id: string)
      requires Valid() && E.StopReady(eng.View())
      modifies eng, mgr, mgr.clients.Values
      ensures Valid() && View() == A.RemoveOne(old(View()), id)
      ensures fresh(mgr.clients.Values - old(mgr.clients.Values))
    {
      hide E.Remove, A.Serve, MO.InOrder, MO.Views;
      var _ := eng.Remove(id);
      Forward(A.NOTHING);
    }

    /** The loop: every listed rule that uses the credential goes. */
    method Purge(listed: seq<Rule>, cred: string)
      requires Valid() && E.StopReady(eng.View())
      modifies eng, mgr, mgr.clients.Values
      ensures Valid() && View() == A.Purge(old(View()), listed, cred)
      ensures fresh(mgr.clients.Values - old(mgr.clients.Values))
    {
      hide A.RemoveOne, E.StopReady, MO.InOrder, MO.Views;
      var i := 0;
      while i < |listed|
        invariant 0 <= i <= |listed| && Valid() && E.StopReady(eng.View())
        invariant fresh(mgr.clients.Values - old(mgr.clients.Values))
        invariant A.Purge(View(), listed[i..], cred) == A.Purge(old(View()), listed, cred)
      {
        assert listed[i..][1..] == listed[i + 1..];
        if A.Uses(listed[i], cred) {
          RemoveOne(listed[i].id);
        }
        i := i + 1;
      }
    }

    method DeleteCredential(cred: string, write: Write) returns (ok: bool, order: seq<string>)
      requires Valid() && E.StopReady(eng.View())
      modifies eng, mgr, mgr.clients.Values, mgr.store
      ensures Walks(order, old(mgr.store.cs).Keys - {cred}) && ok == (cred in old(mgr.store.cs) && write != Failed)
      ensures Valid()
      ensures View() == A.WithCredsOnDisk(A.DeleteCredential(old(View()), cred, order), old(mgr.store.file), write)
    {
      hide A.Purge, M.RemoveCredential, E.StopReady, Walks, M.WithFile, MO.InOrder, MO.Views;
      var listed := eng.List();
      Purge(listed, cred);
      ok, order := mgr.RemoveCredential(cred, write);
    }
  }
}

/** The SSH manager as the object it is: its four maps change in place, and its clients are objects. */
module ManagerObject {
  import opened Common
  import opened Network
  import opened Rules
  import C = Credentials
  import M = Manager
  import S = SshClient
  import O = SshClientObject

  ghost function Views(clients: map<string, O.Client>): (views: map<string, S.State>)
    reads clients.Values
    ensures views.Keys == clients.Keys
  {
    map cred | cred in clients :: clients[cred].View()
  }

  /** No client serves two credentials, and each is in order by itself. */
  ghost predicate InOrder(clients: map<string, O.Client>)
    reads clients.Values
  {
    Injective(clients) && forall cred <- clients.Keys :: clients[cred].Valid()
  }

  lemma WithoutOne(clients: map<string, O.Client>, cred: string)
    requires InOrder(clients)
    ensures InOrder(clients - {cred}) && Views(clients - {cred}) == Views(clients) - {cred}
    ensures cred in clients ==> clients[cred] !in (clients - {cred}).Values && clients[cred].Valid()
  {
    hide S.Sound;
    assert forall k <- (clients - {cred}).Keys :: (clients - {cred})[k] == clients[k];
  }

  lemma WithOneMore(clients: map<string, O.Client>, cred: string, cl: O.Client)
    requires InOrder(clients) && cred !in clients && cl !in clients.Values && cl.Valid()
    ensures InOrder(clients[cred := cl]) && Views(clients[cred := cl]) == Views(clients)[cred := cl.View()]
    ensures clients.Values <= clients[cred := cl].Values <= clients.Values + {cl}
  {
    hide S.Sound;
    var more := clients[cred := cl];
    assert forall k <- clients.Keys :: more[k] == clients[k] && clients[k] in clients.Values;
    forall c | c in clients.Values ensures c in more.Values {
      var k :| k in clients && clients[k] == c;
      assert more[k] == c;
    }
  }

  class Manager {
    const store: C.CredStore
    var clients: map<string, O.Client>
    var cancel: map<string, nat>
    var byRule: map<string, string>
    var rules: map<string, Rule>
    var ctxs: Ledger
    ghost var placed: set<string>

    ghost predicate Valid()
      reads this, clients.Values
    {
      InOrder(clients)
    }

    ghost function View(): M.State
      reads this, clients.Values, store
    {
      M.State(Views(clients), cancel, byRule, rules, store.View(), ctxs, placed)
    }

    constructor (store: C.CredStore)
      ensures Valid() && View() == M.New(store.View()) && this.store == store && clients == map[]
    {
      this.store := store;
      clients, cancel, byRule, rules, ctxs, placed := map[], map[], map[], map[], EMPTY_LEDGER, {};
    }

    /** Without interference; the interleaved form is in module EnsureClient. */
    method EnsureClient(cred: string, env: M.Env) returns (cl: O.Client?)
      requires Valid()
      modifies this`clients, this`cancel, this`ctxs
      ensures Valid() && View() == M.EnsureClient(old(View()), cred, env)
      ensures cl == if cred in clients then clients[cred] else null
      ensures old(clients.Values) <= clients.Values && fresh(clients.Values - old(clients.Values))
    {
      hide InOrder, Views, S.Sound;
      if cred in clients {
        return clients[cred];
      }
      if cred !in store.cs {
        return null;
      }
      if cred !in env.logins {
        return null;
      }
      cl := new O.Client();
      WithOneMore(clients, cred, cl);
      clients := clients[cred := cl];
      cancel := cancel[cred := ctxs.next];
      ctxs := Create(ctxs);
    }

    /** When the client of `cred` has changed and no other, so have the clients as a whole. */
    lemma OnlyChanged(cred: string, before: map<string, S.State>)
      requires cred in clients && before.Keys == clients.Keys
      requires forall k <- clients.Keys | k != cred :: clients[k].View() == before[k]
      ensures Views(clients) == before[cred := clients[cred].View()]
    {
    }

    method AddTo(cred: string, r: ClientRule, answer: Option<Addr>)
      requires Valid() && cred in clients
      modifies clients[cred]
      ensures Valid() && View() == M.WithClient(old(View()), cred, S.Add(old(clients[cred].View()), r, answer))
    {
      hide S.Add, S.Sound;
      ghost var before := Views(clients);
      clients[cred].Add(r, answer);
      OnlyChanged(cred, before);
    }

    method RemoveFrom(cred: string, id: string)
      requires Valid() && cred in clients
      modifies clients[cred]
      ensures Valid() && View() == M.WithClient(old(View()), cred, S.Remove(old(clients[cred].View()), id))
    {
      hide S.Remove, S.Sound;
      ghost var before := Views(clients);
      clients[cred].Remove(id);
      OnlyChanged(cred, before);
    }

    /** The rule enters the tables. */
    method File(rule: Rule, ghost usable: bool)
      modifies this`rules, this`byRule, this`placed
      ensures View() == M.Entered(old(View()), rule, usable)
    {
      hide Views;
      rules := rules[rule.id := rule];
      byRule := byRule[rule.id := rule.credential];
      placed := if usable then placed + {rule.id} else placed - {rule.id};
    }

    method AddRemote(rule: Rule, env: M.Env)
      requires Valid()
      modifies this, clients.Values
      ensures Valid() && View() == M.AddRemote(old(View()), rule, env)
      ensures fresh(clients.Values - old(clients.Values))
    {
      hide S.Add, S.Sound, M.EnsureClient, M.Entered, M.Usable, InOrder;
      File(rule, M.Usable(View(), rule.credential, env));
      var cl := EnsureClient(rule.credential, env);
      if cl != null {
        AddTo(rule.credential, ForClient(rule), S.Granted(env.grants, rule.id));
      }
    }

    method RemoveRemote(id: string)
      requires Valid()
      modifies this`rules, this`byRule, this`placed, clients.Values
      ensures Valid() && View() == M.RemoveRemote(old(View()), id)
    {
      hide S.Remove, S.Sound;
      placed := placed - {id};
      var cred := if id in byRule then byRule[id] else "";
      rules := rules - {id};
      byRule := byRule - {id};
      if cred in clients {
        RemoveFrom(cred, id);
      }
    }

    /** One rule's turn in the loop that deletes the credential's rules while it ranges over all of them. */
    method DropRule(rid: string, cred: string, ghost all: map<string, Rule>, ghost filed: map<string, string>,
                    ghost done: set<string>)
      requires rid in all && rid !in done
      requires rules == Minus(all, M.UsersOf(all, cred), done) && byRule == Minus(filed, M.UsersOf(all, cred), done)
      modifies this`rules, this`byRule
      ensures rules == Minus(all, M.UsersOf(all, cred), done + {rid})
      ensures byRule == Minus(filed, M.UsersOf(all, cred), done + {rid})
    {
      ghost var users := M.UsersOf(all, cred);
      assert rid in users <==> all[rid].credential == cred;
      hide M.UsersOf;
      DropOne(all, users, done, rid);
      DropOne(filed, users, done, rid);
      if rules[rid].credential == cred {
        rules := rules - {rid};
        byRule := byRule - {rid};
      }
    }

    method DropEach(cred: string, order: seq<string>)
      requires Walks(order, rules.Keys)
      modifies this`rules, this`byRule
      ensures rules == Minus(old(rules), M.UsersOf(old(rules), cred), Firsts(order, |order|))
      ensures byRule == Minus(old(byRule), M.UsersOf(old(rules), cred), Firsts(order, |order|))
    {
      ghost var all, filed, users := rules, byRule, M.UsersOf(rules, cred);
      NothingDropped(all, users);
      NothingDropped(filed, users);
      assert Firsts(order, 0) == {};
      hide Minus, M.UsersOf, Firsts, Walks;
      for i := 0 to |order|
        invariant rules == Minus(all, users, Firsts(order, i))
        invariant byRule == Minus(filed, users, Firsts(order, i))
      {
        WalksWithin(order, all.Keys, i);
        FirstsGrow(order, all.Keys, i);
        DropRule(order[i], cred, all, filed, Firsts(order, i));
      }
    }

    method DropTables(cred: string)
      modifies this`rules, this`byRule
      ensures View() == WithoutTables(old(View()), cred) && rules == old(rules) - M.UsersOf(old(rules), cred)
    {
      hide Minus, M.UsersOf, Firsts, Views, Walks;
      var order := AnyOrder(rules.Keys);
      DropEach(cred, order);
      AllFirsts(order, old(rules).Keys);
      AllDropped(old(rules), old(byRule), cred);
    }

    method DropRules(cred: string)
      modifies this`rules, this`byRule, this`placed
      ensures View() == WithoutRules(old(View()), cred)
    {
      hide M.UsersOf, Views;
      ghost var users := M.UsersOf(rules, cred);
      DropTables(cred);
      placed := placed - users;
    }

    /** Takes the client out of the tables and cancels its context. */
    method TakeClient(cred: string) returns (cl: O.Client?)
      requires Valid()
      modifies this`clients, this`cancel, this`ctxs
      ensures Valid() && View() == WithoutClient(old(View()), cred)
      ensures clients == old(clients) - {cred}
      ensures cl == if cred in old(clients) then old(clients)[cred] else null
      ensures cl !in clients.Values && (cl != null ==> cl.Valid())
    {
      hide InOrder, Views, S.Sound;
      WithoutOne(clients, cred);
      cl := if cred in clients then clients[cred] else null;
      if cred in cancel {
        ctxs := Release(ctxs, cancel[cred]);
      }
      clients := clients - {cred};
      cancel := cancel - {cred};
    }

    /** Shutting down a client that has left the table leaves the others alone. */
    method ShutDown(cl: O.Client)
      requires Valid() && cl !in clients.Values && cl.Valid()
      modifies cl
      ensures Valid() && cl.View() == S.Shutdown(old(cl.View())) && View() == old(View())
    {
      hide S.Sound, S.Shutdown;
      cl.Shutdown();
    }

    method Forget(cred: string, write: Write) returns (ok: bool, order: seq<string>)
      requires Valid()
      modifies store
      ensures Valid() && Walks(order, old(store.cs).Keys - {cred}) && ok == (cred in old(store.cs) && write != Failed)
      ensures View() == old(View()).(
                          store := C.IfWritten(C.Delete(old(View().store), cred, order), old(store.file), write))
    {
      hide C.Delete, C.IfWritten, Walks, S.Sound;
      ok, order := store.DoDelete(cred, write);
    }

    /** The client taken out of the tables is shut down. */
    method RemoveCredential(cred: string, write: Write) returns (ok: bool, order: seq<string>)
      requires Valid()
      modifies this, clients.Values, store
      ensures Walks(order, old(store.cs).Keys - {cred}) && ok == (cred in old(store.cs) && write != Failed)
      ensures Valid() && clients == old(clients) - {cred}
      ensures View() == M.WithFile(M.RemoveCredential(old(View()), cred, order), old(store.file), write)
      ensures cred in old(clients) ==> old(clients)[cred].View() == S.Shutdown(old(clients[cred].View()))
    {
      hide S.Sound, S.Shutdown, C.Delete, C.IfWritten, M.UsersOf, M.RemoveCredential;
      hide Walks, WithoutRules, WithoutClient, InOrder, Views;
      ghost var m := View();
      DropRules(cred);
      var cl := TakeClient(cred);
      if cl != null {
        ShutDown(cl);
      }
      ok, order := Forget(cred, write);
      InTwoParts(m, cred, order);
    }
  }

  // ---- The parts of RemoveCredential ---------------------------------------

  function WithoutTables(m: M.State, cred: string): M.State {
    m.(rules := m.rules - M.UsersOf(m.rules, cred), byRule := m.byRule - M.UsersOf(m.rules, cred))
  }

  function WithoutRules(m: M.State, cred: string): M.State {
    WithoutTables(m, cred).(placed := m.placed - M.UsersOf(m.rules, cred))
  }

  function WithoutClient(m: M.State, cred: string): M.State {
    m.(clients := m.clients - {cred}, cancel := m.cancel - {cred},
       ctxs := if cred in m.cancel then Release(m.ctxs, m.cancel[cred]) else m.ctxs)
  }

  lemma InTwoParts(m: M.State, cred: string, order: seq<string>)
    requires Walks(order, m.store.cs.Keys - {cred})
    ensures M.RemoveCredential(m, cred, order) ==
            WithoutClient(WithoutRules(m, cred), cred).(store := C.Delete(m.store, cred, order))
    ensures WithoutClient(WithoutRules(m, cred), cred).store == m.store
    ensures M.RemoveCredential(m, cred, order).store == C.Delete(m.store, cred, order)
  {
  }

  /** `m` without the keys of `users` that were visited. */
  function Minus<V>(m: map<string, V>, users: set<string>, done: set<string>): map<string, V> {
    m - users * done
  }

  lemma NothingDropped<V>(m: map<string, V>, users: set<string>)
    ensures Minus(m, users, {}) == m
  {
    assert users * {} == {} && m - {} == m;
  }

  lemma AllDropped(all: map<string, Rule>, filed: map<string, string>, cred: string)
    ensures Minus(all, M.UsersOf(all, cred), all.Keys) == all - M.UsersOf(all, cred)
    ensures Minus(filed, M.UsersOf(all, cred), all.Keys) == filed - M.UsersOf(all, cred)
  {
    assert M.UsersOf(all, cred) * all.Keys == M.UsersOf(all, cred);
  }

  lemma WalksWithin<T>(order: seq<T>, keys: set<T>, i: nat)
    requires Walks(order, keys) && i < |order|
    ensures order[i] in keys
  {
  }

  /** One more key of a walk that drops those in `users`. */
  lemma DropOne<V>(m: map<string, V>, users: set<string>, done: set<string>, k: string)
    requires k !in done
    ensures Minus(m, users, done) - (if k in users then {k} else {}) == Minus(m, users, done + {k})
    ensures k in m ==> k in Minus(m, users, done) && Minus(m, users, done)[k] == m[k]
    ensures Minus(m, users, done) - {} == Minus(m, users, done)
  {
  }
}

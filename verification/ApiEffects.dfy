/**
 * What each rule request does (internal/api/api.go), in terms of the request: down to the fields that a client is to
 * serve, and whether it serves them at once.
 */
module ApiEffects {
  import opened Common
  import opened Decimal
  import opened Network
  import opened Rules
  import opened Api
  import opened ApiProofs
  import opened EngineEffects
  import E = Engine
  import P = EngineProofs
  import M = Manager
  import S = SshClient
  import C = Credentials

  // ---- From the engine to the manager --------------------------------------

  lemma CallsOfAdd(e: E.State, typ: string, name: string, listen: string, target: string, credential: string,
                   answer: Option<Addr>)
    requires e.calls == [] && e.remote
    ensures E.Add(e, typ, name, listen, target, credential, answer).calls ==
            if typ == REMOTE then
              [E.AddRemote(E.NewRule(e, typ, name, listen, target, credential).(status := Pending))]
            else []
  {
  }

  lemma CallsOfUpdate(e: E.State, id: string, name: string, listen: string, target: string, credential: string,
                      answer: Option<Addr>)
    requires P.Inv(e) && e.calls == [] && e.remote
    ensures E.StopReady(e)
    ensures var t := E.Update(e, id, name, listen, target, credential, answer);
            t.calls == if id in e.rules && IsRemote(e.rules[id]) then [E.RemoveRemote(id), E.AddRemote(t.rules[id])]
                       else []
  {
    Ready(e);
  }

  lemma CallsOfRemove(e: E.State, id: string)
    requires P.Inv(e) && e.calls == [] && e.remote
    ensures E.StopReady(e)
    ensures E.Remove(e, id).calls == if id in e.rules && IsRemote(e.rules[id]) then [E.RemoveRemote(id)] else []
  {
    Ready(e);
  }

  lemma ServeNone(m: M.State, env: M.Env)
    ensures Serve(m, [], env) == m
  {
  }

  lemma ServeAdd(m: M.State, r: Rule, env: M.Env)
    ensures Serve(m, [E.AddRemote(r)], env) == M.AddRemote(m, r, env)
  {
    hide M.AddRemote;
    assert [E.AddRemote(r)][..0] == [];
  }

  lemma ServeRemove(m: M.State, id: string, env: M.Env)
    ensures Serve(m, [E.RemoveRemote(id)], env) == M.RemoveRemote(m, id)
  {
    hide M.RemoveRemote;
    assert [E.RemoveRemote(id)][..0] == [];
  }

  lemma ServeReplace(m: M.State, id: string, r: Rule, env: M.Env)
    ensures Serve(m, [E.RemoveRemote(id), E.AddRemote(r)], env) == M.AddRemote(M.RemoveRemote(m, id), r, env)
  {
    hide M.AddRemote, M.RemoveRemote;
    ServeRemove(m, id, env);
    assert [E.RemoveRemote(id), E.AddRemote(r)][..1] == [E.RemoveRemote(id)];
  }

  // ---- What a request leaves at the manager --------------------------------

  /** The manager has the remote rule with these fields. */
  ghost predicate Registered(
    m: M.State, id: string, name: string, listen: string, target: string, credential: string)
  {
    && id in m.rules && HasFields(m.rules[id], id, REMOTE, name, listen, target, credential)
    && id in m.byRule && m.byRule[id] == credential
  }

  /** The client of the credential, if it can be had, wants the rule with these fields, and no other client wants it. */
  ghost predicate WantedAs(
    m: M.State, usable: bool, id: string, name: string, listen: string, target: string, credential: string)
  {
    && (credential in m.clients <==> usable)
    && (usable ==>
          && id in m.clients[credential].pending
          && m.clients[credential].pending[id] == ClientRule(id, name, listen, target))
    && (forall k <- m.clients.Keys | k != credential :: id !in m.clients[k].pending)
  }

  /** Of other rules the two managers know and want the same. */
  ghost predicate OthersWanted(m: M.State, t: M.State, id: string) {
    && t.rules - {id} == m.rules - {id} && t.byRule - {id} == m.byRule - {id}
    && m.clients.Keys <= t.clients.Keys
    && (forall k <- m.clients.Keys :: t.clients[k].pending - {id} == m.clients[k].pending - {id})
    && (forall k <- t.clients.Keys | k !in m.clients :: t.clients[k].pending.Keys <= {id})
  }

  /** At the address `addr` the client serves nothing but rule `id`, if that. */
  ghost predicate FreeAt(c: S.State, id: string, addr: Addr) {
    forall h <- c.net.bound.Keys | id in c.lns ==> h != c.lns[id].ln :: c.net.bound[h] != addr
  }

  /**
   * The client of the credential serves the rule at once: exactly if it is there, connected, and its host grants an
   * address where it serves nothing else.
   */
  ghost predicate ServedIff(m: M.State, t: M.State, env: M.Env, id: string, name: string, listen: string,
                            target: string, credential: string)
  {
    credential in t.clients ==>
      var d := t.clients[credential];
      && (id in d.lns <==>
            && credential in m.clients && m.clients[credential].up
            && id in env.grants && FreeAt(m.clients[credential], id, env.grants[id]))
      && (id in d.lns ==> S.ServedAt(d, id, name, listen, target, env.grants[id]))
  }

  lemma NothingWanted(m: M.State, id: string)
    requires M.Inv(m) && id !in m.rules
    ensures forall k <- m.clients.Keys :: id !in m.clients[k].pending && id !in m.clients[k].lns
  {
    hide S.Inv;
    forall k | k in m.clients ensures id !in m.clients[k].pending && id !in m.clients[k].lns {
      assert M.ClientFits(m.rules, k, m.clients[k]);
      S.OpenIsWanted(m.clients[k]);
    }
  }

  lemma ClientSound(m: M.State, k: string)
    requires M.Inv(m) && k in m.clients
    ensures S.ListenersInv(m.clients[k])
  {
    assert M.ClientFits(m.rules, k, m.clients[k]);
  }

  /** The client of a credential as `ensureClient` finds or starts it. */
  function ClientFor(m: M.State, cred: string): S.State {
    if cred in m.clients then m.clients[cred] else S.NEW_CLIENT
  }

  lemma ClientForFacts(m: M.State, id: string, cred: string)
    requires M.Inv(m) && id !in m.rules
    ensures S.ListenersInv(ClientFor(m, cred)) && id !in ClientFor(m, cred).lns
  {
    S.NewClientInv();
    hide S.ListenersInv;
    NothingWanted(m, id);
    if cred in m.clients {
      ClientSound(m, cred);
    }
  }

  lemma AskedClientIs(m: M.State, r: Rule, env: M.Env)
    requires r.credential in M.AddRemote(m, r, env).clients
    ensures M.AddRemote(m, r, env).clients[r.credential] ==
            S.Add(ClientFor(m, r.credential), ForClient(r), S.Granted(env.grants, r.id))
  {
    hide S.Add;
    M.AddedClients(m, r, env);
  }

  /** The client of the rule's credential, before and after. */
  lemma AskedClient(m: M.State, r: Rule, env: M.Env)
    requires M.Inv(m) && r.id !in m.rules && r.credential in M.AddRemote(m, r, env).clients
    ensures var t := M.AddRemote(m, r, env);
            var d := t.clients[r.credential];
            && r.id in d.pending && d.pending[r.id] == ClientRule(r.id, r.name, r.listen, r.target)
            && d.pending - {r.id} == ClientFor(m, r.credential).pending - {r.id}
            && ServedIff(m, t, env, r.id, r.name, r.listen, r.target, r.credential)
  {
    hide M.AddRemote, M.Inv, S.Add, S.ListenersInv, S.SameAt, S.ServedAt;
    var before := ClientFor(m, r.credential);
    AskedClientIs(m, r, env);
    ClientForFacts(m, r.id, r.credential);
    S.AddOpensIff(before, ForClient(r), S.Granted(env.grants, r.id));
    assert before.pending[r.id := ForClient(r)] - {r.id} == before.pending - {r.id};
  }

  lemma OtherClients(m: M.State, r: Rule, env: M.Env, k: string)
    requires k in M.AddRemote(m, r, env).clients && k != r.credential
    ensures k in m.clients && M.AddRemote(m, r, env).clients[k] == m.clients[k]
  {
    M.AddedClients(m, r, env);
  }

  /** Registering a rule that the manager does not have. */
  lemma RegisterEffect(m: M.State, r: Rule, env: M.Env)
    requires M.Inv(m) && r.id !in m.rules && IsRemote(r)
    ensures var t := M.AddRemote(m, r, env);
            && Registered(t, r.id, r.name, r.listen, r.target, r.credential)
            && WantedAs(t, M.Usable(m, r.credential, env), r.id, r.name, r.listen, r.target, r.credential)
            && OthersWanted(m, t, r.id)
            && ServedIff(m, t, env, r.id, r.name, r.listen, r.target, r.credential)
  {
    hide M.AddRemote, M.Inv, S.Add, M.Usable, FreeAt, S.ServedAt;
    M.AddedClients(m, r, env);
    NothingWanted(m, r.id);
    var t := M.AddRemote(m, r, env);
    forall k | k in t.clients && k != r.credential ensures k in m.clients && t.clients[k] == m.clients[k] {
      OtherClients(m, r, env, k);
    }
    if r.credential in t.clients {
      AskedClient(m, r, env);
      OnlyNew(t.clients[r.credential].pending, r.id);
      assert r.credential !in m.clients ==> S.NEW_CLIENT.pending - {r.id} == map[];
    }
    assert m.rules[r.id := r] - {r.id} == m.rules - {r.id};
    assert m.byRule[r.id := r.credential] - {r.id} == m.byRule - {r.id};
  }

  lemma OnlyNew(pending: map<string, ClientRule>, id: string)
    ensures pending - {id} == map[] ==> pending.Keys <= {id}
  {
    forall k | k in pending && k != id ensures k in pending - {id} {
    }
  }

  /** Removing a rule from one client. */
  lemma RelievedOf(c: S.State, id: string)
    requires S.ListenersInv(c)
    ensures var t := S.Remove(c, id);
            && id !in t.pending && id !in t.lns && t.up == c.up && t.pending - {id} == c.pending - {id}
            && (forall addr :: FreeAt(t, id, addr) <==> FreeAt(c, id, addr))
  {
    hide S.Remove, S.SameAt, S.ListenersInv;
    S.RemoveClosesIts(c, id);
    RemovedBound(c, id);
    assert c.pending - {id} - {id} == c.pending - {id};
    var t := S.Remove(c, id);
    forall addr ensures FreeAt(t, id, addr) <==> FreeAt(c, id, addr) {
      assert forall h <- t.net.bound.Keys :: h in c.net.bound && t.net.bound[h] == c.net.bound[h];
      assert forall h <- c.net.bound.Keys :: (id in c.lns ==> h != c.lns[id].ln) <==> h in t.net.bound;
    }
  }

  /** One client, before and after a rule is taken away. */
  lemma RelievedClient(m: M.State, id: string, k: string)
    requires M.Inv(m) && k in m.clients
    ensures var t := M.RemoveRemote(m, id);
            && k in t.clients && id !in t.clients[k].pending && id !in t.clients[k].lns
            && t.clients[k].up == m.clients[k].up && t.clients[k].pending - {id} == m.clients[k].pending - {id}
            && (forall addr :: FreeAt(t.clients[k], id, addr) <==> FreeAt(m.clients[k], id, addr))
  {
    hide M.RemoveRemote, S.Remove, S.ListenersInv, FreeAt, M.ClientsInv, M.ContextsInv, M.PlacedInv;
    M.RemovedClients(m, id);
    if k == M.CredentialOf(m, id) {
      ClientSound(m, k);
      RelievedOf(m.clients[k], id);
    } else {
      NotServed(m, k, id);
    }
  }

  /** Taking a rule away: no client wants or serves it any more. */
  lemma UnregisterEffect(m: M.State, id: string)
    requires M.Inv(m)
    ensures var t := M.RemoveRemote(m, id);
            && M.Inv(t) && id !in t.rules && id !in t.byRule && OthersWanted(m, t, id)
            && t.clients.Keys == m.clients.Keys && t.store == m.store
            && forall k <- t.clients.Keys ::
                 && id !in t.clients[k].pending && id !in t.clients[k].lns && t.clients[k].up == m.clients[k].up
                 && (forall addr :: FreeAt(t.clients[k], id, addr) <==> FreeAt(m.clients[k], id, addr))
  {
    M.RemoveRemoteKeepsInv(m, id);
    M.RemoveRemoteTables(m, id);
    hide M.RemoveRemote, M.Inv, FreeAt;
    var t := M.RemoveRemote(m, id);
    forall k | k in t.clients
      ensures id !in t.clients[k].pending && id !in t.clients[k].lns && t.clients[k].up == m.clients[k].up
      ensures t.clients[k].pending - {id} == m.clients[k].pending - {id}
      ensures forall addr :: FreeAt(t.clients[k], id, addr) <==> FreeAt(m.clients[k], id, addr)
    {
      RelievedClient(m, id, k);
    }
    assert m.rules - {id} - {id} == m.rules - {id} && m.byRule - {id} - {id} == m.byRule - {id};
  }

  lemma NotServed(m: M.State, k: string, id: string)
    requires M.Inv(m) && k in m.clients && id !in m.clients[k].pending
    ensures id !in m.clients[k].lns
  {
    assert M.ClientFits(m.rules, k, m.clients[k]);
  }

  lemma RemovedBound(c: S.State, id: string)
    ensures S.Remove(c, id).net.bound == if id in c.lns then c.net.bound - {c.lns[id].ln} else c.net.bound
  {
  }

  lemma ReplaceEffect(m: M.State, r: Rule, env: M.Env)
    requires M.Inv(m) && IsRemote(r)
    ensures var t := M.AddRemote(M.RemoveRemote(m, r.id), r, env);
            && Registered(t, r.id, r.name, r.listen, r.target, r.credential)
            && WantedAs(t, M.Usable(m, r.credential, env), r.id, r.name, r.listen, r.target, r.credential)
            && OthersWanted(m, t, r.id)
            && ServedIff(m, t, env, r.id, r.name, r.listen, r.target, r.credential)
  {
    hide M.RemoveRemote, M.AddRemote, M.Inv, FreeAt, S.ServedAt, OthersWanted;
    var n := M.RemoveRemote(m, r.id);
    var t := M.AddRemote(n, r, env);
    UnregisterEffect(m, r.id);
    RegisterEffect(n, r, env);
    OthersWantedTwice(m, n, t, r.id);
  }

  lemma OthersWantedTwice(m: M.State, n: M.State, t: M.State, id: string)
    requires OthersWanted(m, n, id) && OthersWanted(n, t, id) && n.clients.Keys == m.clients.Keys
    ensures OthersWanted(m, t, id)
  {
  }

  // ---- The requests --------------------------------------------------------

  /** Creating a rule. A remote rule without a credential is refused; a local rule is none of the manager's business. */
  lemma CreateRuleEffect(a: State, typ: string, name: string, listen: string, target: string, credential: string,
                         answer: Option<Addr>, env: M.Env)
    requires Inv(a) && a.eng.nextID < MAX_INT
    ensures var b := CreateRule(a, typ, name, listen, target, credential, answer, env);
            var id := Print(a.eng.nextID);
            if typ == REMOTE && credential == "" then b == a
            else
              && id !in a.eng.rules && OthersSame(a.eng, b.eng, id)
              && id in b.eng.rules && HasFields(b.eng.rules[id], id, typ, name, listen, target, credential)
              && if typ == REMOTE then
                   && Registered(b.mgr, id, name, listen, target, credential)
                   && WantedAs(b.mgr, M.Usable(a.mgr, credential, env), id, name, listen, target, credential)
                   && OthersWanted(a.mgr, b.mgr, id)
                   && ServedIff(a.mgr, b.mgr, env, id, name, listen, target, credential)
                 else
                   Settled(b.eng, id, FreeFor(a.eng, id, answer), answer, Running) && b.mgr == a.mgr
  {
    hide M.Inv, C.Sound, FileFits, P.Inv, P.Numbered, Registered, WantedAs, OthersWanted, ServedIff, M.AddRemote,
         Print, E.List, E.Persist, M.Usable;
    if !(typ == REMOTE && credential == "") {
      assert P.Inv(a.eng) && M.Inv(a.mgr) && a.eng.calls == [] && a.eng.remote;
      AddCreates(a.eng, typ, name, listen, target, credential, answer);
      CallsOfAdd(a.eng, typ, name, listen, target, credential, answer);
      var id, e := Print(a.eng.nextID), E.Add(a.eng, typ, name, listen, target, credential, answer);
      hide E.Add, OthersSame, Settled, FreeFor;
      ForgetCallsKeepsRules(a.eng, e, id, answer);
      if typ == REMOTE {
        var r := E.NewRule(a.eng, typ, name, listen, target, credential).(status := Pending);
        NotAtManager(a, id);
        ServeAdd(a.mgr, r, env);
        RegisterEffect(a.mgr, r, env);
      } else {
        ServeNone(a.mgr, env);
      }
    }
  }

  lemma NotAtManager(a: State, id: string)
    requires Inv(a) && id !in a.eng.rules
    ensures id !in a.mgr.rules
  {
    assert id !in Filed(a.mgr.rules);
  }

  /** The log of calls matters to none of these. */
  lemma ForgetCallsKeepsRules(e: E.State, t: E.State, id: string, answer: Option<Addr>)
    ensures OthersSame(e, t.(calls := []), id) <==> OthersSame(e, t, id)
    ensures forall granted, status | granted ==> answer.Some? ::
              Settled(t.(calls := []), id, granted, answer, status) <==> Settled(t, id, granted, answer, status)
  {
    assert forall k :: SameAt(e, t.(calls := []), k) <==> SameAt(e, t, k);
  }

  /** Updating a rule; an unknown ID changes nothing. */
  lemma UpdateRuleEffect(a: State, id: string, name: string, listen: string, target: string, credential: string,
                         answer: Option<Addr>, env: M.Env)
    requires Inv(a)
    ensures E.StopReady(a.eng)
    ensures var b := UpdateRule(a, id, name, listen, target, credential, answer, env);
            if id !in a.eng.rules then b == a
            else
              var r := a.eng.rules[id];
              && OthersSame(a.eng, b.eng, id) && id in b.eng.rules
              && HasFields(b.eng.rules[id], id, r.typ, name, listen, target,
                           if IsRemote(r) then credential else r.credential)
              && if IsRemote(r) then
                   && Registered(b.mgr, id, name, listen, target, credential)
                   && WantedAs(b.mgr, M.Usable(a.mgr, credential, env), id, name, listen, target, credential)
                   && OthersWanted(a.mgr, b.mgr, id)
                   && ServedIff(a.mgr, b.mgr, env, id, name, listen, target, credential)
                 else
                   Settled(b.eng, id, FreeFor(a.eng, id, answer), answer, Running) && b.mgr == a.mgr
  {
    hide M.Inv, C.Sound, FileFits, P.Inv, P.Numbered, Registered, WantedAs, OthersWanted, ServedIff, M.AddRemote,
         M.RemoveRemote, E.List, E.Persist, M.Usable;
    assert P.Inv(a.eng) && M.Inv(a.mgr) && a.eng.calls == [] && a.eng.remote;
    CallsOfUpdate(a.eng, id, name, listen, target, credential, answer);
    var e := E.Update(a.eng, id, name, listen, target, credential, answer);
    if id in a.eng.rules {
      UpdateChanges(a.eng, id, name, listen, target, credential, answer);
      hide E.Update, OthersSame, Settled, FreeFor;
      ForgetCallsKeepsRules(a.eng, e, id, answer);
      if IsRemote(a.eng.rules[id]) {
        ServeReplace(a.mgr, id, e.rules[id], env);
        ReplaceEffect(a.mgr, e.rules[id], env);
      } else {
        ServeNone(a.mgr, env);
      }
    } else {
      ServeNone(a.mgr, env);
    }
  }

  /** Deleting a rule: no trace is left in memory. */
  lemma DeleteRuleEffect(a: State, id: string, env: M.Env)
    requires Inv(a)
    ensures E.StopReady(a.eng)
    ensures var b := DeleteRule(a, id, env);
            if id !in a.eng.rules then b == a
            else
              && OthersSame(a.eng, b.eng, id) && id !in b.eng.rules && id !in b.eng.lns
              && (id in a.eng.lns ==> a.eng.lns[id] !in b.eng.net.bound)
              && id !in b.mgr.rules && OthersWanted(a.mgr, b.mgr, id)
              && forall k <- b.mgr.clients.Keys :: id !in b.mgr.clients[k].pending && id !in b.mgr.clients[k].lns
  {
    hide M.Inv, C.Sound, FileFits, P.Inv, P.Numbered, OthersWanted, M.RemoveRemote, E.List, E.Persist;
    assert P.Inv(a.eng) && M.Inv(a.mgr) && a.eng.calls == [] && a.eng.remote;
    CallsOfRemove(a.eng, id);
    RemoveRemoves(a.eng, id);
    if id in a.eng.rules {
      var e := E.Remove(a.eng, id);
      var remote := IsRemote(a.eng.rules[id]);
      hide E.Remove, OthersSame;
      ForgetCallsKeepsRules(a.eng, e, id, None);
      if remote {
        ServeRemove(a.mgr, id, env);
        UnregisterEffect(a.mgr, id);
      } else {
        ServeNone(a.mgr, env);
        LocalNotAtManager(a, id);
        NothingWanted(a.mgr, id);
        NothingElseWanted(a.mgr, id);
      }
    }
  }

  lemma LocalNotAtManager(a: State, id: string)
    requires Inv(a) && id in a.eng.rules && !IsRemote(a.eng.rules[id])
    ensures id !in a.mgr.rules
  {
    assert id !in Filed(a.mgr.rules);
  }

  lemma NothingElseWanted(m: M.State, id: string)
    ensures OthersWanted(m, m, id)
  {
  }

  /**
   * Restarting the rules: every local rule listens and is running, or is in error and does not; with distinct free
   * addresses it listens at the one granted to it. No rule changes in more than its status, and neither the manager nor
   * the file changes.
   */
  lemma RestartRulesEffect(a: State, order: seq<string>, answers: seq<Option<Addr>>)
    requires Inv(a) && Walks(order, a.eng.rules.Keys) && |answers| == |order|
    ensures var b := Step(a, RestartRulesOp(order, answers));
            && b.eng.rules.Keys == a.eng.rules.Keys && b.mgr == a.mgr && b.file == a.file
            && (forall id <- a.eng.rules.Keys :: DropStatus(b.eng.rules[id]) == DropStatus(a.eng.rules[id]))
            && (forall id <- a.eng.rules.Keys | !IsRemote(a.eng.rules[id]) :: Decided(b.eng, id))
            && (Apart(a.eng, order, answers) ==>
                  forall i | 0 <= i < |order| :: Restarted(a.eng, b.eng, order[i], answers[i]))
  {
    hide Inv, E.Restart, P.Inv, Apart, E.StopReady, Restarted, Decided, Serve;
    EngineReady(a);
    var e := E.Restart(a.eng, order, answers);
    RestartDecides(a.eng, order, answers);
    ServeNone(a.mgr, NOTHING);
    assert Step(a, RestartRulesOp(order, answers)) == a.(eng := e.(calls := []));
    forall id | id in a.eng.rules && !IsRemote(a.eng.rules[id]) ensures Decided(e.(calls := []), id) {
      ForgottenCallsMatterNot(a.eng, e, id, None);
    }
    if Apart(a.eng, order, answers) {
      RestartSettles(a.eng, order, answers);
      forall i | 0 <= i < |order| ensures Restarted(a.eng, e.(calls := []), order[i], answers[i]) {
        ForgottenCallsMatterNot(a.eng, e, order[i], answers[i]);
      }
    }
  }

  lemma ForgottenCallsMatterNot(e: E.State, t: E.State, id: string, answer: Option<Addr>)
    requires id in e.rules
    ensures Decided(t, id) ==> Decided(t.(calls := []), id)
    ensures Restarted(e, t, id, answer) ==> Restarted(e, t.(calls := []), id, answer)
  {
  }

  lemma EngineReady(a: State)
    requires Inv(a)
    ensures P.Inv(a.eng) && a.eng.calls == [] && E.StopReady(a.eng)
  {
    Ready(a.eng);
  }

  // ---- Credentials ---------------------------------------------------------

  /** What an operation asks of the credential store. */
  function StoreOp(op: Op): Option<C.Op> {
    match op
    case CreateCredentialOp(c, write, order) => Some(C.AddOp(c, write, order))
    case UpdateCredentialOp(cred, c, write, order) => Some(C.UpdateOp(cred, c, write, order))
    case DeleteCredentialOp(cred, write, order) => Some(C.DeleteOp(cred, write, order))
    case RebootOp(_, _) => Some(C.RestartOp)
    case _ => None
  }

  lemma StoreAfterDelete(a: State, op: Op)
    requires Inv(a) && Enabled(a, op) && op.DeleteCredentialOp?
    ensures Step(a, op).mgr.store == C.Step(a.mgr.store, StoreOp(op).value)
  {
    hide Inv, Purge, C.Delete;
  }

  lemma DispatchKeepsStore(a: State, e: E.State, env: M.Env)
    ensures Dispatch(a, e, env).mgr.store == a.mgr.store
  {
    ServeKeepsStore(a.mgr, e.calls, env);
  }

  /** The store follows the operations that are about credentials, and restarts; nothing else touches it. */
  lemma StoreFollows(a: State, op: Op)
    requires Inv(a) && Enabled(a, op)
    ensures Step(a, op).mgr.store ==
            match StoreOp(op) case None => a.mgr.store case Some(o) => C.Step(a.mgr.store, o)
  {
    hide Inv, Purge, C.Delete, C.Add, C.Update, C.Load, Serve, E.Add, E.Update, E.Remove, E.Restart, E.Restore, E.List,
         E.Persist, S.Step, E.StopReady;
    match op
    case CreateRuleOp(typ, name, listen, target, credential, answer, env, _) =>
      DispatchKeepsStore(a, E.Add(a.eng, typ, name, listen, target, credential, answer), env);
    case DeleteRuleOp(id, env, _) => DispatchKeepsStore(a, E.Remove(a.eng, id), env);
    case UpdateRuleOp(id, name, listen, target, credential, answer, env, _) =>
      DispatchKeepsStore(a, E.Update(a.eng, id, name, listen, target, credential, answer), env);
    case RestartRulesOp(order, answers) => DispatchKeepsStore(a, E.Restart(a.eng, order, answers), NOTHING);
    case DeleteCredentialOp(_, _, _) => StoreAfterDelete(a, op);
    case RebootOp(answers, env) =>
      DispatchKeepsStore(a.(mgr := M.New(C.Load(a.mgr.store.file))), E.Restore(E.New(true), a.file, answers), env);
    case _ =>
  }

  /**
   * A credential request that reaches the file outlives a restart: the new daemon has exactly the credentials in memory
   * after the request, which are those before it with the one credential added, replaced or removed.
   */
  lemma CredentialSurvivesRestart(a: State, op: Op, answers: seq<Option<Addr>>, env: M.Env)
    requires Inv(a) && Enabled(a, op) && !op.RebootOp? && StoreOp(op).Some? && C.Writes(a.mgr.store, StoreOp(op).value)
    requires |answers| == |Step(a, op).file|
    ensures var b := Step(a, op);
            && b.mgr.store.cs == C.Expected(a.mgr.store, StoreOp(op).value)
            && Reboot(b, answers, env).mgr.store.cs == b.mgr.store.cs
  {
    assert C.Sound(a.mgr.store);
    StoreFollows(a, op);
    StoreEnabled(a, op);
    hide Inv, Step, C.Step, C.Sound, C.Load, C.Expected;
    C.StepDoes(a.mgr.store, StoreOp(op).value);
    var b := Step(a, op);
    DispatchKeepsStore(b.(mgr := M.New(C.Load(b.mgr.store.file))), E.Restore(E.New(true), b.file, answers), env);
  }

  lemma StoreEnabled(a: State, op: Op)
    requires Enabled(a, op) && StoreOp(op).Some?
    ensures C.Enabled(a.mgr.store, StoreOp(op).value)
  {
  }
}

/** The SSH manager (internal/ssh/manager.go): one client per credential, and which rule runs on which. */
module Manager {
  import opened Common
  import opened Network
  import opened Rules
  import S = SshClient
  import C = Credentials

  /**
   * `cancel` holds the context of each client; `ctxs` counts contexts started and cancelled. `placed` is history:
   * the rules whose credential was usable when they were last registered.
   */
  datatype State = State(
    clients: map<string, S.State>,
    cancel: map<string, nat>,
    byRule: map<string, string>,
    rules: map<string, Rule>,
    store: C.State,
    ctxs: Ledger,
    placed: set<string>)

  function New(store: C.State): State {
    State(map[], map[], map[], map[], store, EMPTY_LEDGER, {})
  }

  /** What the outside decides: which credentials yield a way to log in, and where the sshd would open a rule. */
  datatype Env = Env(logins: set<string>, grants: map<string, Addr>)

  /** A client for the credential is there, or can be started. */
  predicate Usable(m: State, cred: string, env: Env) {
    cred in m.clients || (cred in m.store.cs && cred in env.logins)
  }

  /** Without interference; the interleaved form is in module EnsureClient. */
  function EnsureClient(m: State, cred: string, env: Env): State {
    if cred in m.clients || cred !in m.store.cs || cred !in env.logins then m
    else
      m.(clients := m.clients[cred := S.NEW_CLIENT], cancel := m.cancel[cred := m.ctxs.next], ctxs := Create(m.ctxs))
  }

  function WithClient(m: State, cred: string, c: S.State): State {
    m.(clients := m.clients[cred := c])
  }

  /** The rule enters the tables. */
  function Entered(m: State, rule: Rule, usable: bool): State {
    m.(rules := m.rules[rule.id := rule], byRule := m.byRule[rule.id := rule.credential],
       placed := if usable then m.placed + {rule.id} else m.placed - {rule.id})
  }

  function AddRemote(m: State, rule: Rule, env: Env): State {
    var m' := EnsureClient(Entered(m, rule, Usable(m, rule.credential, env)), rule.credential, env);
    if rule.credential in m'.clients then
      WithClient(m', rule.credential,
                 S.Add(m'.clients[rule.credential], ForClient(rule), S.Granted(env.grants, rule.id)))
    else m'
  }

  /** The credential a rule is filed under; Go's zero value for an unknown rule. */
  function CredentialOf(m: State, id: string): string {
    if id in m.byRule then m.byRule[id] else ""
  }

  function RemoveRemote(m: State, id: string): State {
    var cred := CredentialOf(m, id);
    var m' := m.(rules := m.rules - {id}, byRule := m.byRule - {id}, placed := m.placed - {id});
    if cred in m.clients then WithClient(m', cred, S.Remove(m.clients[cred], id)) else m'
  }

  /** The rules that use a credential. */
  function UsersOf(rules: map<string, Rule>, cred: string): set<string> {
    set id | id in rules && rules[id].credential == cred
  }

  /** The client leaves the tables, its context is cancelled, and the credential is deleted from the store. */
  function RemoveCredential(m: State, cred: string, order: seq<string>): State
    requires Walks(order, m.store.cs.Keys - {cred})
  {
    var gone := UsersOf(m.rules, cred);
    State(m.clients - {cred}, m.cancel - {cred}, m.byRule - gone, m.rules - gone, C.Delete(m.store, cred, order),
          if cred in m.cancel then Release(m.ctxs, m.cancel[cred]) else m.ctxs, m.placed - gone)
  }

  /** The credential file only changes when it is written. */
  function WithFile(m: State, file: C.File, write: Write): State {
    m.(store := C.IfWritten(m.store, file, write))
  }

  lemma DeletedKeys(store: C.State, cred: string, order: seq<string>)
    requires Walks(order, store.cs.Keys - {cred})
    ensures C.Delete(store, cred, order).cs.Keys == store.cs.Keys - {cred}
  {
  }

  // ---- Invariant -----------------------------------------------------------

  ghost predicate TablesInv(m: State) {
    && m.byRule.Keys == m.rules.Keys
    && (forall id <- m.rules.Keys :: m.rules[id].id == id && m.byRule[id] == m.rules[id].credential)
  }

  /** What a client wants are rules of its own credential, with the fields the manager has for them. */
  ghost predicate ClientFits(rules: map<string, Rule>, cred: string, c: S.State) {
    && S.Inv(c)
    && forall id <- c.pending.Keys ::
         id in rules && rules[id].credential == cred && c.pending[id] == ForClient(rules[id])
  }

  ghost predicate ClientsInv(m: State) {
    forall cred <- m.clients.Keys :: ClientFits(m.rules, cred, m.clients[cred])
  }

  /** Exactly the contexts in `cancel` are started and not cancelled, one for each client. */
  ghost predicate ContextsInv(m: State) {
    && m.clients.Keys == m.cancel.Keys
    && Owns(m.cancel, m.cancel.Values)
    && Balanced(m.ctxs, m.cancel.Values)
  }

  /** The rules wanted by some client are exactly the placed ones, each by the client of its credential. */
  ghost predicate PlacedInv(m: State) {
    && (forall id <- m.placed :: id in m.rules && Wanted(m, m.rules[id].credential, id))
    && (forall cred, id | Wanted(m, cred, id) :: id in m.placed)
  }

  predicate Wanted(m: State, cred: string, id: string) {
    cred in m.clients && id in m.clients[cred].pending
  }

  ghost predicate Inv(m: State) {
    TablesInv(m) && ClientsInv(m) && ContextsInv(m) && PlacedInv(m)
  }

  lemma AnyStore(m: State, store: C.State)
    requires Inv(m)
    ensures Inv(m.(store := store))
  {
    hide S.Inv, Wanted;
    assert forall cred, id :: Wanted(m.(store := store), cred, id) <==> Wanted(m, cred, id) by {
      SameWants(m, store);
    }
  }

  lemma SameWants(m: State, store: C.State)
    ensures forall cred, id :: Wanted(m.(store := store), cred, id) <==> Wanted(m, cred, id)
  {
  }

  lemma NewClientFits(rules: map<string, Rule>, cred: string)
    ensures ClientFits(rules, cred, S.NEW_CLIENT)
  {
    assert S.Handles(map[]).Values == {};
  }

  lemma EnsureKeepsContexts(m: State, cred: string, env: Env)
    requires ContextsInv(m)
    ensures ContextsInv(EnsureClient(m, cred, env))
  {
    if cred !in m.clients {
      CreateBalanced(m.ctxs, m.cancel.Values);
      OwnsInsert(m.cancel, m.cancel.Values, cred, m.ctxs.next);
    }
  }

  /** A rule may be filed under `rule.id` without upsetting any client: none wants another rule under that ID. */
  ghost predicate Accommodates(m: State, rule: Rule) {
    forall cred <- m.clients.Keys | rule.id in m.clients[cred].pending ::
      && cred == rule.credential
      && (rule.id in m.clients[cred].lns ==> m.clients[cred].lns[rule.id].rule == ForClient(rule))
  }

  lemma AddFits(rules: map<string, Rule>, rule: Rule, c: S.State, answer: Option<Addr>)
    requires ClientFits(rules, rule.credential, c)
    requires rule.id in c.lns ==> c.lns[rule.id].rule == ForClient(rule)
    ensures ClientFits(rules[rule.id := rule], rule.credential, S.Add(c, ForClient(rule), answer))
  {
    hide S.Inv;
    S.AddKeepsInvIff(c, ForClient(rule), answer);
    assert S.Add(c, ForClient(rule), answer).pending == c.pending[rule.id := ForClient(rule)];
  }

  /** Changing what is filed under an ID does not concern a client that does not want it. */
  lemma OtherRuleFits(rules: map<string, Rule>, rules': map<string, Rule>, id: string, cred: string, c: S.State)
    requires ClientFits(rules, cred, c) && id !in c.pending && rules' - {id} == rules - {id}
    ensures ClientFits(rules', cred, c)
  {
    hide S.Inv;
    forall k | k in c.pending ensures k in rules' && rules'[k] == rules[k] {
      assert k in rules - {id};
      assert k in rules' - {id} && (rules' - {id})[k] == (rules - {id})[k];
    }
  }

  lemma RemoveFits(rules: map<string, Rule>, id: string, cred: string, c: S.State)
    requires ClientFits(rules, cred, c)
    ensures ClientFits(rules - {id}, cred, S.Remove(c, id)) && S.Remove(c, id).pending == c.pending - {id}
  {
    hide S.Inv;
    S.RemoveKeepsInv(c, id);
  }

  /** The clients after `ensureClient`: at most a fresh one more. */
  lemma EnsuredClients(m: State, cred: string, env: Env)
    ensures var t := EnsureClient(m, cred, env);
            && (forall k <- m.clients.Keys :: k in t.clients && t.clients[k] == m.clients[k])
            && (forall k <- t.clients.Keys | k !in m.clients :: k == cred && t.clients[k] == S.NEW_CLIENT)
            && t.rules == m.rules && t.byRule == m.byRule && t.store == m.store && t.placed == m.placed
            && (cred in t.clients <==> Usable(m, cred, env))
  {
  }

  /** What `AddRemote` does to each client. */
  lemma AddedClients(m: State, rule: Rule, env: Env)
    ensures var t := AddRemote(m, rule, env);
            && (forall k <- t.clients.Keys ::
                  var before := if k in m.clients then m.clients[k] else S.NEW_CLIENT;
                  t.clients[k] == if k == rule.credential
                                  then S.Add(before, ForClient(rule), S.Granted(env.grants, rule.id)) else before)
            && m.clients.Keys <= t.clients.Keys
            && (forall k <- t.clients.Keys | k !in m.clients :: k == rule.credential)
            && (rule.credential in t.clients <==> Usable(m, rule.credential, env))
            && t.placed == (if Usable(m, rule.credential, env) then m.placed + {rule.id} else m.placed - {rule.id})
            && t.rules == m.rules[rule.id := rule] && t.byRule == m.byRule[rule.id := rule.credential]
            && t.store == m.store
  {
    EnsuredClients(Entered(m, rule, Usable(m, rule.credential, env)), rule.credential, env);
  }

  /** One client after `AddRemote`. */
  lemma AddedFits(m: State, rule: Rule, env: Env, k: string)
    requires ClientsInv(m) && Accommodates(m, rule)
    ensures var before := if k in m.clients then m.clients[k] else S.NEW_CLIENT;
            var after := if k == rule.credential then S.Add(before, ForClient(rule), S.Granted(env.grants, rule.id))
                         else before;
            ClientFits(m.rules[rule.id := rule], k, after)
  {
    hide S.Inv, S.Add;
    var before := if k in m.clients then m.clients[k] else S.NEW_CLIENT;
    NewClientFits(m.rules, k);
    assert ClientFits(m.rules, k, before);
    if k == rule.credential {
      S.OpenIsWanted(before);
      AddFits(m.rules, rule, before, S.Granted(env.grants, rule.id));
    } else {
      OtherRuleFits(m.rules, m.rules[rule.id := rule], rule.id, k, before);
    }
  }

  lemma AddRemoteKeepsClients(m: State, rule: Rule, env: Env)
    requires ClientsInv(m) && Accommodates(m, rule)
    ensures ClientsInv(AddRemote(m, rule, env))
  {
    AddedClients(m, rule, env);
    hide ClientFits, Accommodates, AddRemote, S.Add;
    var t := AddRemote(m, rule, env);
    forall k | k in t.clients ensures ClientFits(t.rules, k, t.clients[k]) {
      AddedFits(m, rule, env, k);
    }
  }

  lemma AddRemoteKeepsContexts(m: State, rule: Rule, env: Env)
    requires ContextsInv(m)
    ensures ContextsInv(AddRemote(m, rule, env))
  {
    var m' := Entered(m, rule, Usable(m, rule.credential, env));
    EnsureKeepsContexts(m', rule.credential, env);
    var n, t := EnsureClient(m', rule.credential, env), AddRemote(m, rule, env);
    assert t.cancel == n.cancel && t.ctxs == n.ctxs && t.clients.Keys == n.clients.Keys;
  }

  lemma AddRemoteKeepsTables(m: State, rule: Rule, env: Env)
    requires TablesInv(m)
    ensures TablesInv(AddRemote(m, rule, env))
  {
    AddedClients(m, rule, env);
  }

  lemma AddWantsAt(m: State, rule: Rule, env: Env, cred: string, id: string)
    ensures Wanted(AddRemote(m, rule, env), cred, id) <==>
            Wanted(m, cred, id) || (id == rule.id && cred == rule.credential && Usable(m, cred, env))
  {
    AddedClients(m, rule, env);
  }

  lemma AddRemoteKeepsPlaced(m: State, rule: Rule, env: Env)
    requires PlacedInv(m) && Accommodates(m, rule)
    ensures PlacedInv(AddRemote(m, rule, env))
  {
    var t := AddRemote(m, rule, env);
    AddedClients(m, rule, env);
    assert forall cred | Wanted(m, cred, rule.id) :: cred == rule.credential;
    assert Wanted(m, rule.credential, rule.id) ==> Usable(m, rule.credential, env);
    hide AddRemote, Usable, Wanted;
    forall cred, id | Wanted(t, cred, id) ensures id in t.placed {
      AddWantsAt(m, rule, env, cred, id);
    }
    forall id | id in t.placed ensures id in t.rules && Wanted(t, t.rules[id].credential, id) {
      AddWantsAt(m, rule, env, t.rules[id].credential, id);
    }
  }

  lemma AddRemoteKeepsInv(m: State, rule: Rule, env: Env)
    requires Inv(m) && Accommodates(m, rule)
    ensures Inv(AddRemote(m, rule, env))
  {
    hide S.Inv;
    AddRemoteKeepsClients(m, rule, env);
    AddRemoteKeepsContexts(m, rule, env);
    AddRemoteKeepsTables(m, rule, env);
    AddRemoteKeepsPlaced(m, rule, env);
  }

  /** A client that wants another rule under the ID no longer fits afterwards. */
  lemma UnfitAfterAdd(m: State, rule: Rule, env: Env, cred: string)
    requires cred in m.clients && ClientFits(m.rules, cred, m.clients[cred]) && rule.id in m.clients[cred].pending
    requires cred != rule.credential ||
             (rule.id in m.clients[cred].lns && m.clients[cred].lns[rule.id].rule != ForClient(rule))
    ensures !ClientsInv(AddRemote(m, rule, env))
  {
    hide S.Inv;
    var t := AddRemote(m, rule, env);
    AddedClients(m, rule, env);
    if cred == rule.credential {
      S.AddKeepsInvIff(m.clients[cred], ForClient(rule), S.Granted(env.grants, rule.id));
      assert !S.Inv(t.clients[cred]);
    }
    assert !ClientFits(t.rules, cred, t.clients[cred]);
  }

  /**
   * Registering a rule keeps the registries in agreement exactly when no client wants another rule under its
   * ID, on another credential or with a listener that serves other fields. Fresh IDs, and removing before
   * adding again, both see to that.
   */
  lemma AddRemoteKeepsInvIff(m: State, rule: Rule, env: Env)
    requires Inv(m)
    ensures Inv(AddRemote(m, rule, env)) <==> Accommodates(m, rule)
  {
    hide S.Inv;
    if Accommodates(m, rule) {
      AddRemoteKeepsInv(m, rule, env);
    } else {
      var cred :| cred in m.clients && rule.id in m.clients[cred].pending &&
                  (cred != rule.credential ||
                   (rule.id in m.clients[cred].lns && m.clients[cred].lns[rule.id].rule != ForClient(rule)));
      assert ClientFits(m.rules, cred, m.clients[cred]);
      UnfitAfterAdd(m, rule, env, cred);
    }
  }

  /** Registering one ID on a second credential without removing it leaves the first client wanting it too. */
  lemma MovedRuleIsWantedTwice(m: State, rule: Rule, cred: string, env: Env)
    requires Inv(m) && Accommodates(m, rule) && cred != rule.credential
    requires rule.credential in m.store.cs && rule.credential in env.logins
    ensures Inv(AddRemote(m, rule, env)) && !Inv(AddRemote(AddRemote(m, rule, env), rule.(credential := cred), env))
  {
    hide S.Inv;
    AddRemoteKeepsInv(m, rule, env);
    AddedClients(m, rule, env);
    var t := AddRemote(m, rule, env);
    assert rule.credential in t.clients;
    assert rule.id in t.clients[rule.credential].pending;
    AddRemoteKeepsInvIff(t, rule.(credential := cred), env);
  }

  /** `RemoveRemote` takes the rule from its credential's client; no other client wants it. */
  lemma RemovedClients(m: State, id: string)
    requires TablesInv(m) && ClientsInv(m)
    ensures var t := RemoveRemote(m, id);
            && t.clients.Keys == m.clients.Keys
            && (forall k <- m.clients.Keys ::
                  t.clients[k] == if k == CredentialOf(m, id) then S.Remove(m.clients[k], id) else m.clients[k])
            && (forall k <- m.clients.Keys | k != CredentialOf(m, id) :: id !in m.clients[k].pending)
  {
    hide S.Inv;
    forall k | k in m.clients && k != CredentialOf(m, id) ensures id !in m.clients[k].pending {
      assert ClientFits(m.rules, k, m.clients[k]);
    }
  }

  lemma RemoveRemoteKeepsClients(m: State, id: string)
    requires TablesInv(m) && ClientsInv(m)
    ensures ClientsInv(RemoveRemote(m, id))
  {
    hide S.Inv;
    var t := RemoveRemote(m, id);
    RemovedClients(m, id);
    forall k | k in t.clients ensures ClientFits(t.rules, k, t.clients[k]) {
      assert ClientFits(m.rules, k, m.clients[k]);
      if k == CredentialOf(m, id) {
        RemoveFits(m.rules, id, k, m.clients[k]);
      } else {
        OtherRuleFits(m.rules, m.rules - {id}, id, k, m.clients[k]);
      }
    }
  }

  lemma RemoveRemoteTables(m: State, id: string)
    ensures var t := RemoveRemote(m, id);
            && t.rules == m.rules - {id} && t.byRule == m.byRule - {id}
            && t.cancel == m.cancel && t.ctxs == m.ctxs && t.clients.Keys == m.clients.Keys && t.store == m.store
            && t.placed == m.placed - {id}
  {
  }

  lemma RemoveWants(c: S.State, id: string)
    ensures S.Remove(c, id).pending == c.pending - {id}
  {
  }

  lemma RemoveWantsAt(m: State, id: string, cred: string, k: string)
    requires TablesInv(m) && ClientsInv(m)
    ensures Wanted(RemoveRemote(m, id), cred, k) <==> Wanted(m, cred, k) && k != id
  {
    hide TablesInv, ClientsInv, RemoveRemote, S.Remove;
    RemovedClients(m, id);
    if cred in m.clients {
      RemoveWants(m.clients[cred], id);
    }
  }

  lemma RemoveRemoteKeepsPlaced(m: State, id: string)
    requires TablesInv(m) && ClientsInv(m) && PlacedInv(m)
    ensures PlacedInv(RemoveRemote(m, id))
  {
    hide TablesInv, ClientsInv, RemoveRemote, Wanted;
    var t := RemoveRemote(m, id);
    RemoveRemoteTables(m, id);
    forall cred, k | Wanted(t, cred, k) ensures k in t.placed {
      RemoveWantsAt(m, id, cred, k);
    }
    forall k | k in t.placed ensures k in t.rules && Wanted(t, t.rules[k].credential, k) {
      RemoveWantsAt(m, id, t.rules[k].credential, k);
    }
  }

  lemma RemoveRemoteKeepsInv(m: State, id: string)
    requires Inv(m)
    ensures Inv(RemoveRemote(m, id))
  {
    hide S.Inv, PlacedInv;
    RemoveRemoteKeepsPlaced(m, id);
    RemoveRemoteTables(m, id);
    assert ClientsInv(RemoveRemote(m, id)) by {
      RemoveRemoteKeepsClients(m, id);
    }
  }

  lemma RemoveCredentialKeepsPlaced(m: State, cred: string, order: seq<string>)
    requires ClientsInv(m) && PlacedInv(m) && Walks(order, m.store.cs.Keys - {cred})
    ensures PlacedInv(RemoveCredential(m, cred, order))
  {
    hide S.Inv, C.Delete;
    var t := RemoveCredential(m, cred, order);
    forall k, id | Wanted(t, k, id) ensures id in t.placed {
      assert ClientFits(m.rules, k, m.clients[k]) && Wanted(m, k, id);
    }
    forall id | id in t.placed ensures id in t.rules && Wanted(t, t.rules[id].credential, id) {
      assert Wanted(m, m.rules[id].credential, id);
    }
  }

  lemma RemoveCredentialKeepsInv(m: State, cred: string, order: seq<string>)
    requires Inv(m) && Walks(order, m.store.cs.Keys - {cred})
    ensures Inv(RemoveCredential(m, cred, order))
  {
    hide S.Inv, PlacedInv;
    RemoveCredentialKeepsPlaced(m, cred, order);
    var t := RemoveCredential(m, cred, order);
    if cred in m.cancel {
      assert m.cancel[cred] in m.cancel.Values;
      OwnsRemove(m.cancel, m.cancel.Values, cred);
      ReleaseBalanced(m.ctxs, m.cancel.Values, m.cancel[cred]);
    } else {
      assert m.cancel - {cred} == m.cancel;
    }
    forall k | k in t.clients ensures ClientFits(t.rules, k, t.clients[k]) {
      assert ClientFits(m.rules, k, m.clients[k]);
    }
  }

  /** A client may change as long as it wants the same rules. */
  lemma SameWantsFit(m: State, cred: string, c: S.State)
    requires ClientsInv(m) && cred in m.clients && S.Inv(c) && c.pending == m.clients[cred].pending
    ensures ClientsInv(WithClient(m, cred, c))
  {
    hide S.Inv;
    var t := WithClient(m, cred, c);
    forall k | k in t.clients ensures ClientFits(t.rules, k, t.clients[k]) {
      assert ClientFits(m.rules, k, m.clients[k]);
    }
  }

  lemma SameWantsPlaced(m: State, cred: string, c: S.State)
    requires PlacedInv(m) && cred in m.clients && c.pending == m.clients[cred].pending
    ensures PlacedInv(WithClient(m, cred, c))
  {
    var t := WithClient(m, cred, c);
    assert forall k, id :: Wanted(t, k, id) <==> Wanted(m, k, id);
    hide Wanted;
  }

  lemma OwnStepKeepsWants(c: S.State, op: S.Op)
    requires S.Inv(c) && (op.ConnectOp? || op.DropOp? || op.DialFailsOp?)
    ensures S.Inv(S.Step(c, op)) && S.Step(c, op).pending == c.pending
  {
    S.StepKeepsInv(c, op);
    hide S.Inv;
    if op.ConnectOp? && Walks(op.order, c.pending.Keys) {
      S.ConnectKeepsInv(c, op.order, op.grants);
    }
  }

  /** A client's own steps: connecting, losing the connection, failing to dial. */
  lemma ClientStepKeepsInv(m: State, cred: string, op: S.Op)
    requires Inv(m) && cred in m.clients && (op.ConnectOp? || op.DropOp? || op.DialFailsOp?)
    ensures Inv(WithClient(m, cred, S.Step(m.clients[cred], op)))
  {
    hide S.Inv, S.Step, PlacedInv;
    assert ClientFits(m.rules, cred, m.clients[cred]);
    OwnStepKeepsWants(m.clients[cred], op);
    SameWantsFit(m, cred, S.Step(m.clients[cred], op));
    SameWantsPlaced(m, cred, S.Step(m.clients[cred], op));
  }
}

/** Whole runs of the daemon: what holds after any sequence of API requests, client steps and restarts. */
module ApiRuns {
  import opened Common
  import opened Decimal
  import opened Network
  import opened Rules
  import opened Backend
  import opened Api
  import opened ApiProofs
  import E = Engine
  import P = EngineProofs
  import R = EngineRuns
  import M = Manager
  import S = SshClient
  import C = Credentials

  lemma StoreStepKeepsInv(a: State, op: C.Op)
    requires Inv(a)
    ensures Inv(WithStore(a, C.Step(a.mgr.store, op)))
  {
    hide M.Inv, C.Sound, EngineFits, FileFits;
    C.StepKeepsSound(a.mgr.store, op);
    M.AnyStore(a.mgr, C.Step(a.mgr.store, op));
  }

  lemma ClientOpKeepsInv(a: State, cred: string, op: S.Op)
    requires Inv(a) && cred in a.mgr.clients && OwnStep(op)
    ensures Inv(a.(mgr := M.WithClient(a.mgr, cred, S.Step(a.mgr.clients[cred], op))))
  {
    hide M.Inv, C.Sound, EngineFits, FileFits, S.Step;
    M.ClientStepKeepsInv(a.mgr, cred, op);
  }

  /** A rule file that was not written is the old one, which fits as well. */
  lemma AnyWriteKeepsInv(a: State, b: State, write: Write)
    requires Inv(a) && Inv(b)
    ensures Inv(OnDisk(b, a.file, write))
  {
    hide M.Inv, C.Sound, EngineFits, FileFits;
  }

  lemma UnsavedDeletionKeepsInv(a: State, cred: string, order: seq<string>, write: Write)
    requires Inv(a) && E.StopReady(a.eng) && Walks(order, a.mgr.store.cs.Keys - {cred})
    requires Inv(DeleteCredential(a, cred, order))
    ensures Inv(WithCredsOnDisk(DeleteCredential(a, cred, order), a.mgr.store.file, write))
  {
    hide M.Inv, C.Sound, EngineFits, FileFits, Purge, C.Delete, C.IfWritten;
    var b := DeleteCredential(a, cred, order);
    assert b.mgr.store == C.Delete(a.mgr.store, cred, order);
    C.DeleteKeepsSound(a.mgr.store, cred, order, write);
    M.AnyStore(b.mgr, C.IfWritten(b.mgr.store, a.mgr.store.file, write));
  }

  lemma StepKeepsInv(a: State, op: Op)
    requires Inv(a)
    ensures Inv(Step(a, op))
  {
    hide Inv;
    if Enabled(a, op) {
      match op
      case CreateRuleOp(typ, name, listen, target, credential, answer, env, write) =>
        CreateRuleKeepsInv(a, typ, name, listen, target, credential, answer, env);
        AnyWriteKeepsInv(a, CreateRule(a, typ, name, listen, target, credential, answer, env), write);
      case DeleteRuleOp(id, env, write) =>
        DeleteRuleKeepsInv(a, id, env);
        AnyWriteKeepsInv(a, DeleteRule(a, id, env), write);
      case UpdateRuleOp(id, name, listen, target, credential, answer, env, write) =>
        UpdateRuleKeepsInv(a, id, name, listen, target, credential, answer, env);
        AnyWriteKeepsInv(a, UpdateRule(a, id, name, listen, target, credential, answer, env), write);
      case RestartRulesOp(order, answers) => RestartRulesKeepsInv(a, order, answers);
      case CreateCredentialOp(c, write, order) => StoreStepKeepsInv(a, C.AddOp(c, write, order));
      case UpdateCredentialOp(cred, c, write, order) => StoreStepKeepsInv(a, C.UpdateOp(cred, c, write, order));
      case DeleteCredentialOp(cred, write, order) =>
        DeleteCredentialKeepsInv(a, cred, order);
        UnsavedDeletionKeepsInv(a, cred, order, write);
      case ClientOp(cred, o) => ClientOpKeepsInv(a, cred, o);
      case RebootOp(answers, env) => RebootKeepsInv(a, answers, env);
    }
  }

  lemma {:induction false} ExecKeepsInv(a: State, ops: seq<Op>)
    requires Inv(a)
    ensures Inv(Exec(a, ops))
    decreases |ops|
  {
    hide Inv;
    if ops != [] {
      StepKeepsInv(a, ops[0]);
      ExecKeepsInv(Step(a, ops[0]), ops[1..]);
    }
  }

  lemma StartFits()
    ensures Inv(START)
  {
    R.NewFits(true);
    NewManagerFits(C.Load([]));
    hide P.Inv, M.Inv;
  }

  /** Reachable states. */
  lemma Reached(ops: seq<Op>)
    ensures Inv(Exec(START, ops)) && E.StopReady(Exec(START, ops).eng)
  {
    hide Inv, Exec;
    StartFits();
    ExecKeepsInv(START, ops);
    FitsReady(Exec(START, ops));
  }

  // ---- Three registries ----------------------------------------------------

  /** The client's rule has the ID, the name and the two addresses of the manager's. */
  predicate Asks(c: ClientRule, r: Rule) {
    c.id == r.id && c.name == r.name && c.listen == r.listen && c.target == r.target
  }

  /** Engine, manager and clients tell the same story about remote rules. */
  ghost predicate Agreement(a: State) {
    && (forall id :: id in a.mgr.rules <==> id in a.eng.rules && IsRemote(a.eng.rules[id]))
    && (forall id <- a.mgr.rules.Keys :: DropStatus(a.mgr.rules[id]) == DropStatus(a.eng.rules[id]))
    && a.mgr.byRule.Keys == a.mgr.rules.Keys
    && (forall id <- a.mgr.rules.Keys :: a.mgr.byRule[id] == a.mgr.rules[id].credential)
    && (forall cred, id | cred in a.mgr.clients && id in a.mgr.clients[cred].pending ::
          && id in a.mgr.rules && a.mgr.rules[id].credential == cred
          && Asks(a.mgr.clients[cred].pending[id], a.mgr.rules[id]))
    && a.mgr.clients.Keys == a.mgr.cancel.Keys
    && a.mgr.placed <= a.mgr.rules.Keys
    && (forall id <- a.mgr.rules.Keys :: id in a.mgr.placed <==> M.Wanted(a.mgr, a.mgr.rules[id].credential, id))
  }

  lemma InvAgrees(a: State)
    requires Inv(a)
    ensures Agreement(a)
  {
    hide S.Inv, EngineFits, FileFits, C.Sound;
    forall id
      ensures id in a.mgr.rules <==> id in a.eng.rules && IsRemote(a.eng.rules[id])
      ensures id in a.mgr.rules ==> DropStatus(a.mgr.rules[id]) == DropStatus(a.eng.rules[id])
    {
      assert id in Filed(a.mgr.rules) <==> id in Remotes(a.eng.rules);
      assert id in Filed(a.mgr.rules) ==> Filed(a.mgr.rules)[id] == Remotes(a.eng.rules)[id];
    }
    forall cred, id | cred in a.mgr.clients && id in a.mgr.clients[cred].pending
      ensures id in a.mgr.rules && a.mgr.rules[id].credential == cred
      ensures Asks(a.mgr.clients[cred].pending[id], a.mgr.rules[id])
    {
      assert M.ClientFits(a.mgr.rules, cred, a.mgr.clients[cred]);
    }
  }

  /**
   * After any sequence of rule and credential requests, whatever writes fail, interleaved with clients connecting and
   * dropping and the daemon restarting: the engine's remote rules and the manager's rules have the same IDs and the
   * same fields, `byRule` names each rule's credential, whatever a client wants is a rule of its credential with that
   * rule's name and addresses, and a rule is wanted by the client of its credential exactly when that credential was
   * usable when the rule was last registered.
   */
  lemma RegistriesAgree(ops: seq<Op>)
    ensures Agreement(Exec(START, ops))
  {
    hide Inv, Exec, Agreement;
    Reached(ops);
    InvAgrees(Exec(START, ops));
  }

  /**
   * Such a rule is also served: when its client's next dial succeeds, the rule's listener is open, at the address
   * granted and with the engine's fields, exactly when the rule has the first claim to an address in that walk.
   */
  lemma PlacedRuleIsServed(ops: seq<Op>, id: string, order: seq<string>, grants: map<string, Addr>)
    requires id in Exec(START, ops).mgr.placed
    ensures var a := Exec(START, ops);
            && id in a.eng.rules && id in a.mgr.rules
            && var cred := a.mgr.rules[id].credential;
            && cred in a.mgr.clients
            && (Walks(order, a.mgr.clients[cred].pending.Keys) ==>
                  var c := Step(a, ClientOp(cred, S.ConnectOp(order, grants))).mgr.clients[cred];
                  && c.up && (id in c.lns <==> S.Claims(order, grants, id))
                  && (id in c.lns ==> Asks(c.lns[id].rule, a.eng.rules[id]) && S.Serves(c, grants, id)))
  {
    hide Inv, Exec, S.Inv, S.Connect, S.Claims, S.Serves;
    Reached(ops);
    var a := Exec(START, ops);
    InvAgrees(a);
    var cred := a.mgr.rules[id].credential;
    ClientIsSound(a, cred);
    if Walks(order, a.mgr.clients[cred].pending.Keys) {
      S.ConnectKeepsInv(a.mgr.clients[cred], order, grants);
      S.ConnectEstablishes(a.mgr.clients[cred], order, grants);
      SameForClient(a.mgr.rules[id], a.eng.rules[id]);
      ServesPending(S.Connect(a.mgr.clients[cred], order, grants), grants, id);
    }
  }

  lemma ClientIsSound(a: State, cred: string)
    requires Inv(a) && cred in a.mgr.clients
    ensures S.Inv(a.mgr.clients[cred])
  {
    hide S.Inv, C.Sound, EngineFits, FileFits;
    assert M.ClientFits(a.mgr.rules, cred, a.mgr.clients[cred]);
  }

  lemma SameForClient(r: Rule, q: Rule)
    requires DropStatus(r) == DropStatus(q)
    ensures forall c :: Asks(c, r) <==> Asks(c, q)
  {
  }

  lemma ServesPending(c: S.State, grants: map<string, Addr>, id: string)
    ensures id in c.lns && S.Serves(c, grants, id) ==> id in c.pending && c.lns[id].rule == c.pending[id]
  {
  }

  // ---- Deleting a credential -----------------------------------------------

  /**
   * Deleting a credential is complete and exact in every reachable state: nothing in memory refers to it any
   * more, and every other rule, listener, client and credential is as it was.
   */
  lemma CredentialDeletion(ops: seq<Op>, cred: string, order: seq<string>)
    requires Walks(order, Exec(START, ops).mgr.store.cs.Keys - {cred})
    ensures E.StopReady(Exec(START, ops).eng)
    ensures DeletedExactly(Exec(START, ops), DeleteCredential(Exec(START, ops), cred, order), cred)
  {
    hide Inv, Exec, DeletedExactly, DeleteCredential;
    Reached(ops);
    DeleteIsExact(Exec(START, ops), cred, order);
  }

  /** A restarted engine has a remote user of the credential exactly when the rule file has one. */
  lemma RebootUsers(a: State, answers: seq<Option<Addr>>, env: M.Env, cred: string)
    requires Inv(a) && |answers| == |a.file|
    ensures UsersIn(Reboot(a, answers, env).eng.rules, cred) != {} <==> exists r <- a.file :: Uses(r, cred)
  {
    RestoreFileFits(a.file, answers);
    var e := E.Restore(E.New(true), a.file, answers);
    hide E.Restore, P.Numbered, P.Inv, Inv, FileFits;
    assert Reboot(a, answers, env).eng.rules == e.rules;
    if r :| r in a.file && Uses(r, cred) {
      assert Uses(DropStatus(e.rules[r.id]), cred);
      assert r.id in UsersIn(e.rules, cred);
    }
    if id :| id in UsersIn(e.rules, cred) {
      var r :| r in a.file && r.id == id;
      assert Uses(DropStatus(r), cred);
    }
  }

  /**
   * Deletion does not write the rule file, so it outlives a restart exactly when the file last saved has no
   * remote rule with that credential.
   */
  lemma DeletionOutlivesRestartIff(
    ops: seq<Op>, cred: string, order: seq<string>, answers: seq<Option<Addr>>, env: M.Env)
    requires Walks(order, Exec(START, ops).mgr.store.cs.Keys - {cred}) && |answers| == |Exec(START, ops).file|
    ensures E.StopReady(Exec(START, ops).eng)
    ensures var a := Exec(START, ops);
            var b := DeleteCredential(a, cred, order);
            && b.file == a.file
            && (UsersIn(Reboot(b, answers, env).eng.rules, cred) == {} <==> forall r <- a.file :: !Uses(r, cred))
  {
    hide Inv, Exec, DeleteCredential;
    Reached(ops);
    var a := Exec(START, ops);
    DeleteIsExact(a, cred, order);
    DeleteCredentialKeepsInv(a, cred, order);
    hide UsersIn, Reboot;
    RebootUsers(DeleteCredential(a, cred, order), answers, env, cred);
  }

  lemma CreatedRuleIsSaved(a: State, name: string, listen: string, target: string, cred: string,
                           answer: Option<Addr>, env: M.Env)
    requires Inv(a) && a.eng.nextID < MAX_INT && cred != ""
    ensures exists r <- CreateRule(a, REMOTE, name, listen, target, cred, answer, env).file :: Uses(r, cred)
  {
    var b := CreateRule(a, REMOTE, name, listen, target, cred, answer, env);
    CreateRuleKeepsInv(a, REMOTE, name, listen, target, cred, answer, env);
    hide M.Inv, C.Sound, FileFits, P.Inv;
    var id := Print(a.eng.nextID);
    var e := E.Add(a.eng, REMOTE, name, listen, target, cred, answer);
    assert b.eng == e.(calls := []) && id in e.rules && Uses(e.rules[id], cred);
    assert b.file == E.Persist(E.List(b.eng));
    P.SavedList(b.eng);
    hide Print, Value, E.List, E.Persist;
    assert DropStatus(b.eng.rules[id]) in b.file;
  }

  /**
   * In every reachable state: create a remote rule on a credential, delete the credential, restart the daemon,
   * and the engine holds a rule that uses the deleted credential again.
   */
  lemma DeletedUserComesBack(ops: seq<Op>, name: string, listen: string, target: string, cred: string,
                             answer: Option<Addr>, env: M.Env, order: seq<string>, answers: seq<Option<Addr>>)
    requires cred != "" && Exec(START, ops).eng.nextID < MAX_INT
    requires var a := CreateRule(Exec(START, ops), REMOTE, name, listen, target, cred, answer, env);
             Walks(order, a.mgr.store.cs.Keys - {cred}) && |answers| == |a.file|
    ensures var a := CreateRule(Exec(START, ops), REMOTE, name, listen, target, cred, answer, env);
            && E.StopReady(a.eng)
            && DeleteCredential(a, cred, order).file == a.file
            && UsersIn(Reboot(DeleteCredential(a, cred, order), answers, env).eng.rules, cred) != {}
  {
    hide Inv, Exec, DeleteCredential, CreateRule;
    Reached(ops);
    var a0 := Exec(START, ops);
    var a := CreateRule(a0, REMOTE, name, listen, target, cred, answer, env);
    CreateRuleKeepsInv(a0, REMOTE, name, listen, target, cred, answer, env);
    CreatedRuleIsSaved(a0, name, listen, target, cred, answer, env);
    FitsReady(a);
    DeleteIsExact(a, cred, order);
    DeleteCredentialKeepsInv(a, cred, order);
    hide UsersIn, Reboot;
    RebootUsers(DeleteCredential(a, cred, order), answers, env, cred);
  }

  /** What a restart and a new credential leave of the store behind a deletion. */
  lemma NextCredentialAfter(a: State, k: nat, order: seq<string>, answers: seq<Option<Addr>>, env: M.Env)
    requires Inv(a) && k >= 1 && C.NameOf(k) in a.mgr.store.cs && Walks(order, a.mgr.store.cs.Keys - {C.NameOf(k)})
    requires E.StopReady(a.eng) && |answers| == |DeleteCredential(a, C.NameOf(k), order).file|
    ensures var left := a.mgr.store.cs.Keys - {C.NameOf(k)};
            var t := Reboot(DeleteCredential(a, C.NameOf(k), order), answers, env);
            C.NameOf(t.mgr.store.next + 1) == C.NameOf(k) <==>
            && (forall id <- left :: C.AtoiName(id) + 2 <= k)
            && (k == 1 || exists id <- left :: C.AtoiName(id) + 2 == k)
  {
    hide M.Inv, C.Sound, EngineFits, FileFits, Purge, C.Delete, C.Load, C.NameOf, C.AtoiName, Serve;
    var cred := C.NameOf(k);
    var b := DeleteCredential(a, cred, order);
    assert b.mgr.store == C.Delete(a.mgr.store, cred, order);
    ServeKeepsStore(M.New(C.Load(b.mgr.store.file)), E.Restore(E.New(true), b.file, answers).calls, env);
    C.DeletedIdReusedIff(a.mgr.store, k, order);
  }

  lemma AddedUnder(s: C.State, c: C.Credential)
    ensures var t := C.WithNew(s, c);
            var id := C.NameOf(s.next + 1);
            id in t.cs && t.cs[id] == c.(id := id)
  {
  }

  /**
   * A rule that comes back after its credential was deleted can find somebody else's credential under the ID. From
   * every reachable state: create a remote rule on a credential, delete the credential, restart, and add another
   * credential; if the deleted ID is the next one after the reload, the rule names the new credential.
   */
  lemma StaleRuleNamesNewCredential(
    ops: seq<Op>, name: string, listen: string, target: string, k: nat, answer: Option<Addr>, env: M.Env,
    order: seq<string>, answers: seq<Option<Addr>>, c: C.Credential)
    requires Exec(START, ops).eng.nextID < MAX_INT
    requires var a := CreateRule(Exec(START, ops), REMOTE, name, listen, target, C.NameOf(k), answer, env);
             var left := a.mgr.store.cs.Keys - {C.NameOf(k)};
             && k >= 1 && C.NameOf(k) in a.mgr.store.cs && Walks(order, left) && |answers| == |a.file|
             && (forall id <- left :: C.AtoiName(id) + 2 <= k)
             && (k == 1 || exists id <- left :: C.AtoiName(id) + 2 == k)
    ensures var a := CreateRule(Exec(START, ops), REMOTE, name, listen, target, C.NameOf(k), answer, env);
            && E.StopReady(a.eng)
            && DeleteCredential(a, C.NameOf(k), order).file == a.file
            && var t := Reboot(DeleteCredential(a, C.NameOf(k), order), answers, env);
               var u := WithStore(t, C.WithNew(t.mgr.store, c));
               && C.NameOf(k) !in DeleteCredential(a, C.NameOf(k), order).mgr.store.cs
               && UsersIn(u.eng.rules, C.NameOf(k)) != {}
               && C.NameOf(k) in u.mgr.store.cs && u.mgr.store.cs[C.NameOf(k)] == c.(id := C.NameOf(k))
  {
    hide Inv, Exec, DeleteCredential, CreateRule, C.AtoiName, UsersIn, Reboot, C.WithNew;
    var cred, a0 := C.NameOf(k), Exec(START, ops);
    NameNotEmpty(k);
    hide C.NameOf;
    DeletedUserComesBack(ops, name, listen, target, cred, answer, env, order, answers);
    Reached(ops);
    var a := CreateRule(a0, REMOTE, name, listen, target, cred, answer, env);
    CreateRuleKeepsInv(a0, REMOTE, name, listen, target, cred, answer, env);
    DeleteIsExact(a, cred, order);
    NextCredentialAfter(a, k, order, answers, env);
    AddedUnder(Reboot(DeleteCredential(a, cred, order), answers, env).mgr.store, c);
  }

  lemma NameNotEmpty(k: nat)
    ensures C.NameOf(k) != ""
  {
  }
}

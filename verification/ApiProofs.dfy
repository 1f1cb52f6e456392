/** The registries of engine, manager and clients agree in every state the API operations lead to. */
module ApiProofs {
  import opened Common
  import opened Decimal
  import opened Network
  import opened Rules
  import opened Backend
  import opened Api
  import E = Engine
  import P = EngineProofs
  import R = EngineRuns
  import M = Manager
  import S = SshClient
  import C = Credentials

  /** The manager's rules, statuses aside. */
  function Filed(rules: map<string, Rule>): map<string, Rule> {
    map id | id in rules :: DropStatus(rules[id])
  }

  // ---- The manager follows the engine's calls ------------------------------

  lemma FreshAccommodates(m: M.State, rule: Rule)
    requires M.ClientsInv(m) && rule.id !in m.rules
    ensures M.Accommodates(m, rule)
  {
    hide S.Inv;
    forall cred | cred in m.clients ensures rule.id !in m.clients[cred].pending {
      assert M.ClientFits(m.rules, cred, m.clients[cred]);
    }
  }

  lemma ServeOne(m: M.State, call: E.Call, env: M.Env)
    requires M.Inv(m) && (call.AddRemote? ==> call.rule.id !in m.rules)
    ensures var t := match call
                     case AddRemote(r) => M.AddRemote(m, r, env)
                     case RemoveRemote(id) => M.RemoveRemote(m, id);
            M.Inv(t) && Filed(t.rules) == Apply(Filed(m.rules), call)
  {
    hide M.ClientsInv, M.ContextsInv, S.Add, S.Remove;
    match call
    case AddRemote(r) =>
      FreshAccommodates(m, r);
      M.AddRemoteKeepsInv(m, r, env);
      M.AddedClients(m, r, env);
    case RemoveRemote(id) =>
      M.RemoveRemoteKeepsInv(m, id);
      M.RemoveRemoteTables(m, id);
  }

  lemma {:induction false} ServeFollows(m: M.State, calls: seq<E.Call>, env: M.Env)
    requires M.Inv(m) && Safe(Filed(m.rules), calls)
    ensures M.Inv(Serve(m, calls, env)) && Filed(Serve(m, calls, env).rules) == Effects(Filed(m.rules), calls)
    decreases |calls|
  {
    hide M.Inv;
    if calls != [] {
      var init := calls[..|calls| - 1];
      ServeFollows(m, init, env);
      var m' := Serve(m, init, env);
      assert Filed(m'.rules).Keys == m'.rules.Keys;
      ServeOne(m', calls[|calls| - 1], env);
    }
  }

  // ---- The joint invariant -------------------------------------------------

  /** What the rule file may hold: IDs in order and in range, no statuses. */
  ghost predicate FileFits(file: seq<Rule>) {
    P.Ascending(file) && P.InRange(file) && forall r <- file :: r == DropStatus(r)
  }

  ghost predicate EngineFits(e: E.State) {
    P.Inv(e) && P.Numbered(e) && e.remote
  }

  ghost predicate Inv(a: State) {
    && EngineFits(a.eng) && a.eng.calls == []
    && M.Inv(a.mgr) && C.Sound(a.mgr.store)
    && Filed(a.mgr.rules) == Remotes(a.eng.rules)
    && FileFits(a.file)
  }

  lemma NoCallsTrack(e: E.State)
    requires e.calls == []
    ensures Tracks(Remotes(e.rules), e)
  {
  }

  lemma ForgetCalls(e: E.State)
    requires EngineFits(e)
    ensures EngineFits(e.(calls := []))
  {
  }

  /** An engine step whose calls track its remote rules keeps the registries in agreement. */
  lemma DispatchKeepsInv(a: State, e: E.State, env: M.Env)
    requires M.Inv(a.mgr) && C.Sound(a.mgr.store) && FileFits(a.file)
    requires EngineFits(e) && Tracks(Filed(a.mgr.rules), e)
    ensures Inv(Dispatch(a, e, env))
  {
    hide M.Inv, C.Sound, FileFits, EngineFits;
    ForgetCalls(e);
    ServeFollows(a.mgr, e.calls, env);
    ServeKeepsStore(a.mgr, e.calls, env);
  }

  lemma SaveKeepsInv(a: State)
    requires Inv(a)
    ensures Inv(Save(a))
  {
    hide M.Inv, C.Sound;
    P.SavedList(a.eng);
    hide P.Ascending, P.InRange;
  }

  // ---- Every step keeps the invariant --------------------------------------

  lemma AddFits(e: E.State, typ: string, name: string, listen: string, target: string, credential: string,
                answer: Option<Addr>)
    requires EngineFits(e) && e.calls == [] && e.nextID < MAX_INT
    ensures var t := E.Add(e, typ, name, listen, target, credential, answer);
            EngineFits(t) && Tracks(Remotes(e.rules), t)
  {
    hide P.Inv, P.Numbered, Tracks;
    NoCallsTrack(e);
    AddTracks(Remotes(e.rules), e, typ, name, listen, target, credential, answer);
    P.AddKeepsInv(e, typ, name, listen, target, credential, answer);
    R.AddNumbered(e, typ, name, listen, target, credential, answer);
  }

  lemma CreateRuleKeepsInv(a: State, typ: string, name: string, listen: string, target: string, credential: string,
                           answer: Option<Addr>, env: M.Env)
    requires Inv(a) && a.eng.nextID < MAX_INT
    ensures Inv(CreateRule(a, typ, name, listen, target, credential, answer, env))
  {
    hide M.Inv, C.Sound, FileFits, EngineFits, Tracks, E.Add, Save;
    var e := E.Add(a.eng, typ, name, listen, target, credential, answer);
    AddFits(a.eng, typ, name, listen, target, credential, answer);
    DispatchKeepsInv(a, e, env);
    SaveKeepsInv(Dispatch(a, e, env));
  }

  lemma ReadyToStop(e: E.State)
    requires P.Inv(e)
    ensures E.StopReady(e)
  {
  }

  lemma RemoveFits(e: E.State, id: string)
    requires EngineFits(e) && e.calls == []
    ensures E.StopReady(e) && EngineFits(E.Remove(e, id)) && Tracks(Remotes(e.rules), E.Remove(e, id))
  {
    ReadyToStop(e);
    NoCallsTrack(e);
    RemoveTracks(Remotes(e.rules), e, id);
    P.RemoveKeepsInv(e, id);
    R.StepKeepsNumbered(e, R.RemoveOp(id));
  }

  lemma DeleteRuleKeepsInv(a: State, id: string, env: M.Env)
    requires Inv(a)
    ensures E.StopReady(a.eng) && Inv(DeleteRule(a, id, env))
  {
    hide M.Inv, C.Sound, FileFits;
    RemoveFits(a.eng, id);
    if id in a.eng.rules {
      DispatchKeepsInv(a, E.Remove(a.eng, id), env);
      hide Inv;
      SaveKeepsInv(Dispatch(a, E.Remove(a.eng, id), env));
    }
  }

  lemma UpdateKeepsBackend(e: E.State, id: string, name: string, listen: string, target: string, credential: string,
                           answer: Option<Addr>)
    requires E.StopReady(e)
    ensures E.Update(e, id, name, listen, target, credential, answer).remote == e.remote
  {
  }

  lemma UpdateKeepsEngine(e: E.State, id: string, name: string, listen: string, target: string, credential: string,
                          answer: Option<Addr>)
    requires EngineFits(e)
    ensures E.StopReady(e) && EngineFits(E.Update(e, id, name, listen, target, credential, answer))
  {
    ReadyToStop(e);
    UpdateKeepsBackend(e, id, name, listen, target, credential, answer);
    hide E.Update, P.Inv, P.Numbered;
    P.UpdateKeepsInv(e, id, name, listen, target, credential, answer);
    R.StepKeepsNumbered(e, R.UpdateOp(id, name, listen, target, credential, answer));
  }

  lemma UpdateFits(e: E.State, id: string, name: string, listen: string, target: string, credential: string,
                   answer: Option<Addr>)
    requires EngineFits(e) && e.calls == []
    ensures E.StopReady(e)
    ensures var t := E.Update(e, id, name, listen, target, credential, answer);
            EngineFits(t) && Tracks(Remotes(e.rules), t)
  {
    UpdateKeepsEngine(e, id, name, listen, target, credential, answer);
    NoCallsTrack(e);
    hide E.Update, Tracks;
    UpdateTracks(Remotes(e.rules), e, id, name, listen, target, credential, answer);
  }

  lemma UpdateRuleKeepsInv(a: State, id: string, name: string, listen: string, target: string, credential: string,
                           answer: Option<Addr>, env: M.Env)
    requires Inv(a)
    ensures E.StopReady(a.eng) && Inv(UpdateRule(a, id, name, listen, target, credential, answer, env))
  {
    hide M.Inv, C.Sound, FileFits;
    UpdateFits(a.eng, id, name, listen, target, credential, answer);
    var e := E.Update(a.eng, id, name, listen, target, credential, answer);
    DispatchKeepsInv(a, e, env);
    hide Inv;
    SaveKeepsInv(Dispatch(a, e, env));
  }

  lemma RestartFits(e: E.State, order: seq<string>, answers: seq<Option<Addr>>)
    requires EngineFits(e) && e.calls == [] && Walks(order, e.rules.Keys) && |answers| == |order|
    ensures E.StopReady(e)
    ensures var t := E.Restart(e, order, answers);
            P.Inv(t) && P.Numbered(t) && Tracks(Remotes(e.rules), t)
  {
    hide Print, Value, Canonical, Atoi;
    ReadyToStop(e);
    NoCallsTrack(e);
    RestartTracks(Remotes(e.rules), e, order, answers);
    P.RestartKeepsInv(e, order, answers);
    R.StepKeepsNumbered(e, R.RestartOp(order, answers));
    hide P.Inv, P.Numbered, Tracks;
  }

  lemma {:induction false} RestartKeepsBackend(e: E.State, order: seq<string>, answers: seq<Option<Addr>>)
    requires E.StopReady(e) && (forall id <- order :: id in e.rules) && |answers| == |order|
    ensures E.Restart(e, order, answers).remote == e.remote
    decreases |order|
  {
    if order != [] {
      E.RestartOneKeys(e, order[0], answers[0]);
      RestartKeepsBackend(E.RestartOne(e, order[0], answers[0]), order[1..], answers[1..]);
    }
  }

  lemma RestartRulesKeepsInv(a: State, order: seq<string>, answers: seq<Option<Addr>>)
    requires Inv(a) && Walks(order, a.eng.rules.Keys) && |answers| == |order|
    ensures E.StopReady(a.eng) && Inv(Dispatch(a, E.Restart(a.eng, order, answers), NOTHING))
  {
    hide M.Inv, C.Sound, FileFits, P.Inv, P.Numbered, Tracks;
    RestartFits(a.eng, order, answers);
    RestartKeepsBackend(a.eng, order, answers);
    assert EngineFits(E.Restart(a.eng, order, answers));
    hide EngineFits, E.Restart;
    DispatchKeepsInv(a, E.Restart(a.eng, order, answers), NOTHING);
  }

  lemma RemoveOneKeepsInv(a: State, id: string)
    requires Inv(a)
    ensures E.StopReady(a.eng) && Inv(RemoveOne(a, id))
  {
    hide M.Inv, C.Sound, FileFits;
    RemoveFits(a.eng, id);
    DispatchKeepsInv(a, E.Remove(a.eng, id), NOTHING);
  }

  lemma FitsReady(a: State)
    requires Inv(a)
    ensures E.StopReady(a.eng)
  {
  }

  lemma {:induction false} PurgeKeepsInv(a: State, listed: seq<Rule>, cred: string)
    requires Inv(a) && E.StopReady(a.eng)
    ensures Inv(Purge(a, listed, cred))
    decreases |listed|
  {
    hide Inv;
    if listed != [] {
      if Uses(listed[0], cred) {
        RemoveOneKeepsInv(a, listed[0].id);
        PurgeKeepsInv(RemoveOne(a, listed[0].id), listed[1..], cred);
      } else {
        PurgeKeepsInv(a, listed[1..], cred);
      }
    }
  }

  lemma RemoveUnused(m: M.State, cred: string, order: seq<string>)
    requires Walks(order, m.store.cs.Keys - {cred}) && M.UsersOf(m.rules, cred) == {}
    ensures var t := M.RemoveCredential(m, cred, order);
            t.rules == m.rules && t.byRule == m.byRule && t.store == C.Delete(m.store, cred, order)
  {
    assert m.rules - {} == m.rules && m.byRule - {} == m.byRule;
  }

  /** Taking out a credential that no remote rule uses any more leaves the rule tables as they are. */
  lemma RemoveUnusedKeepsInv(a: State, cred: string, order: seq<string>)
    requires Inv(a) && Walks(order, a.mgr.store.cs.Keys - {cred}) && M.UsersOf(a.mgr.rules, cred) == {}
    ensures Inv(a.(mgr := M.RemoveCredential(a.mgr, cred, order)))
  {
    hide M.Inv, C.Sound, FileFits, EngineFits, M.RemoveCredential;
    M.RemoveCredentialKeepsInv(a.mgr, cred, order);
    C.DeleteKeepsSound(a.mgr.store, cred, order, Done);
    RemoveUnused(a.mgr, cred, order);
  }

  lemma DistinctInFile(file: seq<Rule>)
    requires P.Ascending(file)
    ensures forall i, j | 0 <= i < j < |file| :: file[i].id != file[j].id
  {
    hide Print, Value;
  }

  lemma NewTracks()
    ensures Tracks(map[], E.New(true))
  {
  }

  lemma RestoreFileFits(file: seq<Rule>, answers: seq<Option<Addr>>)
    requires FileFits(file) && |answers| == |file|
    ensures var t := E.Restore(E.New(true), file, answers);
            EngineFits(t) && Tracks(map[], t) && P.Carries(t, file)
  {
    var e := E.New(true);
    DistinctInFile(file);
    assert file[0..] == file && answers[0..] == answers;
    R.NewFits(true);
    NewTracks();
    assert P.Numbered(e) && P.Restorable(e, file) && P.Carries(e, file[..0]);
    hide P.Inv, P.Ascending, P.InRange, P.Numbered, P.Carries, P.Restorable, Tracks, E.Restore;
    RestoreTracks(map[], e, file, answers);
    P.RestoreKeepsInv(e, file, answers);
    P.RestoreCarries(e, file, answers, 0);
  }

  lemma NewManagerFits(store: C.State)
    ensures M.Inv(M.New(store)) && Filed(M.New(store).rules) == map[]
  {
  }

  lemma RebootKeepsInv(a: State, answers: seq<Option<Addr>>, env: M.Env)
    requires Inv(a) && |answers| == |a.file|
    ensures Inv(Reboot(a, answers, env))
  {
    var m := M.New(C.Load(a.mgr.store.file));
    NewManagerFits(m.store);
    C.ReloadIsSound(a.mgr.store);
    RestoreFileFits(a.file, answers);
    hide M.Inv, C.Sound, FileFits, EngineFits;
    DispatchKeepsInv(a.(mgr := m), E.Restore(E.New(true), a.file, answers), env);
  }

  // ---- Deleting a credential -----------------------------------------------

  /** The remote rules that use a credential. */
  function UsersIn(rules: map<string, Rule>, cred: string): set<string> {
    set id | id in rules && Uses(rules[id], cred)
  }

  /** `b` is `a` without the rules `gone`, whose client alone may have changed. */
  ghost predicate Without(a: State, b: State, gone: set<string>, cred: string) {
    && b.eng == a.eng.(rules := a.eng.rules - gone)
    && b.mgr.rules == a.mgr.rules - gone && b.mgr.byRule == a.mgr.byRule - gone
    && b.mgr.cancel == a.mgr.cancel && b.mgr.ctxs == a.mgr.ctxs && b.mgr.store == a.mgr.store
    && b.mgr.clients.Keys == a.mgr.clients.Keys
    && (forall k <- a.mgr.clients.Keys | k != cred :: b.mgr.clients[k] == a.mgr.clients[k])
    && b.file == a.file
  }

  lemma WithoutNothing(a: State, cred: string)
    ensures Without(a, a, {}, cred)
  {
    assert a.eng.rules - {} == a.eng.rules && a.mgr.rules - {} == a.mgr.rules && a.mgr.byRule - {} == a.mgr.byRule;
  }

  lemma WithoutMore(a: State, b: State, c: State, p: set<string>, q: set<string>, cred: string)
    requires Without(a, b, p, cred) && Without(b, c, q, cred)
    ensures Without(a, c, p + q, cred)
  {
    assert a.eng.rules - p - q == a.eng.rules - (p + q);
    assert a.mgr.rules - p - q == a.mgr.rules - (p + q);
    assert a.mgr.byRule - p - q == a.mgr.byRule - (p + q);
  }

  lemma FiledUnder(a: State, id: string, cred: string)
    requires Inv(a) && id in a.eng.rules && Uses(a.eng.rules[id], cred)
    ensures id in a.mgr.rules && M.CredentialOf(a.mgr, id) == cred
  {
    assert id in Remotes(a.eng.rules) && Filed(a.mgr.rules)[id] == DropStatus(a.eng.rules[id]);
  }

  lemma RemoveOneResult(a: State, id: string)
    requires E.StopReady(a.eng) && a.eng.calls == [] && a.eng.remote
    ensures RemoveOne(a, id) ==
            if id !in a.eng.rules then a
            else if IsRemote(a.eng.rules[id]) then
              a.(eng := a.eng.(rules := a.eng.rules - {id}), mgr := M.RemoveRemote(a.mgr, id))
            else RemoveOne(a, id)
  {
    hide M.RemoveRemote;
    var e := E.Remove(a.eng, id);
    if id in a.eng.rules && IsRemote(a.eng.rules[id]) {
      assert e.calls == [E.RemoveRemote(id)] && e.calls[..0] == [];
      assert Serve(a.mgr, e.calls, NOTHING) == M.RemoveRemote(a.mgr, id);
    }
  }

  lemma RemoveOneExact(a: State, id: string, cred: string)
    requires Inv(a) && E.StopReady(a.eng) && (id in a.eng.rules ==> Uses(a.eng.rules[id], cred))
    ensures Without(a, RemoveOne(a, id), if id in a.eng.rules then {id} else {}, cred)
  {
    RemoveOneResult(a, id);
    if id in a.eng.rules {
      FiledUnder(a, id, cred);
      M.RemoveRemoteTables(a.mgr, id);
      M.RemovedClients(a.mgr, id);
    } else {
      WithoutNothing(a, cred);
    }
    hide M.Inv, C.Sound, FileFits, EngineFits, M.RemoveRemote, RemoveOne;
  }

  /** The entries of `listed` that are still in the table are there unchanged. */
  ghost predicate Current(a: State, listed: seq<Rule>) {
    forall r <- listed :: r.id in a.eng.rules ==> a.eng.rules[r.id] == r
  }

  function UsersListed(a: State, listed: seq<Rule>, cred: string): set<string> {
    set r | r in listed && Uses(r, cred) && r.id in a.eng.rules :: r.id
  }

  /** What the rest of the loop still has to do after its first rule. */
  lemma UsersListedStep(a: State, b: State, listed: seq<Rule>, cred: string)
    requires listed != [] && Current(a, listed)
    requires b.eng.rules == a.eng.rules - (if Uses(listed[0], cred) then {listed[0].id} else {})
    ensures Current(b, listed[1..])
    ensures UsersListed(a, listed, cred) ==
            (if Uses(listed[0], cred) && listed[0].id in a.eng.rules then {listed[0].id} else {}) +
            UsersListed(b, listed[1..], cred)
  {
    assert listed == [listed[0]] + listed[1..];
  }

  lemma RemoveOneRules(a: State, id: string)
    requires E.StopReady(a.eng) && (id in a.eng.rules ==> IsRemote(a.eng.rules[id]))
    ensures RemoveOne(a, id).eng.rules == a.eng.rules - {id} && RemoveOne(a, id).eng.nextID == a.eng.nextID
  {
  }

  /** What the loop does to the engine's rules, whatever their IDs are. */
  lemma {:induction false} PurgeRules(a: State, listed: seq<Rule>, cred: string)
    requires E.StopReady(a.eng) && Current(a, listed)
    ensures Purge(a, listed, cred).eng.rules == a.eng.rules - UsersListed(a, listed, cred)
    decreases |listed|
  {
    if listed == [] {
      assert UsersListed(a, listed, cred) == {};
    } else {
      var r, rest := listed[0], listed[1..];
      assert r in listed;
      var b := if Uses(r, cred) then RemoveOne(a, r.id) else a;
      if Uses(r, cred) {
        RemoveOneRules(a, r.id);
      }
      hide RemoveOne, UsersListed, Current;
      UsersListedStep(a, b, listed, cred);
      PurgeRules(b, rest, cred);
    }
  }

  lemma UsersFound(a: State, cred: string)
    requires P.IdsMatch(a.eng)
    ensures Current(a, E.List(a.eng))
    ensures UsersListed(a, E.List(a.eng), cred) ==
            set id | id in UsersIn(a.eng.rules, cred) && P.Listable(id, a.eng.nextID)
  {
    hide Print, Value, Canonical, E.List;
    P.ListFinds(a.eng);
    var l := E.List(a.eng);
    forall id | id in UsersIn(a.eng.rules, cred) && P.Listable(id, a.eng.nextID) ensures id in UsersListed(a, l, cred) {
      assert a.eng.rules[id] in l && a.eng.rules[id].id == id;
    }
  }

  /**
   * Deletion is complete exactly when `List` can find every rule that uses the credential: when their IDs are plain
   * decimals of numbers from 1 to the counter. The rules it cannot find stay in the engine; the manager drops all.
   */
  lemma DeletionCompleteIff(a: State, cred: string, order: seq<string>)
    requires E.StopReady(a.eng) && P.IdsMatch(a.eng) && Walks(order, a.mgr.store.cs.Keys - {cred})
    ensures var b, users := DeleteCredential(a, cred, order), UsersIn(a.eng.rules, cred);
            && b.eng.rules == a.eng.rules - (set id | id in users && P.Listable(id, a.eng.nextID))
            && (UsersIn(b.eng.rules, cred) == {} <==> forall id <- users :: P.Listable(id, a.eng.nextID))
            && M.UsersOf(b.mgr.rules, cred) == {}
  {
    hide Print, Value, P.Listable, E.List, Purge;
    UsersFound(a, cred);
    PurgeRules(a, E.List(a.eng), cred);
    var b, users := DeleteCredential(a, cred, order), UsersIn(a.eng.rules, cred);
    if id :| id in users && !P.Listable(id, a.eng.nextID) {
      assert id in UsersIn(b.eng.rules, cred);
    }
  }

  lemma {:induction false} PurgeExact(a: State, listed: seq<Rule>, cred: string)
    requires Inv(a) && E.StopReady(a.eng) && Current(a, listed)
    ensures Without(a, Purge(a, listed, cred), UsersListed(a, listed, cred), cred)
    decreases |listed|
  {
    if listed == [] {
      WithoutNothing(a, cred);
      assert UsersListed(a, listed, cred) == {};
    } else {
      var r, rest := listed[0], listed[1..];
      var b := if Uses(r, cred) then RemoveOne(a, r.id) else a;
      var one := if Uses(r, cred) && r.id in a.eng.rules then {r.id} else {};
      assert r in listed;
      if Uses(r, cred) {
        RemoveOneExact(a, r.id, cred);
        RemoveOneKeepsInv(a, r.id);
        assert a.eng.rules - one == a.eng.rules - {r.id};
      } else {
        WithoutNothing(a, cred);
        assert a.eng.rules - {} == a.eng.rules;
      }
      UsersListedStep(a, b, listed, cred);
      hide Inv, Without, Current, RemoveOne;
      PurgeExact(b, rest, cred);
      WithoutMore(a, b, Purge(b, rest, cred), one, UsersListed(b, rest, cred), cred);
    }
  }

  /** `List` misses none of the rules to be removed. */
  lemma ListedUsersAreAll(a: State, cred: string)
    requires P.Numbered(a.eng)
    ensures Current(a, E.List(a.eng)) && UsersListed(a, E.List(a.eng), cred) == UsersIn(a.eng.rules, cred)
  {
    P.ListExactIff(a.eng);
    hide Print, Value, E.List;
    var l := E.List(a.eng);
    forall id | id in a.eng.rules && Uses(a.eng.rules[id], cred) ensures id in UsersListed(a, l, cred) {
      assert a.eng.rules[id] in l && a.eng.rules[id].id == id;
    }
  }

  lemma NoUsersLeft(b: State, cred: string)
    requires Filed(b.mgr.rules) == Remotes(b.eng.rules) && UsersIn(b.eng.rules, cred) == {}
    ensures M.UsersOf(b.mgr.rules, cred) == {}
  {
    forall id | id in b.mgr.rules ensures b.mgr.rules[id].credential != cred {
      assert id in Filed(b.mgr.rules) && id in Remotes(b.eng.rules);
      assert Filed(b.mgr.rules)[id].credential == b.mgr.rules[id].credential;
      assert id !in UsersIn(b.eng.rules, cred);
    }
  }

  lemma PurgeAll(a: State, cred: string)
    requires Inv(a) && E.StopReady(a.eng)
    ensures var b := Purge(a, E.List(a.eng), cred);
            && Inv(b) && Without(a, b, UsersIn(a.eng.rules, cred), cred)
            && M.UsersOf(b.mgr.rules, cred) == {}
  {
    ListedUsersAreAll(a, cred);
    PurgeExact(a, E.List(a.eng), cred);
    PurgeKeepsInv(a, E.List(a.eng), cred);
    var b := Purge(a, E.List(a.eng), cred);
    hide E.List, Purge, M.Inv, C.Sound, FileFits, EngineFits;
    assert UsersIn(b.eng.rules, cred) == {};
    NoUsersLeft(b, cred);
  }

  lemma DeleteCredentialKeepsInv(a: State, cred: string, order: seq<string>)
    requires Inv(a) && E.StopReady(a.eng) && Walks(order, a.mgr.store.cs.Keys - {cred})
    ensures Inv(DeleteCredential(a, cred, order))
  {
    PurgeAll(a, cred);
    hide Inv, Purge;
    RemoveUnusedKeepsInv(Purge(a, E.List(a.eng), cred), cred, order);
  }

  /** Exactly the rules, the client and the credential in question are gone; everything else is as it was. */
  ghost predicate DeletedExactly(a: State, b: State, cred: string) {
    var gone := UsersIn(a.eng.rules, cred);
    && b.eng == a.eng.(rules := a.eng.rules - gone)
    && b.mgr.rules == a.mgr.rules - gone && b.mgr.byRule == a.mgr.byRule - gone
    && b.mgr.clients == a.mgr.clients - {cred}
    && b.mgr.store.cs == a.mgr.store.cs - {cred}
    && b.file == a.file
    && UsersIn(b.eng.rules, cred) == {} && M.UsersOf(b.mgr.rules, cred) == {}
    && cred !in b.mgr.clients && cred !in b.mgr.store.cs
  }

  lemma DeleteTables(m: M.State, p: M.State, cred: string, order: seq<string>)
    requires Walks(order, p.store.cs.Keys - {cred}) && p.store == m.store && p.clients.Keys == m.clients.Keys
    requires forall k <- m.clients.Keys | k != cred :: p.clients[k] == m.clients[k]
    ensures var t := M.RemoveCredential(p, cred, order);
            t.clients == m.clients - {cred} && t.store.cs == m.store.cs - {cred}
  {
    var t := M.RemoveCredential(p, cred, order);
    assert t.clients.Keys == (m.clients - {cred}).Keys;
    assert cred !in m.store.cs ==> m.store.cs - {cred} == m.store.cs;
  }

  lemma DeleteIsExact(a: State, cred: string, order: seq<string>)
    requires Inv(a) && E.StopReady(a.eng) && Walks(order, a.mgr.store.cs.Keys - {cred})
    ensures DeletedExactly(a, DeleteCredential(a, cred, order), cred)
  {
    PurgeAll(a, cred);
    var p := Purge(a, E.List(a.eng), cred);
    RemoveUnused(p.mgr, cred, order);
    DeleteTables(a.mgr, p.mgr, cred, order);
    hide E.List, Purge, Inv, M.RemoveCredential;
    assert UsersIn(a.eng.rules - UsersIn(a.eng.rules, cred), cred) == {};
  }
}

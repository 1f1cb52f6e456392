/**
 * What the rule file is worth (internal/api/api.go): a request that succeeds and is written leaves exactly the rules in
 * memory in it, so that the next daemon starts with them; and when the file falls behind.
 */
module ApiFiles {
  import opened Common
  import opened Decimal
  import opened Network
  import opened Rules
  import opened Api
  import opened ApiProofs
  import opened ApiEffects
  import opened ApiRuns
  import opened EngineEffects
  import E = Engine
  import P = EngineProofs
  import M = Manager
  import C = Credentials

  predicate SameRule(r: Rule, q: Rule) {
    HasFields(r, q.id, q.typ, q.name, q.listen, q.target, q.credential)
  }

  /** The file has one entry for each rule, with that rule's fields, and no other entry. */
  ghost predicate Mirrors(file: seq<Rule>, rules: map<string, Rule>) {
    && (forall i, j | 0 <= i < j < |file| :: file[i].id != file[j].id)
    && (forall r <- file :: r.id in rules && SameRule(r, rules[r.id]))
    && (forall id <- rules.Keys :: exists r <- file :: r.id == id)
  }

  /** The rule file is up to date. */
  ghost predicate Current(a: State) {
    Mirrors(a.file, a.eng.rules)
  }

  /** A request that succeeds, and whose write does. */
  ghost predicate Saves(a: State, op: Op) {
    Enabled(a, op) &&
    match op
    case CreateRuleOp(typ, _, _, _, credential, answer, _, write) =>
      write == Done && if typ == REMOTE then credential != "" else FreeFor(a.eng, Print(a.eng.nextID), answer)
    case DeleteRuleOp(id, _, write) => write == Done && id in a.eng.rules
    case UpdateRuleOp(id, _, _, _, _, answer, _, write) =>
      write == Done && id in a.eng.rules && (IsRemote(a.eng.rules[id]) || FreeFor(a.eng, id, answer))
    case _ => false
  }

  lemma SavedMirrors(a: State)
    requires Inv(a) && a.file == E.Persist(E.List(a.eng))
    ensures Current(a)
  {
    hide M.Inv, C.Sound, E.List, E.Persist;
    P.SavedList(a.eng);
    DistinctInFile(a.file);
    hide Print, Value, Canonical;
    forall r | r in a.file ensures r.id in a.eng.rules && SameRule(r, a.eng.rules[r.id]) {
      assert r == DropStatus(a.eng.rules[r.id]);
    }
    forall id | id in a.eng.rules ensures exists r <- a.file :: r.id == id {
      assert DropStatus(a.eng.rules[id]) in a.file;
    }
  }

  // ---- The three requests --------------------------------------------------

  lemma AddSucceedsIff(e: E.State, typ: string, answer: Option<Addr>)
    requires EngineFits(e) && e.nextID < MAX_INT
    ensures E.AddSucceeds(e, typ, answer) <==> typ == REMOTE || FreeFor(e, Print(e.nextID), answer)
  {
    P.NextIsFresh(e);
    hide Print, Value, Atoi, FreeFor;
    AcceptedIffFree(e, Print(e.nextID), answer);
  }

  lemma CreateSaves(a: State, op: Op)
    requires Inv(a) && Enabled(a, op) && op.CreateRuleOp?
    ensures if Saves(a, op) then Current(Step(a, op)) else Step(a, op).file == a.file
  {
    hide M.Inv, C.Sound, FileFits, EngineFits, E.Add, E.AddSucceeds, E.List, E.Persist, FreeFor, Print, Current;
    CreateRuleKeepsInv(a, op.typ, op.name, op.listen, op.target, op.credential, op.answer, op.env);
    AddSucceedsIff(a.eng, op.typ, op.answer);
    if Saves(a, op) {
      SavedMirrors(Step(a, op));
    }
  }

  lemma DeleteSaves(a: State, op: Op)
    requires Inv(a) && Enabled(a, op) && op.DeleteRuleOp?
    ensures if Saves(a, op) then Current(Step(a, op)) else Step(a, op).file == a.file
  {
    hide M.Inv, C.Sound, FileFits, EngineFits, E.Remove, E.List, E.Persist, Current;
    DeleteRuleKeepsInv(a, op.id, op.env);
    if Saves(a, op) {
      SavedMirrors(Step(a, op));
    }
  }

  lemma UpdateSucceedsIff(e: E.State, id: string, answer: Option<Addr>)
    requires EngineFits(e)
    ensures E.StopReady(e)
    ensures E.UpdateSucceeds(e, id, answer) <==> id in e.rules && (IsRemote(e.rules[id]) || FreeFor(e, id, answer))
  {
    Ready(e);
    if id in e.rules {
      UpdateChanges(e, id, "", "", "", "", answer);
    }
  }

  lemma UpdateSaves(a: State, op: Op)
    requires Inv(a) && Enabled(a, op) && op.UpdateRuleOp?
    ensures if Saves(a, op) then Current(Step(a, op)) else Step(a, op).file == a.file
  {
    hide M.Inv, C.Sound, FileFits, EngineFits, E.Update, E.UpdateSucceeds, E.List, E.Persist, FreeFor, Current;
    UpdateRuleKeepsInv(a, op.id, op.name, op.listen, op.target, op.credential, op.answer, op.env);
    UpdateSucceedsIff(a.eng, op.id, op.answer);
    if Saves(a, op) {
      SavedMirrors(Step(a, op));
    }
  }

  lemma OthersSaveNothing(a: State, op: Op)
    requires Inv(a) && !op.CreateRuleOp? && !op.DeleteRuleOp? && !op.UpdateRuleOp?
    ensures Step(a, op).file == a.file
  {
    if Enabled(a, op) && op.DeleteCredentialOp? {
      DeleteIsExact(a, op.cred, op.order);
    }
  }

  lemma StepSaves(a: State, op: Op)
    requires Inv(a)
    ensures if Saves(a, op) then Current(Step(a, op)) else Step(a, op).file == a.file
  {
    hide Inv, Step, Saves, Current;
    if !Enabled(a, op) {
      NotEnabled(a, op);
    } else if op.CreateRuleOp? {
      CreateSaves(a, op);
    } else if op.DeleteRuleOp? {
      DeleteSaves(a, op);
    } else if op.UpdateRuleOp? {
      UpdateSaves(a, op);
    } else {
      OthersSaveNothing(a, op);
      NeverSaves(a, op);
    }
  }

  lemma NotEnabled(a: State, op: Op)
    requires !Enabled(a, op)
    ensures Step(a, op) == a && !Saves(a, op)
  {
  }

  lemma NeverSaves(a: State, op: Op)
    requires !op.CreateRuleOp? && !op.DeleteRuleOp? && !op.UpdateRuleOp?
    ensures !Saves(a, op)
  {
  }

  /**
   * In every reachable state, a request that succeeds and is written leaves one entry in the rule file for each rule
   * of the engine, with that rule's type, name, addresses and credential, and no other entry. Nothing else touches the
   * file.
   */
  lemma WrittenRequestIsSaved(ops: seq<Op>, op: Op)
    ensures var a := Exec(START, ops);
            if Saves(a, op) then Mirrors(Step(a, op).file, Step(a, op).eng.rules) else Step(a, op).file == a.file
  {
    hide Exec, Step, Saves, Mirrors;
    Reached(ops);
    StepSaves(Exec(START, ops), op);
  }

  // ---- Restarting ----------------------------------------------------------

  lemma SameAfterReboot(a: State, answers: seq<Option<Addr>>, env: M.Env)
    requires Inv(a) && Current(a) && |answers| == |a.file|
    ensures var t := Reboot(a, answers, env);
            && t.eng.rules.Keys == a.eng.rules.Keys
            && forall id <- a.eng.rules.Keys :: SameRule(t.eng.rules[id], a.eng.rules[id])
  {
    RestoreFileFits(a.file, answers);
    var e := E.Restore(E.New(true), a.file, answers);
    hide E.Restore, P.Numbered, P.Inv, Inv, FileFits;
    assert Reboot(a, answers, env).eng.rules == e.rules;
    forall id | id in a.eng.rules ensures id in e.rules && SameRule(e.rules[id], a.eng.rules[id]) {
      var r :| r in a.file && r.id == id;
      assert DropStatus(e.rules[r.id]) == DropStatus(r);
      SameFields(e.rules[id], r);
    }
    forall id | id in e.rules ensures id in a.eng.rules {
      var r :| r in a.file && r.id == id;
    }
  }

  /** What the request asked for is there. */
  ghost predicate Fulfilled(before: map<string, Rule>, nextID: nat, after: map<string, Rule>, op: Op) {
    match op
    case CreateRuleOp(typ, name, listen, target, credential, _, _, _) =>
      var id := Print(nextID);
      && after.Keys == before.Keys + {id} && id !in before
      && HasFields(after[id], id, typ, name, listen, target, credential)
      && (forall k <- before.Keys :: SameRule(after[k], before[k]))
    case DeleteRuleOp(id, _, _) =>
      && after.Keys == before.Keys - {id}
      && (forall k <- after.Keys :: SameRule(after[k], before[k]))
    case UpdateRuleOp(id, name, listen, target, credential, _, _, _) =>
      && after.Keys == before.Keys && id in before
      && HasFields(after[id], id, before[id].typ, name, listen, target,
                   if IsRemote(before[id]) then credential else before[id].credential)
      && (forall k <- before.Keys | k != id :: SameRule(after[k], before[k]))
    case _ => true
  }

  lemma OthersKept(e: E.State, t: E.State, id: string)
    requires OthersSame(e, t, id)
    ensures t.rules.Keys == if id in t.rules then e.rules.Keys + {id} else e.rules.Keys - {id}
    ensures forall k <- e.rules.Keys | k != id :: k in t.rules && t.rules[k] == e.rules[k]
  {
    forall k | k != id ensures k in t.rules <==> k in e.rules {
      assert SameAt(e, t, k);
    }
    forall k | k in e.rules && k != id ensures t.rules[k] == e.rules[k] {
      assert SameAt(e, t, k);
    }
  }

  lemma IdsFit(a: State)
    requires Inv(a)
    ensures P.IdsMatch(a.eng)
  {
  }

  lemma CreateStep(a: State, op: Op)
    requires Enabled(a, op) && op.CreateRuleOp?
    ensures Step(a, op).eng ==
            CreateRule(a, op.typ, op.name, op.listen, op.target, op.credential, op.answer, op.env).eng
  {
    hide CreateRule;
  }

  lemma DeleteStep(a: State, op: Op)
    requires Enabled(a, op) && op.DeleteRuleOp?
    ensures E.StopReady(a.eng) && Step(a, op).eng == DeleteRule(a, op.id, op.env).eng
  {
    hide DeleteRule;
  }

  lemma UpdateStep(a: State, op: Op)
    requires Enabled(a, op) && op.UpdateRuleOp?
    ensures E.StopReady(a.eng)
    ensures Step(a, op).eng ==
            UpdateRule(a, op.id, op.name, op.listen, op.target, op.credential, op.answer, op.env).eng
  {
    hide UpdateRule;
  }

  lemma CreateFulfilled(a: State, op: Op)
    requires Inv(a) && Saves(a, op) && op.CreateRuleOp?
    ensures Fulfilled(a.eng.rules, a.eng.nextID, Step(a, op).eng.rules, op)
  {
    hide Inv, OthersSame, Registered, WantedAs, OthersWanted, ServedIff, FreeFor, Print, Settled, CreateRule, Step;
    IdsFit(a);
    CreateStep(a, op);
    CreateRuleEffect(a, op.typ, op.name, op.listen, op.target, op.credential, op.answer, op.env);
    OthersKept(a.eng, Step(a, op).eng, Print(a.eng.nextID));
  }

  lemma DeleteFulfilled(a: State, op: Op)
    requires Inv(a) && Saves(a, op) && op.DeleteRuleOp?
    ensures Fulfilled(a.eng.rules, a.eng.nextID, Step(a, op).eng.rules, op)
  {
    hide Inv, OthersSame, OthersWanted, DeleteRule, Step;
    IdsFit(a);
    DeleteStep(a, op);
    DeleteRuleEffect(a, op.id, op.env);
    OthersKept(a.eng, Step(a, op).eng, op.id);
  }

  lemma UpdateFulfilled(a: State, op: Op)
    requires Inv(a) && Saves(a, op) && op.UpdateRuleOp?
    ensures Fulfilled(a.eng.rules, a.eng.nextID, Step(a, op).eng.rules, op)
  {
    hide Inv, OthersSame, Registered, WantedAs, OthersWanted, ServedIff, FreeFor, Settled, UpdateRule, Step;
    IdsFit(a);
    UpdateStep(a, op);
    UpdateRuleEffect(a, op.id, op.name, op.listen, op.target, op.credential, op.answer, op.env);
    OthersKept(a.eng, Step(a, op).eng, op.id);
  }

  lemma SavedIsFulfilled(a: State, op: Op)
    requires Inv(a) && Saves(a, op)
    ensures Fulfilled(a.eng.rules, a.eng.nextID, Step(a, op).eng.rules, op)
  {
    hide Inv, Step, Fulfilled;
    if op.CreateRuleOp? {
      CreateFulfilled(a, op);
    } else if op.DeleteRuleOp? {
      DeleteFulfilled(a, op);
    } else {
      UpdateFulfilled(a, op);
    }
  }

  lemma SameIsTransitive(before: map<string, Rule>, nextID: nat, m: map<string, Rule>, t: map<string, Rule>, op: Op)
    requires Fulfilled(before, nextID, m, op) && t.Keys == m.Keys && forall k <- m.Keys :: SameRule(t[k], m[k])
    ensures Fulfilled(before, nextID, t, op)
  {
    hide Print;
  }

  /**
   * A request that succeeds and is written outlives a restart right after it: of a created or updated rule the new
   * daemon has the fields requested, a deleted rule it does not have, and every other rule is as it was before the
   * request.
   */
  lemma RequestSurvivesRestart(ops: seq<Op>, op: Op, answers: seq<Option<Addr>>, env: M.Env)
    requires Saves(Exec(START, ops), op) && |answers| == |Step(Exec(START, ops), op).file|
    ensures var a := Exec(START, ops);
            Fulfilled(a.eng.rules, a.eng.nextID, Reboot(Step(a, op), answers, env).eng.rules, op)
  {
    hide Exec, Step, Saves, Current, Fulfilled, Reboot, Inv;
    Reached(ops);
    var a := Exec(START, ops);
    var b := Step(a, op);
    StepKeepsInv(a, op);
    StepSaves(a, op);
    SavedIsFulfilled(a, op);
    SameAfterReboot(b, answers, env);
    SameIsTransitive(a.eng.rules, a.eng.nextID, b.eng.rules, Reboot(b, answers, env).eng.rules, op);
  }

  // ---- When the file falls behind ------------------------------------------

  /** The request is saved, or leaves type, name, addresses and credential of every rule as they are. */
  ghost predicate KeepsCurrent(a: State, op: Op) {
    !Enabled(a, op) || Saves(a, op) ||
    match op
    case CreateRuleOp(typ, _, _, _, credential, _, _, _) => typ == REMOTE && credential == ""
    case DeleteRuleOp(id, _, _) => id !in a.eng.rules
    case UpdateRuleOp(id, name, listen, target, credential, _, _, _) =>
      id in a.eng.rules ==>
        var r := a.eng.rules[id];
        HasFields(r, id, r.typ, name, listen, target, if IsRemote(r) then credential else r.credential)
    case DeleteCredentialOp(cred, _, _) => UsersIn(a.eng.rules, cred) == {}
    case _ => true
  }

  /** The same file mirrors two tables exactly if they agree. */
  lemma MirrorsBothIff(file: seq<Rule>, rules: map<string, Rule>, rules': map<string, Rule>)
    requires Mirrors(file, rules)
    requires (forall id <- rules.Keys :: rules[id].id == id) && (forall id <- rules'.Keys :: rules'[id].id == id)
    ensures Mirrors(file, rules') <==>
            rules'.Keys == rules.Keys && forall id <- rules.Keys :: SameRule(rules'[id], rules[id])
  {
    if Mirrors(file, rules') {
      forall id ensures id in rules <==> id in rules' {
        if id in rules {
          var r :| r in file && r.id == id;
        }
        if id in rules' {
          var r :| r in file && r.id == id;
        }
      }
      forall id | id in rules ensures SameRule(rules'[id], rules[id]) {
        var r :| r in file && r.id == id;
      }
    }
  }

  lemma CreateAgreesIff(a: State, op: Op)
    requires Inv(a) && Enabled(a, op) && op.CreateRuleOp?
    ensures var t := Step(a, op).eng.rules;
            (t.Keys == a.eng.rules.Keys && forall id <- t.Keys :: SameRule(t[id], a.eng.rules[id])) <==>
            op.typ == REMOTE && op.credential == ""
  {
    hide Inv, OthersSame, Registered, WantedAs, OthersWanted, ServedIff, FreeFor, Print, Settled, CreateRule, Step;
    IdsFit(a);
    CreateStep(a, op);
    CreateRuleEffect(a, op.typ, op.name, op.listen, op.target, op.credential, op.answer, op.env);
  }

  lemma DeleteAgreesIff(a: State, op: Op)
    requires Inv(a) && Enabled(a, op) && op.DeleteRuleOp?
    ensures var t := Step(a, op).eng.rules;
            (t.Keys == a.eng.rules.Keys && forall id <- t.Keys :: SameRule(t[id], a.eng.rules[id])) <==>
            op.id !in a.eng.rules
  {
    hide Inv, OthersSame, OthersWanted, DeleteRule, Step;
    IdsFit(a);
    DeleteStep(a, op);
    DeleteRuleEffect(a, op.id, op.env);
  }

  lemma UpdateAgreesIff(a: State, op: Op)
    requires Inv(a) && Enabled(a, op) && op.UpdateRuleOp?
    ensures var t := Step(a, op).eng.rules;
            (t.Keys == a.eng.rules.Keys && forall id <- t.Keys :: SameRule(t[id], a.eng.rules[id])) <==>
            (op.id in a.eng.rules ==>
               var r := a.eng.rules[op.id];
               HasFields(r, op.id, r.typ, op.name, op.listen, op.target,
                         if IsRemote(r) then op.credential else r.credential))
  {
    hide Inv, OthersSame, Registered, WantedAs, OthersWanted, ServedIff, FreeFor, Settled, UpdateRule, Step;
    IdsFit(a);
    UpdateStep(a, op);
    UpdateRuleEffect(a, op.id, op.name, op.listen, op.target, op.credential, op.answer, op.env);
    if op.id in a.eng.rules {
      OthersKept(a.eng, Step(a, op).eng, op.id);
    }
  }

  lemma RestartAgrees(e: E.State, order: seq<string>, answers: seq<Option<Addr>>)
    requires EngineFits(e) && E.StopReady(e) && Walks(order, e.rules.Keys) && |answers| == |order|
    ensures var t := E.Restart(e, order, answers).rules;
            t.Keys == e.rules.Keys && forall id <- t.Keys :: SameRule(t[id], e.rules[id])
  {
    hide E.Restart;
    RestartDecides(e, order, answers);
    var t := E.Restart(e, order, answers).rules;
    forall id | id in t ensures SameRule(t[id], e.rules[id]) {
      SameFields(t[id], e.rules[id]);
    }
  }

  /** Of the other operations only the deletion of a credential changes the table in more than statuses. */
  lemma OthersAgreeIff(a: State, op: Op)
    requires Inv(a) && Enabled(a, op) && !op.CreateRuleOp? && !op.DeleteRuleOp? && !op.UpdateRuleOp? && !op.RebootOp?
    ensures var t := Step(a, op).eng.rules;
            (t.Keys == a.eng.rules.Keys && forall id <- t.Keys :: SameRule(t[id], a.eng.rules[id])) <==>
            (op.DeleteCredentialOp? ==> UsersIn(a.eng.rules, op.cred) == {})
  {
    hide Inv, C.Step, E.Restart, M.WithClient, Purge;
    IdsFit(a);
    if op.DeleteCredentialOp? {
      DeleteIsExact(a, op.cred, op.order);
      assert UsersIn(a.eng.rules, op.cred) == {} ==> a.eng.rules - {} == a.eng.rules;
    } else if op.RestartRulesOp? {
      assert EngineFits(a.eng) by {
        EngineOf(a);
      }
      RestartAgrees(a.eng, op.order, op.answers);
    }
  }

  lemma EngineOf(a: State)
    requires Inv(a)
    ensures EngineFits(a.eng) && FileFits(a.file)
  {
  }

  /** After a restart the file is up to date, whatever it was before. */
  lemma RebootIsCurrent(a: State, answers: seq<Option<Addr>>, env: M.Env)
    requires Inv(a) && |answers| == |a.file|
    ensures Current(Reboot(a, answers, env))
  {
    EngineOf(a);
    RestoreFileFits(a.file, answers);
    DistinctInFile(a.file) by {
      hide P.InRange, Print, Value, Canonical;
    }
    var e := E.Restore(E.New(true), a.file, answers);
    hide E.Restore, P.Numbered, P.Inv, Inv, FileFits;
    assert Reboot(a, answers, env).eng.rules == e.rules && Reboot(a, answers, env).file == a.file;
    forall r | r in a.file ensures r.id in e.rules && SameRule(r, e.rules[r.id]) {
      SameFields(r, e.rules[r.id]);
      assert e.rules[r.id].id == DropStatus(e.rules[r.id]).id;
    }
  }

  lemma AgreesIff(a: State, op: Op)
    requires Inv(a) && Enabled(a, op) && !Saves(a, op) && !op.RebootOp?
    ensures var t := Step(a, op).eng.rules;
            (t.Keys == a.eng.rules.Keys && forall id <- t.Keys :: SameRule(t[id], a.eng.rules[id])) <==>
            KeepsCurrent(a, op)
  {
    hide Inv, Step, Saves, SameRule, Enabled;
    if op.CreateRuleOp? {
      CreateAgreesIff(a, op);
    } else if op.DeleteRuleOp? {
      DeleteAgreesIff(a, op);
    } else if op.UpdateRuleOp? {
      UpdateAgreesIff(a, op);
    } else {
      OthersAgreeIff(a, op);
    }
  }

  lemma StepKeepsCurrentIff(a: State, op: Op)
    requires Inv(a) && Current(a)
    ensures Current(Step(a, op)) <==> KeepsCurrent(a, op)
  {
    hide Inv, Step, Saves, Mirrors, Enabled, SameRule;
    StepSaves(a, op);
    StepKeepsInv(a, op);
    if !Enabled(a, op) {
      NotEnabled(a, op);
    } else if op.RebootOp? {
      RebootIsCurrent(a, op.answers, op.env) by {
        EnabledReboot(a, op);
      }
      EnabledReboot(a, op);
    } else if !Saves(a, op) {
      IdsFit(a);
      IdsFit(Step(a, op));
      AgreesIff(a, op);
      MirrorsBothIff(a.file, a.eng.rules, Step(a, op).eng.rules);
    }
  }

  lemma EnabledReboot(a: State, op: Op)
    requires Enabled(a, op) && op.RebootOp?
    ensures |op.answers| == |a.file| && Step(a, op) == Reboot(a, op.answers, op.env)
  {
  }

  ghost predicate AllKeepCurrent(a: State, ops: seq<Op>)
    decreases |ops|
  {
    ops == [] || (KeepsCurrent(a, ops[0]) && AllKeepCurrent(Step(a, ops[0]), ops[1..]))
  }

  lemma {:induction false} RunKeepsCurrent(a: State, ops: seq<Op>)
    requires Inv(a) && Current(a) && AllKeepCurrent(a, ops)
    ensures Current(Exec(a, ops))
    decreases |ops|
  {
    hide Inv, Current, KeepsCurrent, Step;
    if ops != [] {
      StepKeepsCurrentIff(a, ops[0]);
      StepKeepsInv(a, ops[0]);
      RunKeepsCurrent(Step(a, ops[0]), ops[1..]);
    }
  }

  /**
   * The file falls behind exactly by a request that changes a rule and is not saved: because its write fails or is
   * skipped, because the listen was refused and the rule stays all the same, or because it is the deletion of a
   * credential, which saves no rules. In every reachable state with an up-to-date file, the next step leaves it up to
   * date if and only if it is none of these; so over a whole run without them it is up to date at the end.
   */
  lemma FileCurrentIff(ops: seq<Op>, op: Op)
    requires Current(Exec(START, ops))
    ensures Current(Step(Exec(START, ops), op)) <==> KeepsCurrent(Exec(START, ops), op)
  {
    hide Exec, Current, KeepsCurrent, Step, Inv;
    Reached(ops);
    StepKeepsCurrentIff(Exec(START, ops), op);
  }

  lemma FileStaysCurrent(ops: seq<Op>)
    requires AllKeepCurrent(START, ops)
    ensures Current(Exec(START, ops))
  {
    hide Exec, AllKeepCurrent;
    StartFits();
    hide Inv;
    RunKeepsCurrent(START, ops);
  }

  /**
   * A refused listen is enough: the rule is in the table, in error, and the file does not have it. The next start is
   * without the rule.
   */
  lemma RefusedRuleIsNotSaved(ops: seq<Op>, name: string, listen: string, target: string, env: M.Env,
                              answers: seq<Option<Addr>>)
    requires Current(Exec(START, ops)) && Exec(START, ops).eng.nextID < MAX_INT
    requires |answers| == |Exec(START, ops).file|
    ensures var a := Exec(START, ops);
            var b := Step(a, CreateRuleOp("local", name, listen, target, "", None, env, Done));
            var id := Print(a.eng.nextID);
            && id in b.eng.rules && b.eng.rules[id].status == Error
            && b.file == a.file && id !in Reboot(b, answers, env).eng.rules
  {
    hide Exec, Current;
    Reached(ops);
    var a := Exec(START, ops);
    var op := CreateRuleOp("local", name, listen, target, "", None, env, Done);
    var b := Step(a, op);
    StepSaves(a, op);
    StepKeepsInv(a, op);
    CreateRuleEffect(a, "local", name, listen, target, "", None, env);
    SameAfterReboot(a, answers, env);
    hide Inv, Step, Reboot, Print, OthersSame;
    RestartReadsFile(a, b, answers, env);
  }

  lemma RestartReadsFile(a: State, b: State, answers: seq<Option<Addr>>, env: M.Env)
    requires b.file == a.file && |answers| == |a.file|
    ensures Reboot(b, answers, env).eng == Reboot(a, answers, env).eng
  {
  }
}

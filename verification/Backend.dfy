/** The engine's remote rules and the calls it makes: what any backend that follows the calls must end up with. */
module Backend {
  import opened Common
  import opened Decimal
  import opened Network
  import opened Rules
  import opened Engine
  import P = EngineProofs

  /** The engine's remote rules, statuses aside. */
  function Remotes(rules: map<string, Rule>): map<string, Rule> {
    map id | id in rules && IsRemote(rules[id]) :: DropStatus(rules[id])
  }

  function Apply(t: map<string, Rule>, call: Call): map<string, Rule> {
    match call
    case AddRemote(r) => t[r.id := DropStatus(r)]
    case RemoveRemote(id) => t - {id}
  }

  function Effects(t: map<string, Rule>, calls: seq<Call>): map<string, Rule> {
    if calls == [] then t else Apply(Effects(t, calls[..|calls| - 1]), calls[|calls| - 1])
  }

  /** No call registers a rule under an ID that is still registered. */
  predicate Safe(t: map<string, Rule>, calls: seq<Call>) {
    calls == [] ||
    (Safe(t, calls[..|calls| - 1]) &&
     (calls[|calls| - 1].AddRemote? ==> calls[|calls| - 1].rule.id !in Effects(t, calls[..|calls| - 1])))
  }

  /** A backend that held `t` and followed the engine's calls holds the engine's remote rules. */
  ghost predicate Tracks(t: map<string, Rule>, e: State) {
    Effects(t, e.calls) == Remotes(e.rules) && Safe(t, e.calls)
  }

  lemma AskTracks(t: map<string, Rule>, e: State, call: Call)
    requires Tracks(t, e) && (call.AddRemote? ==> call.rule.id !in Remotes(e.rules))
    ensures Effects(t, Ask(e, call).calls) == Apply(Remotes(e.rules), call) && Safe(t, Ask(e, call).calls)
  {
    assert Ask(e, call).calls[..|e.calls|] == e.calls;
  }

  /** Steps that touch no remote rule and make no call. */
  lemma LocalTracks(t: map<string, Rule>, e: State, e': State)
    requires Tracks(t, e) && e'.calls == e.calls && Remotes(e'.rules) == Remotes(e.rules)
    ensures Tracks(t, e')
  {
  }

  lemma StartRemotes(e: State, id: string, answer: Option<Addr>)
    requires id in e.rules
    ensures Remotes(Start(e, id, answer).rules) == Remotes(e.rules) && Start(e, id, answer).calls == e.calls
  {
  }

  lemma StopRemotes(e: State, id: string)
    requires id in e.rules && (id in e.lns ==> id in e.stop)
    ensures Remotes(Stop(e, id).rules) == Remotes(e.rules) && Stop(e, id).calls == e.calls
    ensures id in Stop(e, id).rules && IsRemote(Stop(e, id).rules[id]) == IsRemote(e.rules[id])
  {
  }

  /** Filing a local rule under an ID that no remote rule has. */
  lemma PutLocal(rules: map<string, Rule>, r: Rule)
    requires !IsRemote(r) && (r.id in rules ==> !IsRemote(rules[r.id]))
    ensures Remotes(rules[r.id := r]) == Remotes(rules)
  {
  }

  /** Filing a remote rule under a new ID. */
  lemma PutRemote(rules: map<string, Rule>, r: Rule)
    requires IsRemote(r) && r.id !in rules
    ensures Remotes(rules[r.id := r]) == Remotes(rules)[r.id := DropStatus(r)]
  {
  }

  lemma DelegateCalls(e: State, r: Rule, nextID: nat)
    requires e.remote && IsRemote(r)
    ensures var d := Delegate(e.(rules := e.rules[r.id := r], nextID := nextID), r.id);
            var p := r.(status := Pending);
            d.rules == e.rules[r.id := p] && d.calls == Ask(e, AddRemote(p)).calls
  {
  }

  lemma DelegateTracks(t: map<string, Rule>, e: State, r: Rule, nextID: nat)
    requires Tracks(t, e) && e.remote && IsRemote(r) && r.id !in e.rules
    ensures Tracks(t, Delegate(e.(rules := e.rules[r.id := r], nextID := nextID), r.id))
  {
    var p := r.(status := Pending);
    DelegateCalls(e, r, nextID);
    PutRemote(e.rules, p);
    assert p.id !in Remotes(e.rules);
    hide Delegate, Ask, Remotes, Effects;
    AskTracks(t, e, AddRemote(p));
  }

  /** A new rule, as `Add` and `Restore` file it. */
  lemma NewRuleTracks(t: map<string, Rule>, e: State, r: Rule, nextID: nat, answer: Option<Addr>)
    requires Tracks(t, e) && e.remote && r.id !in e.rules
    ensures var e' := e.(rules := e.rules[r.id := r], nextID := nextID);
            Tracks(t, if IsRemote(r) then Delegate(e', r.id) else Start(e', r.id, answer))
  {
    var e' := e.(rules := e.rules[r.id := r], nextID := nextID);
    if IsRemote(r) {
      DelegateTracks(t, e, r, nextID);
    } else {
      PutLocal(e.rules, r);
      StartRemotes(e', r.id, answer);
      LocalTracks(t, e, Start(e', r.id, answer));
    }
  }

  lemma AddTracks(t: map<string, Rule>, e: State, typ: string, name: string, listen: string, target: string,
                  credential: string, answer: Option<Addr>)
    requires Tracks(t, e) && e.remote && P.Inv(e) && e.nextID <= MAX_INT
    ensures Tracks(t, Add(e, typ, name, listen, target, credential, answer))
  {
    P.NextIsFresh(e);
    NewRuleTracks(t, e, NewRule(e, typ, name, listen, target, credential), e.nextID + 1, answer);
  }

  lemma DropRemote(rules: map<string, Rule>, id: string)
    ensures Remotes(rules - {id}) == Remotes(rules) - {id}
    ensures id in rules && !IsRemote(rules[id]) ==> Remotes(rules - {id}) == Remotes(rules)
  {
  }

  lemma RemoveTracks(t: map<string, Rule>, e: State, id: string)
    requires Tracks(t, e) && e.remote && StopReady(e)
    ensures Tracks(t, Remove(e, id))
  {
    hide Remotes, Effects, Safe, Stop;
    if id in e.rules && IsRemote(e.rules[id]) {
      AskTracks(t, e, RemoveRemote(id));
      DropRemote(e.rules, id);
    } else if id in e.rules {
      StopRemotes(e, id);
      DropRemote(Stop(e, id).rules, id);
    }
  }

  /** Removing before adding again is what makes the second call safe. */
  lemma UpdateRemoteTracks(t: map<string, Rule>, e: State, id: string, r: Rule)
    requires Tracks(t, e) && id in e.rules && IsRemote(e.rules[id]) && r.id == id && IsRemote(r)
    ensures Tracks(t, Ask(Ask(e.(rules := e.rules[id := r]), RemoveRemote(id)), AddRemote(r)))
  {
    AskTracks(t, e, RemoveRemote(id));
    var e1 := Ask(e, RemoveRemote(id)).(rules := e.rules - {id});
    assert Remotes(e1.rules) == Remotes(e.rules) - {id};
    AskTracks(t, e1, AddRemote(r));
    assert Remotes(e.rules[id := r]) == Remotes(e1.rules)[id := DropStatus(r)];
  }

  lemma UpdateLocalTracks(t: map<string, Rule>, e: State, id: string, name: string, listen: string, target: string,
                          answer: Option<Addr>)
    requires Tracks(t, e) && StopReady(e) && id in e.rules && e.rules[id].id == id && !IsRemote(e.rules[id])
    ensures var e' := Stop(e, id);
            var r := WithFields(e'.rules[id], name, listen, target).(status := Running);
            Tracks(t, Start(e'.(rules := e'.rules[id := r]), id, answer))
  {
    StopRemotes(e, id);
    var e' := Stop(e, id);
    var r := WithFields(e'.rules[id], name, listen, target).(status := Running);
    assert r.id == id;
    PutLocal(e'.rules, r);
    StartRemotes(e'.(rules := e'.rules[id := r]), id, answer);
  }

  lemma UpdateTracks(t: map<string, Rule>, e: State, id: string, name: string, listen: string, target: string,
                     credential: string, answer: Option<Addr>)
    requires Tracks(t, e) && e.remote && StopReady(e) && P.IdsMatch(e)
    ensures Tracks(t, Update(e, id, name, listen, target, credential, answer))
  {
    if id in e.rules && IsRemote(e.rules[id]) {
      UpdateRemoteTracks(t, e, id,
                         WithFields(e.rules[id], name, listen, target).(credential := credential, status := Pending));
    } else if id in e.rules {
      UpdateLocalTracks(t, e, id, name, listen, target, answer);
    }
  }

  lemma RestartOneTracks(t: map<string, Rule>, e: State, id: string, answer: Option<Addr>)
    requires Tracks(t, e) && StopReady(e) && id in e.rules && P.IdsMatch(e)
    ensures Tracks(t, RestartOne(e, id, answer)) && P.IdsMatch(RestartOne(e, id, answer))
  {
    if !IsRemote(e.rules[id]) {
      StopRemotes(e, id);
      P.RestartOneIsStart(e, id, answer);
      var e' := Stop(e, id);
      var r := e'.rules[id].(status := Running);
      assert r.id == id;
      PutLocal(e'.rules, r);
      StartRemotes(e'.(rules := e'.rules[id := r]), id, answer);
    }
  }

  lemma {:induction false} RestartTracks(t: map<string, Rule>, e: State, order: seq<string>, answers: seq<Option<Addr>>)
    requires Tracks(t, e) && StopReady(e) && (forall id <- order :: id in e.rules) && |answers| == |order|
    requires P.IdsMatch(e)
    ensures Tracks(t, Restart(e, order, answers))
    decreases |order|
  {
    if order != [] {
      RestartOneTracks(t, e, order[0], answers[0]);
      RestartOneKeys(e, order[0], answers[0]);
      RestartTracks(t, RestartOne(e, order[0], answers[0]), order[1..], answers[1..]);
    }
  }

  lemma RestoreOneTracks(t: map<string, Rule>, e: State, saved: Rule, answer: Option<Addr>)
    requires Tracks(t, e) && e.remote && saved.id !in e.rules
    ensures Tracks(t, RestoreOne(e, saved, answer)) && RestoreOne(e, saved, answer).remote
  {
    hide Tracks, Atoi;
    NewRuleTracks(t, e, DropStatus(saved), RestoreOne(e, saved, answer).nextID, answer);
  }

  lemma {:induction false} RestoreTracks(t: map<string, Rule>, e: State, saved: seq<Rule>, answers: seq<Option<Addr>>)
    requires Tracks(t, e) && e.remote && |answers| == |saved|
    requires (forall i, j | 0 <= i < j < |saved| :: saved[i].id != saved[j].id) && forall r <- saved :: r.id !in e.rules
    ensures Tracks(t, Restore(e, saved, answers)) && Restore(e, saved, answers).remote
    decreases |saved|
  {
    hide Tracks, RestoreOne;
    if saved != [] {
      var r, e' := saved[0], RestoreOne(e, saved[0], answers[0]);
      RestoreOneTracks(t, e, r, answers[0]);
      P.RestoreOneKeys(e, r, answers[0]);
      forall q | q in saved[1..] ensures q.id !in e'.rules {
        var i :| 0 < i < |saved| && saved[i] == q;
      }
      RestoreTracks(t, e', saved[1..], answers[1..]);
    }
  }
}

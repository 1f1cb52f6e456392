/**
 * What each call of the engine (internal/engine/engine.go) does, in terms of its arguments: the rule it is about and
 * that rule's listener end up as asked, and every other rule and listener stays as it was.
 */
module EngineEffects {
  import opened Common
  import opened Decimal
  import opened Network
  import opened Rules
  import opened Engine
  import opened EngineProofs
  import R = EngineRuns

  /** Rule `k` and its listener are in `t` what they were in `e`. */
  ghost predicate SameAt(e: State, t: State, k: string) {
    && (k in t.rules <==> k in e.rules) && (k in e.rules ==> t.rules[k] == e.rules[k])
    && (k in t.lns <==> k in e.lns) && (k in e.lns ==> t.lns[k] == e.lns[k])
    && (k in e.lns && e.lns[k] in e.net.bound ==>
          e.lns[k] in t.net.bound && t.net.bound[e.lns[k]] == e.net.bound[e.lns[k]])
  }

  ghost predicate OthersSame(e: State, t: State, id: string) {
    forall k | k != id :: SameAt(e, t, k)
  }

  predicate HasFields(
    r: Rule, id: string, typ: string, name: string, listen: string, target: string, credential: string)
  {
    r.id == id && r.typ == typ && r.name == name && r.listen == listen && r.target == target &&
    r.credential == credential
  }

  ghost predicate ListensAt(e: State, id: string, addr: Addr) {
    id in e.lns && e.lns[id] in e.net.bound && e.net.bound[e.lns[id]] == addr
  }

  /** The host would open an address for rule `id`, and no other rule listens there. */
  ghost predicate FreeFor(e: State, id: string, answer: Option<Addr>) {
    answer.Some? && forall k <- e.lns.Keys | k != id :: !ListensAt(e, k, answer.value)
  }

  /** The local rule `id` has been started: it listens at the granted address, or is in error. */
  ghost predicate Settled(t: State, id: string, granted: bool, answer: Option<Addr>, status: Status)
    requires granted ==> answer.Some?
  {
    && id in t.rules
    && if granted then t.rules[id].status == status && ListensAt(t, id, answer.value)
       else t.rules[id].status == Error && id !in t.lns
  }

  /** Only listeners of rules are bound, so an address is taken when a rule listens there. */
  lemma TakenByRule(e: State, addr: Addr)
    requires Conserved(e)
    ensures addr in e.net.bound.Values <==> exists k :: k in e.lns && ListensAt(e, k, addr)
  {
    if addr in e.net.bound.Values {
      var h :| h in e.net.bound && e.net.bound[h] == addr;
      assert h in e.lns.Values;
      var k :| k in e.lns && e.lns[k] == h;
      assert ListensAt(e, k, addr);
    }
  }

  /** A rule without a listener is put into the table and started. */
  lemma StartSettles(e: State, r: Rule, nextID: nat, answer: Option<Addr>)
    requires Conserved(e) && r.id !in e.lns
    ensures var t := Start(e.(rules := e.rules[r.id := r], nextID := nextID), r.id, answer);
            && OthersSame(e, t, r.id) && Settled(t, r.id, FreeFor(e, r.id, answer), answer, r.status)
            && DropStatus(t.rules[r.id]) == DropStatus(r)
  {
    var e' := e.(rules := e.rules[r.id := r], nextID := nextID);
    var t := Start(e', r.id, answer);
    assert e.net.ledger.next !in e.net.bound.Keys;
    if answer.Some? {
      TakenByRule(e, answer.value);
      assert FreeFor(e, r.id, answer) <==> Accepts(e.net, answer);
    }
    forall k | k != r.id ensures SameAt(e, t, k) {
      if k in e.lns {
        assert e.lns[k] in e.lns.Values;
      }
    }
  }

  lemma DelegateFields(e: State, r: Rule, nextID: nat)
    ensures var t := Delegate(e.(rules := e.rules[r.id := r], nextID := nextID), r.id);
            && OthersSame(e, t, r.id) && r.id in t.rules && DropStatus(t.rules[r.id]) == DropStatus(r)
            && t.rules[r.id].status == (if e.remote then Pending else Error)
            && t.lns == e.lns && t.net == e.net
  {
  }

  /**
   * `Add` creates one rule, under an ID that was free, with the fields of the request. A local one listens at the
   * granted address if there is one that no other rule listens at, and is in error otherwise; a remote one has no
   * listener. Everything else is as it was.
   */
  lemma AddCreates(e: State, typ: string, name: string, listen: string, target: string, credential: string,
                   answer: Option<Addr>)
    requires Inv(e) && e.nextID <= MAX_INT
    ensures var t := Add(e, typ, name, listen, target, credential, answer);
            var id := Print(e.nextID);
            && id !in e.rules && OthersSame(e, t, id)
            && id in t.rules && HasFields(t.rules[id], id, typ, name, listen, target, credential)
            && (if typ == REMOTE then t.rules[id].status == (if e.remote then Pending else Error) && id !in t.lns
                else Settled(t, id, FreeFor(e, id, answer), answer, Running))
            && (AddSucceeds(e, typ, answer) <==> t.rules[id].status != Error)
  {
    hide Print, Inv, Conserved, Start, Delegate, OthersSame, FreeFor, ListensAt;
    var r := NewRule(e, typ, name, listen, target, credential);
    NewIsFree(e);
    if IsRemote(r) {
      DelegateFields(e, r, e.nextID + 1);
    } else {
      StartSettles(e, r, e.nextID + 1, answer);
      AcceptedIffFree(e, r.id, answer);
    }
    SameFields(Add(e, typ, name, listen, target, credential, answer).rules[r.id], r);
  }

  lemma NewIsFree(e: State)
    requires Inv(e) && e.nextID <= MAX_INT
    ensures Conserved(e) && Print(e.nextID) !in e.rules && Print(e.nextID) !in e.lns
  {
    NextIsFresh(e);
  }

  lemma SameFields(q: Rule, r: Rule)
    requires DropStatus(q) == DropStatus(r)
    ensures HasFields(q, r.id, r.typ, r.name, r.listen, r.target, r.credential)
  {
  }

  lemma AcceptedIffFree(e: State, id: string, answer: Option<Addr>)
    requires Conserved(e) && id !in e.lns
    ensures Accepts(e.net, answer) <==> FreeFor(e, id, answer)
  {
    if answer.Some? {
      TakenByRule(e, answer.value);
    }
  }

  /** Stopping a rule takes its own listener away and no other. */
  lemma StopFrees(e: State, id: string, answer: Option<Addr>)
    requires Inv(e) && id in e.rules
    ensures var t := Stop(e, id);
            && OthersSame(e, t, id) && id in t.rules && id !in t.lns && t.nextID == e.nextID
            && DropStatus(t.rules[id]) == DropStatus(e.rules[id])
            && (id in e.lns ==> e.lns[id] !in t.net.bound)
            && (FreeFor(t, id, answer) <==> FreeFor(e, id, answer))
  {
    StopConserves(e, id);
    var t := Stop(e, id);
    forall k | k != id ensures SameAt(e, t, k) {
      if k in e.lns && id in e.lns {
        assert e.lns[k] in e.lns.Values && e.lns[k] != e.lns[id];
      }
    }
    assert forall k <- e.lns.Keys | k != id :: SameAt(e, t, k) && e.lns[k] in e.lns.Values;
    assert forall k <- t.lns.Keys :: k != id && SameAt(e, t, k) && e.lns[k] in e.lns.Values;
  }

  lemma SameTwice(e: State, m: State, t: State, id: string)
    requires OthersSame(e, m, id) && OthersSame(m, t, id)
    ensures OthersSame(e, t, id)
  {
    forall k | k != id ensures SameAt(e, t, k) {
      assert SameAt(e, m, k) && SameAt(m, t, k);
    }
  }

  /** A local rule is stopped and started with new fields, at its old address if that is what is granted. */
  lemma ReplaceSettles(e: State, r: Rule, answer: Option<Addr>)
    requires Inv(e) && r.id in e.rules
    ensures var e' := Stop(e, r.id);
            var t := Start(e'.(rules := e'.rules[r.id := r]), r.id, answer);
            && OthersSame(e, t, r.id) && Settled(t, r.id, FreeFor(e, r.id, answer), answer, r.status)
            && DropStatus(t.rules[r.id]) == DropStatus(r)
            && (Accepts(e'.net, answer) <==> FreeFor(e, r.id, answer))
  {
    var e' := Stop(e, r.id);
    StopFrees(e, r.id, answer);
    StopConserves(e, r.id);
    StartSettles(e', r, e'.nextID, answer);
    AcceptedIffFree(e', r.id, answer);
    assert e'.(rules := e'.rules[r.id := r], nextID := e'.nextID) == e'.(rules := e'.rules[r.id := r]);
    hide Start, Stop, OthersSame, FreeFor, Settled;
    SameTwice(e, e', Start(e'.(rules := e'.rules[r.id := r]), r.id, answer), r.id);
  }

  lemma UpdateLocal(e: State, id: string, name: string, listen: string, target: string, answer: Option<Addr>)
    requires Inv(e) && id in e.rules && !IsRemote(e.rules[id])
    ensures StopReady(e)
    ensures var t := Update(e, id, name, listen, target, "", answer);
            && OthersSame(e, t, id) && Settled(t, id, FreeFor(e, id, answer), answer, Running)
            && HasFields(t.rules[id], id, e.rules[id].typ, name, listen, target, e.rules[id].credential)
            && (UpdateSucceeds(e, id, answer) <==> FreeFor(e, id, answer))
  {
    hide FreeFor, ListensAt, Conserved, IdsBelow;
    Ready(e);
    var q := WithFields(Stop(e, id).rules[id], name, listen, target).(status := Running);
    StopFrees(e, id, answer);
    assert q.id == id by {
      assert DropStatus(Stop(e, id).rules[id]).id == e.rules[id].id;
    }
    ReplaceSettles(e, q, answer);
    hide Start, Stop, OthersSame;
    SameFields(Update(e, id, name, listen, target, "", answer).rules[id], q);
    assert DropStatus(Stop(e, id).rules[id]) == DropStatus(e.rules[id]);
  }

  lemma LocalIgnoresCredential(e: State, id: string, name: string, listen: string, target: string, credential: string,
                               answer: Option<Addr>)
    requires StopReady(e) && id in e.rules && !IsRemote(e.rules[id])
    ensures Update(e, id, name, listen, target, credential, answer) == Update(e, id, name, listen, target, "", answer)
  {
  }

  /**
   * `Update` gives the rule the name, the listen address and the target of the request, and a remote rule its
   * credential; ID and type stay, and so does every other rule. A local rule listens at the granted address if no
   * other rule listens there, and is in error otherwise.
   */
  lemma UpdateChanges(e: State, id: string, name: string, listen: string, target: string, credential: string,
                      answer: Option<Addr>)
    requires Inv(e) && id in e.rules
    ensures StopReady(e)
    ensures var t := Update(e, id, name, listen, target, credential, answer);
            var r := e.rules[id];
            && OthersSame(e, t, id)
            && id in t.rules
            && HasFields(t.rules[id], id, r.typ, name, listen, target, if IsRemote(r) then credential else r.credential)
            && (if IsRemote(r) then t.rules[id].status == Pending && id !in t.lns
                else Settled(t, id, FreeFor(e, id, answer), answer, Running))
            && (UpdateSucceeds(e, id, answer) <==> t.rules[id].status != Error)
  {
    hide Start, Stop, Conserved, IdsBelow;
    if IsRemote(e.rules[id]) {
      assert StopReady(e) by {
        Ready(e);
      }
    } else {
      UpdateLocal(e, id, name, listen, target, answer);
      LocalIgnoresCredential(e, id, name, listen, target, credential, answer);
      hide Update, UpdateSucceeds, OthersSame;
    }
  }

  lemma Ready(e: State)
    requires Inv(e)
    ensures StopReady(e)
  {
  }

  /** `Remove` takes the rule and its listener away, and nothing else. */
  lemma RemoveRemoves(e: State, id: string)
    requires Inv(e)
    ensures StopReady(e)
    ensures var t := Remove(e, id);
            && OthersSame(e, t, id) && id !in t.rules && id !in t.lns
            && (id in e.lns ==> e.lns[id] !in t.net.bound)
  {
    hide Stop, Conserved, IdsBelow;
    Ready(e);
    var t := Remove(e, id);
    if id in e.rules && !IsRemote(e.rules[id]) {
      StopFrees(e, id, None);
      DroppedRule(e, Stop(e, id), id);
    } else {
      assert id !in e.lns;
      DroppedRule(e, if id in e.rules && e.remote then Ask(e, RemoveRemote(id)) else e, id);
      assert id !in e.rules ==> e.rules - {id} == e.rules;
    }
  }

  lemma DroppedRule(e: State, m: State, id: string)
    requires OthersSame(e, m, id) || (m.rules == e.rules && m.lns == e.lns && m.net == e.net)
    ensures OthersSame(e, m.(rules := m.rules - {id}), id)
  {
    forall k | k != id ensures SameAt(e, m.(rules := m.rules - {id}), k) {
      assert OthersSame(e, m, id) ==> SameAt(e, m, k);
    }
  }

  // ---- Restart -------------------------------------------------------------

  /** A local rule's turn: it is stopped and started again; a remote rule is left alone. */
  lemma RestartOneSettles(e: State, id: string, answer: Option<Addr>)
    requires Inv(e) && id in e.rules
    ensures StopReady(e)
    ensures var t := RestartOne(e, id, answer);
            && OthersSame(e, t, id) && id in t.rules && DropStatus(t.rules[id]) == DropStatus(e.rules[id])
            && if IsRemote(e.rules[id]) then t == e
               else Settled(t, id, FreeFor(e, id, answer), answer, Running)
  {
    if !IsRemote(e.rules[id]) {
      StopFrees(e, id, answer);
      RestartOneIsStart(e, id, answer);
      var r := Stop(e, id).rules[id].(status := Running);
      assert r.id == id by {
        assert DropStatus(Stop(e, id).rules[id]).id == e.rules[id].id;
      }
      ReplaceSettles(e, r, answer);
    }
  }

  /** The addresses granted to the local rules are distinct, and none is one at which another rule listens now. */
  ghost predicate Apart(e: State, order: seq<string>, answers: seq<Option<Addr>>)
    requires |answers| == |order| && forall id <- order :: id in e.rules
  {
    forall i | 0 <= i < |order| && !IsRemote(e.rules[order[i]]) && answers[i].Some? ::
      && FreeFor(e, order[i], answers[i])
      && forall j | 0 <= j < |order| && j != i && !IsRemote(e.rules[order[j]]) :: answers[j] != answers[i]
  }

  /** Rule `id` is as `Restart` leaves it when it is granted `answer`. */
  ghost predicate Restarted(e: State, t: State, id: string, answer: Option<Addr>)
    requires id in e.rules
  {
    && id in t.rules && DropStatus(t.rules[id]) == DropStatus(e.rules[id])
    && if IsRemote(e.rules[id]) then SameAt(e, t, id) else Settled(t, id, answer.Some?, answer, Running)
  }

  lemma RestartNext(e: State, order: seq<string>, answers: seq<Option<Addr>>)
    requires Inv(e) && StopReady(e) && |answers| == |order| && order != [] && forall id <- order :: id in e.rules
    requires (forall i, j | 0 <= i < j < |order| :: order[i] != order[j]) && Apart(e, order, answers)
    ensures var t := RestartOne(e, order[0], answers[0]);
            && Restarted(e, t, order[0], answers[0]) && OthersSame(e, t, order[0]) && Inv(t) && StopReady(t)
            && (forall id <- order :: id in t.rules && IsRemote(t.rules[id]) == IsRemote(e.rules[id]))
            && Apart(t, order[1..], answers[1..])
  {
    hide Inv, RestartOne;
    var t := RestartOne(e, order[0], answers[0]);
    RestartOneKeepsInv(e, order[0], answers[0]);
    RestartOneKeys(e, order[0], answers[0]);
    RestartOneSettles(e, order[0], answers[0]);
    forall id | id in order ensures id in t.rules && IsRemote(t.rules[id]) == IsRemote(e.rules[id]) {
      assert id == order[0] || SameAt(e, t, id);
    }
    forall i | 0 < i < |order| && !IsRemote(e.rules[order[i]]) && answers[i].Some?
      ensures FreeFor(t, order[i], answers[i])
    {
      forall k | k in t.lns && k != order[i] ensures !ListensAt(t, k, answers[i].value) {
        assert k == order[0] || SameAt(e, t, k);
        if k in e.lns {
          HeldIsBound(e, k);
        }
      }
    }
  }

  lemma HeldIsBound(e: State, k: string)
    requires Inv(e) && k in e.lns
    ensures e.lns[k] in e.net.bound
  {
    assert e.lns[k] in e.lns.Values;
  }

  /**
   * `Restart` with distinct free addresses, in any order of the walk: every local rule it visits listens at the
   * address granted to it, or is in error if none is; no rule changes in more than its status; and what it does not
   * visit stays as it was.
   */
  lemma {:induction false} RestartSettles(e: State, order: seq<string>, answers: seq<Option<Addr>>)
    requires Inv(e) && StopReady(e) && |answers| == |order| && forall id <- order :: id in e.rules
    requires (forall i, j | 0 <= i < j < |order| :: order[i] != order[j]) && Apart(e, order, answers)
    ensures var t := Restart(e, order, answers);
            && (forall i | 0 <= i < |order| :: Restarted(e, t, order[i], answers[i]))
            && (forall k | k !in order :: SameAt(e, t, k))
    decreases |order|
  {
    hide Inv, RestartOne, Apart, StopReady;
    if order != [] {
      var m := RestartOne(e, order[0], answers[0]);
      RestartNext(e, order, answers);
      RestartSettles(m, order[1..], answers[1..]);
      var t := Restart(e, order, answers);
      assert t == Restart(m, order[1..], answers[1..]);
      forall i | 0 <= i < |order| ensures Restarted(e, t, order[i], answers[i]) {
        if i == 0 {
          assert order[0] !in order[1..];
          assert SameAt(m, t, order[0]);
        } else {
          assert Restarted(m, t, order[1..][i - 1], answers[1..][i - 1]) && SameAt(e, m, order[i]);
        }
      }
      forall k | k !in order ensures SameAt(e, t, k) {
        assert SameAt(e, m, k) && SameAt(m, t, k);
      }
    }
  }

  /** The rule listens and is running, or is in error and does not. */
  predicate Decided(t: State, id: string) {
    id in t.rules &&
    ((t.rules[id].status == Running && id in t.lns) || (t.rules[id].status == Error && id !in t.lns))
  }

  /**
   * With any answers, in any order of the walk: `Restart` leaves every local rule it visits running with a listener or
   * in error without one, changes no more of a rule than its status, and asks nothing of the backend.
   */
  lemma {:induction false} RestartDecides(e: State, order: seq<string>, answers: seq<Option<Addr>>)
    requires Inv(e) && StopReady(e) && |answers| == |order| && forall id <- order :: id in e.rules
    ensures var t := Restart(e, order, answers);
            && t.rules.Keys == e.rules.Keys && t.calls == e.calls
            && (forall id <- e.rules.Keys :: DropStatus(t.rules[id]) == DropStatus(e.rules[id]))
            && (forall id <- order | !IsRemote(e.rules[id]) :: Decided(t, id))
    decreases |order|
  {
    hide Inv, RestartOne, StopReady, FreeFor, ListensAt, Settled, Decided;
    if order != [] {
      var m := RestartOne(e, order[0], answers[0]);
      RestartOneKeepsInv(e, order[0], answers[0]);
      RestartOneKeys(e, order[0], answers[0]);
      RestartOneSettles(e, order[0], answers[0]);
      RestartOneCalls(e, order[0], answers[0]);
      RestartDecides(m, order[1..], answers[1..]);
      forall id | id in e.rules ensures DropStatus(m.rules[id]) == DropStatus(e.rules[id]) {
        assert id != order[0] ==> SameAt(e, m, id);
      }
      var t := Restart(e, order, answers);
      assert t == Restart(m, order[1..], answers[1..]);
      forall id | id in order && !IsRemote(e.rules[id]) ensures Decided(t, id) {
        if id !in order[1..] {
          RestartLeavesOthers(m, order[1..], answers[1..], id);
          SameDecided(m, t, id);
          assert id == order[0];
          RestartOneDecides(e, id, answers[0]);
        } else {
          assert IsRemote(m.rules[id]) == IsRemote(e.rules[id]) by {
            assert DropStatus(m.rules[id]) == DropStatus(e.rules[id]);
          }
        }
      }
    }
  }

  lemma SameDecided(e: State, t: State, id: string)
    requires SameAt(e, t, id)
    ensures Decided(e, id) ==> Decided(t, id)
  {
  }

  lemma RestartOneDecides(e: State, id: string, answer: Option<Addr>)
    requires Inv(e) && id in e.rules && !IsRemote(e.rules[id])
    ensures StopReady(e) && Decided(RestartOne(e, id, answer), id)
  {
    hide Inv, RestartOne, StopReady;
    RestartOneSettles(e, id, answer);
  }

  lemma RestartOneCalls(e: State, id: string, answer: Option<Addr>)
    requires id in e.rules && StopReady(e)
    ensures RestartOne(e, id, answer).calls == e.calls
  {
  }

  lemma {:induction false} RestartLeavesOthers(e: State, order: seq<string>, answers: seq<Option<Addr>>, k: string)
    requires Inv(e) && StopReady(e) && |answers| == |order| && (forall id <- order :: id in e.rules) && k !in order
    ensures SameAt(e, Restart(e, order, answers), k)
    decreases |order|
  {
    hide Inv, RestartOne, StopReady, FreeFor, ListensAt;
    if order != [] {
      var m := RestartOne(e, order[0], answers[0]);
      RestartOneKeepsInv(e, order[0], answers[0]);
      RestartOneKeys(e, order[0], answers[0]);
      RestartOneSettles(e, order[0], answers[0]);
      RestartLeavesOthers(m, order[1..], answers[1..], k);
      assert SameAt(e, m, k);
    }
  }

  // ---- Restore -------------------------------------------------------------

  /** Local rule `i` is granted an address that no local rule before it was granted. */
  predicate FirstGranted(saved: seq<Rule>, answers: seq<Option<Addr>>, i: nat)
    requires i < |saved| == |answers|
  {
    && !IsRemote(saved[i]) && answers[i].Some?
    && forall j | 0 <= j < i && !IsRemote(saved[j]) :: answers[j] != answers[i]
  }

  /** Rule `i` as `Restore` leaves it. */
  ghost predicate RestoredAt(t: State, saved: seq<Rule>, answers: seq<Option<Addr>>, i: nat)
    requires i < |saved| == |answers|
  {
    var r := saved[i];
    && r.id in t.rules && DropStatus(t.rules[r.id]) == DropStatus(r)
    && if IsRemote(r) then t.rules[r.id].status == (if t.remote then Pending else Error) && r.id !in t.lns
       else Settled(t, r.id, FirstGranted(saved, answers, i), answers[i], Unset)
  }

  /** The first `n` rules have been restored into a new engine. */
  ghost predicate RestoredUpTo(t: State, saved: seq<Rule>, answers: seq<Option<Addr>>, n: nat)
    requires n <= |saved| == |answers|
  {
    && Conserved(t)
    && (forall i | 0 <= i < n :: RestoredAt(t, saved, answers, i))
    && (forall k <- t.lns.Keys :: exists i | 0 <= i < n :: saved[i].id == k)
  }

  /** Of the local rules granted an address, the first one has it. */
  lemma {:induction false} SomeoneHasIt(t: State, saved: seq<Rule>, answers: seq<Option<Addr>>, n: nat, j: nat)
    requires n <= |saved| == |answers| && RestoredUpTo(t, saved, answers, n)
    requires j < n && !IsRemote(saved[j]) && answers[j].Some?
    ensures exists i | 0 <= i <= j :: ListensAt(t, saved[i].id, answers[j].value)
    decreases j
  {
    assert RestoredAt(t, saved, answers, j);
    if !FirstGranted(saved, answers, j) {
      var i :| 0 <= i < j && !IsRemote(saved[i]) && answers[i] == answers[j];
      SomeoneHasIt(t, saved, answers, n, i);
    }
  }

  lemma FirstIffFree(t: State, saved: seq<Rule>, answers: seq<Option<Addr>>, n: nat)
    requires n < |saved| == |answers| && RestoredUpTo(t, saved, answers, n) && !IsRemote(saved[n])
    requires forall i, j | 0 <= i < j < |saved| :: saved[i].id != saved[j].id
    ensures FirstGranted(saved, answers, n) <==> FreeFor(t, saved[n].id, answers[n])
  {
    if answers[n].Some? && !FirstGranted(saved, answers, n) {
      var j :| 0 <= j < n && !IsRemote(saved[j]) && answers[j] == answers[n];
      SomeoneHasIt(t, saved, answers, n, j);
    }
    if answers[n].Some? && !FreeFor(t, saved[n].id, answers[n]) {
      var k :| k in t.lns && ListensAt(t, k, answers[n].value);
      var i :| 0 <= i < n && saved[i].id == k;
      assert RestoredAt(t, saved, answers, i);
    }
  }

  lemma RestoreOneSettles(e: State, saved: Rule, answer: Option<Addr>)
    requires Conserved(e) && saved.id !in e.lns
    ensures var t := RestoreOne(e, saved, answer);
            && OthersSame(e, t, saved.id) && saved.id in t.rules && t.remote == e.remote
            && DropStatus(t.rules[saved.id]) == DropStatus(saved)
            && if IsRemote(saved) then
                 t.rules[saved.id].status == (if e.remote then Pending else Error) && saved.id !in t.lns
               else Settled(t, saved.id, FreeFor(e, saved.id, answer), answer, Unset)
  {
    hide Conserved, OthersSame, FreeFor, ListensAt, Atoi;
    var n := Atoi(saved.id);
    var nextID := if n.Some? && n.value >= e.nextID then n.value + 1 else e.nextID;
    StartSettles(e, DropStatus(saved), nextID, answer);
    DelegateFields(e, DropStatus(saved), nextID);
  }

  lemma RestoreOneConserves(e: State, saved: Rule, answer: Option<Addr>)
    requires Conserved(e) && saved.id !in e.lns
    ensures Conserved(RestoreOne(e, saved, answer)) && RestoreOne(e, saved, answer).lns.Keys <= e.lns.Keys + {saved.id}
  {
    RestoreOneKeys(e, saved, answer);
    hide Conserved, Atoi, Delegate, Start;
    var n, r := Atoi(saved.id), DropStatus(saved);
    var e' := e.(rules := e.rules[r.id := r],
                 nextID := if n.Some? && n.value >= e.nextID then n.value + 1 else e.nextID);
    SameListeners(e, e');
    StartConserves(e', r.id, answer);
    DelegateKeepsListeners(e', r.id);
    SameListeners(e, Delegate(e', r.id));
  }

  lemma DelegateKeepsListeners(e: State, id: string)
    requires id in e.rules
    ensures var t := Delegate(e, id); t.lns == e.lns && t.net == e.net && t.stop == e.stop && t.chans == e.chans
  {
  }

  lemma RestoreOneMore(t: State, saved: seq<Rule>, answers: seq<Option<Addr>>, n: nat)
    requires n < |saved| == |answers| && RestoredUpTo(t, saved, answers, n)
    requires forall i, j | 0 <= i < j < |saved| :: saved[i].id != saved[j].id
    ensures RestoredUpTo(RestoreOne(t, saved[n], answers[n]), saved, answers, n + 1)
  {
    hide RestoreOne, FirstGranted, FreeFor, Conserved;
    var u := RestoreOne(t, saved[n], answers[n]);
    assert saved[n].id !in t.lns;
    RestoreOneSettles(t, saved[n], answers[n]);
    RestoreOneConserves(t, saved[n], answers[n]);
    if !IsRemote(saved[n]) {
      FirstIffFree(t, saved, answers, n);
    }
    forall i | 0 <= i < n + 1 ensures RestoredAt(u, saved, answers, i) {
      if i < n {
        assert RestoredAt(t, saved, answers, i) && SameAt(t, u, saved[i].id);
      }
    }
    forall k | k in u.lns ensures exists i | 0 <= i < n + 1 :: saved[i].id == k {
      if k != saved[n].id {
        assert k in t.lns;
      }
    }
  }

  lemma {:induction false} RestoreFrom(t: State, saved: seq<Rule>, answers: seq<Option<Addr>>, n: nat)
    requires n <= |saved| == |answers| && RestoredUpTo(t, saved, answers, n)
    requires forall i, j | 0 <= i < j < |saved| :: saved[i].id != saved[j].id
    ensures RestoredUpTo(Restore(t, saved[n..], answers[n..]), saved, answers, |saved|)
    decreases |saved| - n
  {
    hide RestoredUpTo, RestoreOne;
    if n == |saved| {
      RestoreNothing(t);
      assert saved[n..] == [] && answers[n..] == [];
    } else {
      RestoreNext(t, saved, answers, n);
      RestoreOneMore(t, saved, answers, n);
      RestoreFrom(RestoreOne(t, saved[n], answers[n]), saved, answers, n + 1);
    }
  }

  /**
   * Restoring rules of distinct IDs into a new engine: each is in the table with its saved fields, and a local one
   * listens, at the address granted to it, exactly when it is granted one that no local rule before it was. Its status
   * stays unset then; otherwise it is in error.
   */
  lemma RestoreSettles(remote: bool, saved: seq<Rule>, answers: seq<Option<Addr>>)
    requires |answers| == |saved| && forall i, j | 0 <= i < j < |saved| :: saved[i].id != saved[j].id
    ensures var t := Restore(New(remote), saved, answers);
            forall i | 0 <= i < |saved| :: RestoredAt(t, saved, answers, i)
  {
    R.NewFits(remote);
    assert saved[0..] == saved && answers[0..] == answers;
    RestoreFrom(New(remote), saved, answers, 0);
  }
}

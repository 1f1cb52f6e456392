/** What every run of the engine keeps: listener conservation, exact listing and the restart round trip. */
module EngineProofs {
  import opened Common
  import opened Decimal
  import opened Network
  import opened Rules
  import opened Engine

  // ---- Listeners and stop channels ----------------------------------------

  /**
   * Every listener ever opened is held in `lns` under exactly one rule ID or was closed exactly once, and so
   * for stop channels; the two tables have the same IDs.
   */
  ghost predicate Conserved(e: State) {
    && Holds(e.net, e.net.bound.Keys)
    && Owns(e.lns, e.net.bound.Keys)
    && Balanced(e.chans, e.stop.Values)
    && Owns(e.stop, e.stop.Values)
    && e.lns.Keys == e.stop.Keys
  }

  lemma BindConserves(e: State, id: string, addr: Addr)
    requires Conserved(e) && id !in e.lns && Accepts(e.net, Some(addr))
    ensures Conserved(Bind(e, id, addr))
  {
    OpenHolds(e.net, e.net.bound.Keys, Some(addr));
    OwnsInsert(e.lns, e.net.bound.Keys, id, e.net.ledger.next);
    CreateBalanced(e.chans, e.stop.Values);
    OwnsInsert(e.stop, e.stop.Values, id, e.chans.next);
  }

  lemma SameListeners(e: State, t: State)
    requires Conserved(e) && t.net == e.net && t.lns == e.lns && t.stop == e.stop && t.chans == e.chans
    ensures Conserved(t)
  {
  }

  lemma BindOverLiveLeaks(e: State, id: string, addr: Addr)
    requires Conserved(e) && id in e.lns && Accepts(e.net, Some(addr))
    ensures var t := Bind(e, id, addr); e.lns[id] in t.net.bound && e.lns[id] !in t.lns.Values
  {
    assert e.lns[id] in e.lns.Values;
    var t := Bind(e, id, addr);
    forall j | j in t.lns ensures t.lns[j] != e.lns[id] {
      if j != id {
        assert t.lns[j] == e.lns[j];
      }
    }
  }

  /** Starting a rule conserves listeners exactly when that rule has none yet: nothing closes the one it replaces. */
  lemma BindConservesIff(e: State, id: string, addr: Addr)
    requires Conserved(e) && Accepts(e.net, Some(addr))
    ensures Conserved(Bind(e, id, addr)) <==> id !in e.lns
  {
    if id in e.lns {
      BindOverLiveLeaks(e, id, addr);
    } else {
      BindConserves(e, id, addr);
    }
  }

  lemma StopConserves(e: State, id: string)
    requires Conserved(e) && id in e.rules
    ensures Conserved(Stop(e, id)) && Stop(e, id).lns == e.lns - {id}
  {
    if id in e.lns {
      assert e.lns[id] in e.lns.Values && e.stop[id] in e.stop.Values;
      CloseHolds(e.net, e.net.bound.Keys, e.lns[id]);
      OwnsRemove(e.lns, e.net.bound.Keys, id);
      ReleaseBalanced(e.chans, e.stop.Values, e.stop[id]);
      OwnsRemove(e.stop, e.stop.Values, id);
    } else {
      assert e.lns - {id} == e.lns;
    }
  }

  // ---- Rules and their listeners ------------------------------------------

  /** Status and listener of one rule agree. */
  predicate StatusFits(r: Rule, listening: bool) {
    if IsRemote(r) then !listening
    else (r.status == Running ==> listening) && (r.status == Error ==> !listening)
  }

  ghost predicate RulesFit(e: State) {
    && (forall id <- e.rules.Keys :: e.rules[id].id == id && StatusFits(e.rules[id], id in e.lns))
    && (forall id <- e.lns.Keys :: id in e.rules)
  }

  /** IDs that read as numbers lie below the counter, so a new ID is never one in use. */
  ghost predicate IdsBelow(e: State) {
    && e.nextID >= 1
    && forall id <- e.rules.Keys :: Atoi(id).Some? ==> Atoi(id).value < e.nextID
  }

  ghost predicate Inv(e: State) {
    Conserved(e) && RulesFit(e) && IdsBelow(e)
  }

  lemma NextIsFresh(e: State)
    requires Inv(e) && e.nextID <= MAX_INT
    ensures Print(e.nextID) !in e.rules && Print(e.nextID) !in e.lns && Atoi(Print(e.nextID)) == Some(e.nextID)
  {
    AtoiOfPrint(e.nextID);
  }

  lemma StartConserves(e: State, id: string, answer: Option<Addr>)
    requires Conserved(e) && id in e.rules && id !in e.lns
    ensures Conserved(Start(e, id, answer))
  {
    if Accepts(e.net, answer) {
      BindConserves(e, id, answer.value);
    } else {
      SameListeners(e, Start(e, id, answer));
    }
  }

  /** Starting a rule, or putting it to the backend, changes no more of the rules than its status. */
  lemma StartOnlyStatus(e: State, id: string, answer: Option<Addr>)
    requires id in e.rules
    ensures var t := Start(e, id, answer);
            && t.nextID == e.nextID && id in t.rules
            && t.rules == e.rules[id := t.rules[id]] && DropStatus(t.rules[id]) == DropStatus(e.rules[id])
  {
  }

  lemma DelegateOnlyStatus(e: State, id: string)
    requires id in e.rules
    ensures var t := Delegate(e, id);
            && t.nextID == e.nextID && id in t.rules
            && t.rules == e.rules[id := t.rules[id]] && DropStatus(t.rules[id]) == DropStatus(e.rules[id])
  {
  }

  lemma StartStatus(e: State, id: string, answer: Option<Addr>)
    requires id in e.rules && id !in e.lns && !IsRemote(e.rules[id])
    requires e.rules[id].status == Running || e.rules[id].status == Unset
    ensures var t := Start(e, id, answer);
            && id in t.rules && StatusFits(t.rules[id], id in t.lns)
            && forall k | k != id :: k in t.lns <==> k in e.lns
  {
  }

  lemma StartFits(e: State, r: Rule, nextID: nat, answer: Option<Addr>)
    requires RulesFit(e) && IdsBelow(e) && r.id !in e.lns && !IsRemote(r) && (r.status == Running || r.status == Unset)
    requires nextID >= e.nextID && (Atoi(r.id).Some? ==> Atoi(r.id).value < nextID)
    ensures var t := Start(e.(rules := e.rules[r.id := r], nextID := nextID), r.id, answer);
            RulesFit(t) && IdsBelow(t)
  {
    hide Print, Value, Atoi, Start, IsRemote;
    var e' := e.(rules := e.rules[r.id := r], nextID := nextID);
    StartOnlyStatus(e', r.id, answer);
    StartStatus(e', r.id, answer);
    hide StatusFits;
  }

  /** A rule that has no listener is put into the table and started. */
  lemma StartKeepsInv(e: State, r: Rule, nextID: nat, answer: Option<Addr>)
    requires Inv(e) && r.id !in e.lns && !IsRemote(r) && (r.status == Running || r.status == Unset)
    requires nextID >= e.nextID && (Atoi(r.id).Some? ==> Atoi(r.id).value < nextID)
    ensures Inv(Start(e.(rules := e.rules[r.id := r], nextID := nextID), r.id, answer))
  {
    hide Print, Value, Atoi, Conserved, RulesFit, IdsBelow;
    var e' := e.(rules := e.rules[r.id := r], nextID := nextID);
    SameListeners(e, e');
    StartConserves(e', r.id, answer);
    StartFits(e, r, nextID, answer);
  }

  lemma DelegateFits(e: State, r: Rule, nextID: nat)
    requires RulesFit(e) && IdsBelow(e) && r.id !in e.lns && IsRemote(r)
    requires nextID >= e.nextID && (Atoi(r.id).Some? ==> Atoi(r.id).value < nextID)
    ensures var t := Delegate(e.(rules := e.rules[r.id := r], nextID := nextID), r.id);
            RulesFit(t) && IdsBelow(t)
  {
    hide Print, Value, Atoi;
  }

  lemma DelegateKeepsInv(e: State, r: Rule, nextID: nat)
    requires Inv(e) && r.id !in e.lns && IsRemote(r)
    requires nextID >= e.nextID && (Atoi(r.id).Some? ==> Atoi(r.id).value < nextID)
    ensures Inv(Delegate(e.(rules := e.rules[r.id := r], nextID := nextID), r.id))
  {
    hide Print, Value, Conserved, RulesFit, IdsBelow, Atoi;
    SameListeners(e, Delegate(e.(rules := e.rules[r.id := r], nextID := nextID), r.id));
    DelegateFits(e, r, nextID);
  }

  lemma AddKeepsInv(e: State, typ: string, name: string, listen: string, target: string, credential: string,
                    answer: Option<Addr>)
    requires Inv(e) && e.nextID <= MAX_INT
    ensures Inv(Add(e, typ, name, listen, target, credential, answer))
  {
    hide Print, Value, Atoi, Inv, Start, Delegate;
    var r := NewRule(e, typ, name, listen, target, credential);
    NextIsFresh(e);
    if IsRemote(r) {
      DelegateKeepsInv(e, r, e.nextID + 1);
    } else {
      StartKeepsInv(e, r, e.nextID + 1, answer);
    }
  }

  lemma StopKeepsInv(e: State, id: string)
    requires Inv(e) && id in e.rules
    ensures Inv(Stop(e, id)) && id !in Stop(e, id).lns
    ensures Stop(e, id).rules.Keys == e.rules.Keys && IsRemote(Stop(e, id).rules[id]) == IsRemote(e.rules[id])
  {
    StopConserves(e, id);
  }

  lemma RemoveKeepsInv(e: State, id: string)
    requires Inv(e)
    ensures Inv(Remove(e, id))
  {
    if id in e.rules && !IsRemote(e.rules[id]) {
      StopKeepsInv(e, id);
    }
  }

  lemma UpdateKeepsInv(e: State, id: string, name: string, listen: string, target: string, credential: string,
                       answer: Option<Addr>)
    requires Inv(e)
    ensures Inv(Update(e, id, name, listen, target, credential, answer))
  {
    if id in e.rules && !IsRemote(e.rules[id]) {
      var e' := Stop(e, id);
      StopKeepsInv(e, id);
      var r := WithFields(e'.rules[id], name, listen, target).(status := Running);
      assert e'.(rules := e'.rules[id := r]) == e'.(rules := e'.rules[r.id := r], nextID := e'.nextID);
      StartKeepsInv(e', r, e'.nextID, answer);
    }
  }

  /** Restarting a rule is stopping it and starting it as a running one. */
  lemma RestartOneIsStart(e: State, id: string, answer: Option<Addr>)
    requires id in e.rules && StopReady(e) && !IsRemote(e.rules[id])
    ensures var e' := Stop(e, id);
            var r := e'.rules[id].(status := Running);
            RestartOne(e, id, answer) == Start(e'.(rules := e'.rules[id := r]), id, answer)
  {
    var e' := Stop(e, id);
    var r := e'.rules[id].(status := Running);
    assert e'.rules[id := r][id := r.(status := Error)] == e'.rules[id := e'.rules[id].(status := Error)];
  }

  lemma RestartOneKeepsInv(e: State, id: string, answer: Option<Addr>)
    requires Inv(e) && id in e.rules
    ensures Inv(RestartOne(e, id, answer)) && RestartOne(e, id, answer).nextID == e.nextID
  {
    if !IsRemote(e.rules[id]) {
      RestartOneIsStart(e, id, answer);
      StopKeepsInv(e, id);
      var e' := Stop(e, id);
      var r := e'.rules[id].(status := Running);
      assert e'.(rules := e'.rules[id := r]) == e'.(rules := e'.rules[r.id := r], nextID := e'.nextID);
      StartKeepsInv(e', r, e'.nextID, answer);
    }
  }

  lemma {:induction false} RestartKeepsInv(e: State, order: seq<string>, answers: seq<Option<Addr>>)
    requires Inv(e) && (forall id <- order :: id in e.rules) && |answers| == |order|
    ensures Inv(Restart(e, order, answers))
    ensures Restart(e, order, answers).rules.Keys == e.rules.Keys && Restart(e, order, answers).nextID == e.nextID
    decreases |order|
  {
    if order != [] {
      assert StopReady(e);
      hide Inv, RestartOne;
      RestartOneKeepsInv(e, order[0], answers[0]);
      RestartOneKeys(e, order[0], answers[0]);
      RestartKeepsInv(RestartOne(e, order[0], answers[0]), order[1..], answers[1..]);
    }
  }

  lemma RestoreOneKeys(e: State, saved: Rule, answer: Option<Addr>)
    ensures RestoreOne(e, saved, answer).rules.Keys == e.rules.Keys + {saved.id}
    ensures RestoreOne(e, saved, answer).lns.Keys <= e.lns.Keys + {saved.id}
  {
  }

  lemma RestoreOneKeepsInv(e: State, saved: Rule, answer: Option<Addr>)
    requires Inv(e) && saved.id !in e.lns
    ensures Inv(RestoreOne(e, saved, answer))
  {
    hide Print, Value, Atoi, Conserved;
    var n := Atoi(saved.id);
    var nextID := if n.Some? && n.value >= e.nextID then n.value + 1 else e.nextID;
    if IsRemote(saved) {
      DelegateKeepsInv(e, DropStatus(saved), nextID);
    } else {
      StartKeepsInv(e, DropStatus(saved), nextID, answer);
    }
  }

  /** Restoring a local rule binds it over whatever listener its ID has. */
  lemma RestoreOverLive(e: State, r: Rule, addr: Addr)
    requires Conserved(e) && r.id in e.lns && !IsRemote(r) && Accepts(e.net, Some(addr))
    ensures !Conserved(RestoreOne(e, r, Some(addr)))
  {
    var n := Atoi(r.id);
    hide Atoi, Conserved;
    var e' := e.(rules := e.rules[r.id := DropStatus(r)],
                 nextID := if n.Some? && n.value >= e.nextID then n.value + 1 else e.nextID);
    SameListeners(e, e');
    BindConservesIff(e', r.id, addr);
  }

  /** Two calls suffice: adding a rule, and restoring the list that has it into the same engine. */
  lemma RestoreOverLiveLeaks(name: string, listen: string, target: string, a: Addr, b: Addr)
    requires a != b
    ensures var e := Add(New(false), "local", name, listen, target, "", Some(a));
            && Conserved(e) && List(e) != []
            && !Conserved(RestoreOne(e, List(e)[0], Some(b)))
  {
    var e := Add(New(false), "local", name, listen, target, "", Some(a));
    assert Inv(New(false));
    AddKeepsInv(New(false), "local", name, listen, target, "", Some(a));
    assert ListUpTo(e, 0) == [] && Print(1) == "1" && Print(2) == "2";
    assert ListUpTo(e, 1) == [e.rules["1"]] && ListUpTo(e, 2) == [e.rules["1"]];
    assert e.net.bound.Values == {a};
    hide RestoreOne, Conserved;
    RestoreOverLive(e, e.rules["1"], b);
  }

  /** The saved rules have distinct IDs, none of which has a listener already. */
  ghost predicate Restorable(e: State, saved: seq<Rule>) {
    && (forall i, j | 0 <= i < j < |saved| :: saved[i].id != saved[j].id)
    && (forall r <- saved :: r.id !in e.lns)
  }

  lemma {:induction false} RestoreKeepsInv(e: State, saved: seq<Rule>, answers: seq<Option<Addr>>)
    requires Inv(e) && Restorable(e, saved) && |answers| == |saved|
    ensures Inv(Restore(e, saved, answers))
    decreases |saved|
  {
    hide Print, Value, Atoi, Conserved, RulesFit, IdsBelow, RestoreOne;
    if saved != [] {
      RestoreOneKeepsInv(e, saved[0], answers[0]);
      RestoreOneKeys(e, saved[0], answers[0]);
      var e' := RestoreOne(e, saved[0], answers[0]);
      assert Restorable(e', saved[1..]) by {
        forall r | r in saved[1..] ensures r.id !in e'.lns {
          var i :| 0 < i < |saved| && saved[i] == r;
        }
      }
      RestoreKeepsInv(e', saved[1..], answers[1..]);
    }
  }

  // ---- Listing -------------------------------------------------------------

  ghost predicate IdsMatch(e: State) {
    forall id <- e.rules.Keys :: e.rules[id].id == id
  }

  /** The IDs of `rules` are canonical decimals, in strictly increasing numeric order. */
  ghost predicate Ascending(rules: seq<Rule>) {
    && (forall r <- rules :: Canonical(r.id))
    && (forall i, j | 0 <= i < j < |rules| :: Value(rules[i].id) < Value(rules[j].id))
  }

  lemma AscendingAppend(l: seq<Rule>, r: Rule)
    requires Ascending(l) && Canonical(r.id) && forall q <- l :: Canonical(q.id) && Value(q.id) < Value(r.id)
    ensures Ascending(l + [r])
  {
    hide Print, Value;
    var m := l + [r];
    forall i, j | 0 <= i < j < |m| ensures Value(m[i].id) < Value(m[j].id) {
      assert m[i] == l[i] && l[i] in l;
    }
  }

  lemma {:induction false} ListUpToSound(e: State, n: nat)
    requires IdsMatch(e)
    ensures Ascending(ListUpTo(e, n))
    ensures forall r <- ListUpTo(e, n) :: 1 <= Value(r.id) <= n && r.id in e.rules && e.rules[r.id] == r
    decreases n
  {
    if n > 0 {
      ListUpToSound(e, n - 1);
      PrintCanonical(n);
      hide Print, Value;
      if Print(n) in e.rules {
        AscendingAppend(ListUpTo(e, n - 1), e.rules[Print(n)]);
      }
    }
  }

  lemma {:induction false} ListUpToComplete(e: State, n: nat, id: string)
    requires id in e.rules && Canonical(id) && 1 <= Value(id) <= n
    ensures e.rules[id] in ListUpTo(e, n)
    decreases n
  {
    if Value(id) < n {
      ListUpToComplete(e, n - 1, id);
    } else {
      assert Print(n) == id;
      var l := ListUpTo(e, n);
      assert l[|l| - 1] == e.rules[id];
    }
  }

  /** The IDs that `List` can find. */
  predicate Listable(id: string, nextID: nat) {
    Canonical(id) && 1 <= Value(id) <= nextID
  }

  /**
   * `List` returns rules of the table only, in strictly increasing numeric order, hence each at most once; it
   * returns every rule exactly when every ID is the plain decimal of a number from 1 to the counter.
   */
  lemma ListExactIff(e: State)
    requires IdsMatch(e)
    ensures Ascending(List(e)) && (forall r <- List(e) :: r.id in e.rules && e.rules[r.id] == r)
    ensures (forall id <- e.rules.Keys :: e.rules[id] in List(e)) <==>
            (forall id <- e.rules.Keys :: Listable(id, e.nextID))
  {
    hide Print, Value;
    ListUpToSound(e, e.nextID);
    forall id | id in e.rules && Listable(id, e.nextID) ensures e.rules[id] in List(e) {
      ListUpToComplete(e, e.nextID, id);
    }
    forall id | id in e.rules && e.rules[id] in List(e) ensures Listable(id, e.nextID) {
      assert e.rules[id].id == id;
    }
  }

  /** Rule by rule. */
  lemma ListFinds(e: State)
    requires IdsMatch(e)
    ensures forall id <- e.rules.Keys :: e.rules[id] in List(e) <==> Listable(id, e.nextID)
    ensures forall r <- List(e) :: r.id in e.rules && e.rules[r.id] == r
  {
    hide Print, Value, Canonical;
    ListUpToSound(e, e.nextID);
    forall id | id in e.rules ensures e.rules[id] in List(e) <==> Listable(id, e.nextID) {
      assert e.rules[id].id == id;
      if Listable(id, e.nextID) {
        ListUpToComplete(e, e.nextID, id);
      }
      assert Ascending(List(e));
    }
  }

  lemma LeadingZero()
    ensures !Canonical("07")
  {
    assert Value("0") == 0;
    assert Value("07") == 7 by {
      assert "07"[..1] == "0";
    }
    assert |Print(7)| == 1;
  }

  /** A leading zero is enough to hide a restored rule from `List`. */
  lemma ListCanMiss(e: State, saved: Rule, answer: Option<Addr>)
    requires IdsMatch(e) && saved.id == "07"
    ensures var t := RestoreOne(e, saved, answer); "07" in t.rules && t.rules["07"] !in List(t)
  {
    var t := RestoreOne(e, saved, answer);
    RestoreOneFields(e, saved, answer);
    LeadingZero();
    hide RestoreOne, Print, Value, List, ListUpTo;
    assert IdsMatch(t) by {
      assert DropStatus(t.rules["07"]).id == t.rules["07"].id;
    }
    ListExactIff(t);
  }

  // ---- The restart round trip ---------------------------------------------

  /** Every ID is the plain decimal of a number below the counter, and the counter is still a Go int. */
  ghost predicate Numbered(e: State) {
    && 1 <= e.nextID <= MAX_INT
    && IdsMatch(e)
    && forall id <- e.rules.Keys :: Canonical(id) && 1 <= Value(id) < e.nextID
  }

  lemma AtoiOfCanonical(id: string)
    requires Canonical(id) && Value(id) <= MAX_INT
    ensures Atoi(id) == Some(Value(id))
  {
    AtoiOfPrint(Value(id));
  }

  /** What `Restore` leaves for one saved rule: the same fields, the status aside. */
  ghost predicate Carries(e: State, saved: seq<Rule>) {
    && (forall id <- e.rules.Keys :: exists r <- saved :: r.id == id)
    && (forall r <- saved :: r.id in e.rules && DropStatus(e.rules[r.id]) == DropStatus(r))
  }

  lemma RestoreOneFields(e: State, saved: Rule, answer: Option<Addr>)
    ensures var t := RestoreOne(e, saved, answer);
            && t.rules.Keys == e.rules.Keys + {saved.id}
            && DropStatus(t.rules[saved.id]) == DropStatus(saved)
            && (forall id <- e.rules.Keys | id != saved.id :: t.rules[id] == e.rules[id])
            && t.nextID == (var n := Atoi(saved.id); if n.Some? && n.value >= e.nextID then n.value + 1 else e.nextID)
  {
    hide Print, Value, Atoi, Start, Delegate;
    var n, r := Atoi(saved.id), DropStatus(saved);
    var e' := e.(rules := e.rules[r.id := r],
                 nextID := if n.Some? && n.value >= e.nextID then n.value + 1 else e.nextID);
    StartOnlyStatus(e', r.id, answer);
    DelegateOnlyStatus(e', r.id);
  }

  lemma RestoreOneNumbered(e: State, saved: Rule, answer: Option<Addr>)
    requires Numbered(e) && Canonical(saved.id) && 1 <= Value(saved.id) < MAX_INT
    ensures var t := RestoreOne(e, saved, answer);
            Numbered(t) && Value(saved.id) < t.nextID && t.nextID >= e.nextID
  {
    hide Print, Value;
    AtoiOfCanonical(saved.id);
    RestoreOneFields(e, saved, answer);
    var t := RestoreOne(e, saved, answer);
    assert t.rules[saved.id].id == DropStatus(t.rules[saved.id]).id;
  }

  lemma RestoreOneCarries(e: State, before: seq<Rule>, saved: Rule, answer: Option<Addr>)
    requires Carries(e, before) && forall q <- before :: q.id != saved.id
    ensures Carries(RestoreOne(e, saved, answer), before + [saved])
  {
    hide Print, Value;
    var t := RestoreOne(e, saved, answer);
    RestoreOneFields(e, saved, answer);
    hide RestoreOne;
    forall id | id in t.rules ensures exists q <- before + [saved] :: q.id == id {
      if id == saved.id {
        assert saved in before + [saved];
      } else {
        var q :| q in before && q.id == id;
        assert q in before + [saved];
      }
    }
  }

  /** The numbers of these IDs are ones `Restore` can take over. */
  ghost predicate InRange(saved: seq<Rule>) {
    forall r <- saved :: Canonical(r.id) && 1 <= Value(r.id) < MAX_INT
  }

  lemma AscendingAt(saved: seq<Rule>, i: nat)
    requires Ascending(saved) && InRange(saved) && i < |saved|
    ensures Canonical(saved[i].id) && 1 <= Value(saved[i].id) < MAX_INT
    ensures forall q <- saved[..i] :: q.id != saved[i].id
  {
    hide Print, Value;
    assert saved[i] in saved;
    forall q | q in saved[..i] ensures q.id != saved[i].id {
      var j :| 0 <= j < i && saved[j] == q;
      assert Value(saved[j].id) < Value(saved[i].id);
    }
  }

  lemma RestoreNothing(e: State)
    ensures Restore(e, [], []) == e
  {
  }

  lemma RestoreNext(e: State, saved: seq<Rule>, answers: seq<Option<Addr>>, i: nat)
    requires i < |saved| == |answers|
    ensures Restore(e, saved[i..], answers[i..]) ==
            Restore(RestoreOne(e, saved[i], answers[i]), saved[i + 1..], answers[i + 1..])
  {
    hide RestoreOne;
    assert saved[i..][1..] == saved[i + 1..] && answers[i..][1..] == answers[i + 1..];
  }

  /** From the state after the first `i` rules on. */
  lemma {:induction false} RestoreCarries(e: State, saved: seq<Rule>, answers: seq<Option<Addr>>, i: nat)
    requires i <= |saved| == |answers| && Ascending(saved) && InRange(saved)
    requires Numbered(e) && Carries(e, saved[..i])
    ensures var t := Restore(e, saved[i..], answers[i..]);
            Numbered(t) && Carries(t, saved)
    decreases |saved| - i
  {
    hide Print, Value, Canonical, Carries, Numbered, Ascending, InRange, RestoreOne, Restore;
    if i == |saved| {
      RestoreNothing(e);
      assert saved[..i] == saved && saved[i..] == [] && answers[i..] == [];
    } else {
      AscendingAt(saved, i);
      RestoreNext(e, saved, answers, i);
      RestoreOneNumbered(e, saved[i], answers[i]);
      RestoreOneCarries(e, saved[..i], saved[i], answers[i]);
      assert saved[..i + 1] == saved[..i] + [saved[i]];
      RestoreCarries(RestoreOne(e, saved[i], answers[i]), saved, answers, i + 1);
    }
  }

  /** Restoring a list of plain decimal IDs into a numbered engine, whatever it holds, leaves it numbered. */
  lemma {:induction false} RestoreNumbered(e: State, saved: seq<Rule>, answers: seq<Option<Addr>>)
    requires Numbered(e) && InRange(saved) && |answers| == |saved|
    ensures Numbered(Restore(e, saved, answers))
    decreases |saved|
  {
    hide Print, Value, Canonical, Numbered, RestoreOne;
    if saved != [] {
      assert saved[0] in saved;
      RestoreOneNumbered(e, saved[0], answers[0]);
      RestoreNumbered(RestoreOne(e, saved[0], answers[0]), saved[1..], answers[1..]);
    }
  }

  /** Tables that agree up to the status list alike. */
  lemma {:induction false} SameListing(e: State, t: State, n: nat)
    requires e.rules.Keys == t.rules.Keys
    requires forall id <- e.rules.Keys :: DropStatus(e.rules[id]) == DropStatus(t.rules[id])
    ensures Persist(ListUpTo(e, n)) == Persist(ListUpTo(t, n))
    decreases n
  {
    if n > 0 {
      SameListing(e, t, n - 1);
      PersistAppend(ListUpTo(e, n - 1), if Print(n) in e.rules then [e.rules[Print(n)]] else []);
      PersistAppend(ListUpTo(t, n - 1), if Print(n) in t.rules then [t.rules[Print(n)]] else []);
    }
  }

  lemma PersistAppend(p: seq<Rule>, q: seq<Rule>)
    ensures Persist(p + q) == Persist(p) + Persist(q)
  {
  }

  /** Numbers above every ID add nothing to the list. */
  lemma {:induction false} ListStable(e: State, m: nat, n: nat)
    requires m <= n && forall id <- e.rules.Keys :: Canonical(id) && Value(id) <= m
    ensures ListUpTo(e, n) == ListUpTo(e, m)
    decreases n
  {
    if m < n {
      ListStable(e, m, n - 1);
      PrintCanonical(n);
      hide Print, Value;
    }
  }

  /** What a new process makes of the rule file the old one wrote. */
  function Reboot(e: State, answers: seq<Option<Addr>>): State
    requires |answers| == |List(e)|
  {
    Restore(New(e.remote), Persist(List(e)), answers)
  }

  lemma PersistKeepsOrder(l: seq<Rule>)
    requires Ascending(l)
    ensures Ascending(Persist(l))
  {
    hide Print, Value, Canonical;
    assert forall i | 0 <= i < |l| :: Persist(l)[i].id == l[i].id;
    forall r | r in Persist(l) ensures Canonical(r.id) {
      var i :| 0 <= i < |l| && Persist(l)[i] == r;
      assert l[i] in l;
    }
  }

  lemma PersistEach(e: State, l: seq<Rule>)
    requires forall r <- l :: r.id in e.rules && e.rules[r.id] == r
    ensures forall r <- Persist(l) :: r.id in e.rules && r == DropStatus(e.rules[r.id])
    ensures forall r <- l :: DropStatus(r) in Persist(l)
  {
    forall r | r in Persist(l) ensures r.id in e.rules && r == DropStatus(e.rules[r.id]) {
      var i :| 0 <= i < |l| && Persist(l)[i] == r;
      assert l[i] in l;
    }
    forall r | r in l ensures DropStatus(r) in Persist(l) {
      var i :| 0 <= i < |l| && l[i] == r;
      assert Persist(l)[i] == DropStatus(r);
    }
  }

  /** The saved list: IDs ascending and in range, one entry for each rule. */
  lemma SavedList(e: State)
    requires Numbered(e)
    ensures var saved := Persist(List(e));
            && Ascending(saved) && InRange(saved) && (forall r <- saved :: r.id in e.rules)
            && (forall id <- e.rules.Keys :: DropStatus(e.rules[id]) in saved)
            && (forall r <- saved :: r == DropStatus(e.rules[r.id]))
  {
    ListExactIff(e);
    var l := List(e);
    assert forall id <- e.rules.Keys :: Listable(id, e.nextID);
    hide Print, Value, List, ListUpTo;
    PersistKeepsOrder(l);
    PersistEach(e, l);
  }

  /** Two tables that carry the same saved list agree up to the status. */
  lemma SameCarried(e: State, t: State, saved: seq<Rule>)
    requires Carries(t, saved)
    requires forall r <- saved :: r.id in e.rules && r == DropStatus(e.rules[r.id])
    requires forall id <- e.rules.Keys :: DropStatus(e.rules[id]) in saved
    requires IdsMatch(e)
    ensures t.rules.Keys == e.rules.Keys
    ensures forall id <- e.rules.Keys :: DropStatus(e.rules[id]) == DropStatus(t.rules[id])
  {
    hide Print, Value;
    forall id | id in e.rules
      ensures id in t.rules && DropStatus(e.rules[id]) == DropStatus(t.rules[id])
    {
      var r := DropStatus(e.rules[id]);
      assert r in saved && r.id == id && DropStatus(r) == r;
    }
  }

  lemma RebootKeepsRules(e: State, answers: seq<Option<Addr>>)
    requires Numbered(e) && |answers| == |List(e)|
    ensures var t := Reboot(e, answers);
            && Numbered(t) && t.rules.Keys == e.rules.Keys
            && forall id <- e.rules.Keys :: DropStatus(e.rules[id]) == DropStatus(t.rules[id])
  {
    hide Print, Value;
    var saved := Persist(List(e));
    SavedList(e);
    assert saved[0..] == saved && answers[0..] == answers;
    RestoreCarries(New(e.remote), saved, answers, 0);
    SameCarried(e, Reboot(e, answers), saved);
  }

  /**
   * The restart round trip: saving the list and restoring it into a new engine, whatever listens are refused
   * there, lists the same rules in the same order with all fields but the status equal, and the counter lies
   * above every restored ID.
   */
  lemma RestartRoundTrip(e: State, answers: seq<Option<Addr>>)
    requires Numbered(e) && |answers| == |List(e)|
    ensures var t := Reboot(e, answers);
            Persist(List(t)) == Persist(List(e)) && t.rules.Keys == e.rules.Keys && Numbered(t)
  {
    hide Print, Value;
    var t := Reboot(e, answers);
    RebootKeepsRules(e, answers);
    SameListing(e, t, e.nextID);
    var m := if e.nextID < t.nextID then e.nextID else t.nextID;
    ListStable(t, m, e.nextID);
    ListStable(t, m, t.nextID);
  }
}

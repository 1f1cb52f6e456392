/**
 * The life of an SSH client as its reconnect loop sees it (internal/ssh/client.go): dials that fail or succeed, rules
 * added and removed by others at any time in between, and the cancellation that ends the loop.
 */
module SshClientScript {
  import opened Common
  import opened Network
  import opened Rules
  import opened SshClient

  /** A call of another goroutine. */
  datatype Edit = AddEdit(r: ClientRule, answer: Option<Addr>) | RemoveEdit(id: string)

  /** One round of the loop: the dial fails, or the connection opens what is granted and later dies. */
  datatype Round = Fails(edits: seq<Edit>) | Serves(before: seq<Edit>, grants: map<string, Addr>, during: seq<Edit>)

  /** Where cancellation meets the loop: in a dial, or on a connection. */
  datatype End = Dialling(edits: seq<Edit>) | Connected(last: Round)

  function Apply(c: State, e: Edit): State {
    match e
    case AddEdit(r, answer) => Add(c, r, answer)
    case RemoveEdit(id) => Remove(c, id)
  }

  function Edited(c: State, edits: seq<Edit>): State {
    if edits == [] then c else Apply(Edited(c, edits[..|edits| - 1]), edits[|edits| - 1])
  }

  /** The connection of a round, from its dial to just before its death. */
  function Connection(c: State, round: Round, order: seq<string>): State
    requires round.Serves? && Walks(order, Edited(c, round.before).pending.Keys)
  {
    Edited(Connect(Edited(c, round.before), order, round.grants), round.during)
  }

  /** `order` is the order in which the wanted rules came up, if the round has a connection. */
  predicate Possible(c: State, round: Round, order: seq<string>) {
    round.Serves? ==> Walks(order, Edited(c, round.before).pending.Keys)
  }

  function After(c: State, round: Round, order: seq<string>): State
    requires Possible(c, round, order)
  {
    match round
    case Fails(edits) => Edited(c, edits)
    case Serves(_, _, _) => Drop(Connection(c, round, order))
  }

  predicate AllPossible(c: State, rounds: seq<Round>, orders: seq<seq<string>>)
    requires |orders| == |rounds|
    decreases |rounds|
  {
    rounds == [] ||
    (Possible(c, rounds[0], orders[0]) && AllPossible(After(c, rounds[0], orders[0]), rounds[1..], orders[1..]))
  }

  function AfterAll(c: State, rounds: seq<Round>, orders: seq<seq<string>>): State
    requires |orders| == |rounds| && AllPossible(c, rounds, orders)
    decreases |rounds|
  {
    if rounds == [] then c else AfterAll(After(c, rounds[0], orders[0]), rounds[1..], orders[1..])
  }

  predicate EndPossible(c: State, end: End, order: seq<string>) {
    end.Connected? ==> end.last.Serves? && Possible(c, end.last, order)
  }

  /** Cancelled on a connection, the client forgets the connection but keeps its table of listeners. */
  function AfterEnd(c: State, end: End, order: seq<string>): State
    requires EndPossible(c, end, order)
  {
    match end
    case Dialling(edits) => Edited(c, edits)
    case Connected(last) => Connection(c, last, order).(up := false)
  }

  function Dials(rounds: seq<Round>): seq<bool> {
    seq(|rounds|, i requires 0 <= i < |rounds| => rounds[i].Serves?)
  }

  // ---- What is wanted ------------------------------------------------------

  function WantedAfter(wanted: map<string, ClientRule>, edits: seq<Edit>): map<string, ClientRule> {
    if edits == [] then wanted
    else
      var w := WantedAfter(wanted, edits[..|edits| - 1]);
      match edits[|edits| - 1]
      case AddEdit(r, _) => w[r.id := r]
      case RemoveEdit(id) => w - {id}
  }

  function EditsOf(round: Round): seq<Edit> {
    match round
    case Fails(edits) => edits
    case Serves(before, _, during) => before + during
  }

  function AllEdits(rounds: seq<Round>): seq<Edit> {
    if rounds == [] then [] else EditsOf(rounds[0]) + AllEdits(rounds[1..])
  }

  lemma {:induction false} EditedWants(c: State, edits: seq<Edit>)
    ensures Edited(c, edits).pending == WantedAfter(c.pending, edits)
    decreases |edits|
  {
    if edits != [] {
      EditedWants(c, edits[..|edits| - 1]);
    }
  }

  lemma {:induction false} WantedConcat(wanted: map<string, ClientRule>, p: seq<Edit>, q: seq<Edit>)
    ensures WantedAfter(wanted, p + q) == WantedAfter(WantedAfter(wanted, p), q)
    decreases |q|
  {
    if q == [] {
      assert p + q == p;
    } else {
      assert (p + q)[..|p + q| - 1] == p + q[..|q| - 1];
      WantedConcat(wanted, p, q[..|q| - 1]);
    }
  }

  lemma {:induction false} ConnectWants(c: State, order: seq<string>, grants: map<string, Addr>)
    requires forall id <- order :: id in c.pending
    ensures SubscribeAll(c, order, grants).pending == c.pending
    decreases |order|
  {
    if order != [] {
      ConnectWants(Subscribe(c, c.pending[order[0]], Granted(grants, order[0])), order[1..], grants);
    }
  }

  lemma AfterWants(c: State, round: Round, order: seq<string>)
    requires Possible(c, round, order)
    ensures After(c, round, order).pending == WantedAfter(c.pending, EditsOf(round))
  {
    match round
    case Fails(edits) => EditedWants(c, edits);
    case Serves(before, grants, during) =>
      EditedWants(c, before);
      ConnectWants(Drain(Edited(c, before).(up := true)), order, grants);
      EditedWants(Connect(Edited(c, before), order, grants), during);
      WantedConcat(c.pending, before, during);
  }

  /** Dials, drops and failures leave the wanted rules alone: they are what the additions and removals make them. */
  lemma {:induction false} OnlyEditsChangeWanted(c: State, rounds: seq<Round>, orders: seq<seq<string>>)
    requires |orders| == |rounds| && AllPossible(c, rounds, orders)
    ensures AfterAll(c, rounds, orders).pending == WantedAfter(c.pending, AllEdits(rounds))
    decreases |rounds|
  {
    if rounds != [] {
      AfterWants(c, rounds[0], orders[0]);
      hide After, Possible, WantedAfter;
      OnlyEditsChangeWanted(After(c, rounds[0], orders[0]), rounds[1..], orders[1..]);
      WantedConcat(c.pending, EditsOf(rounds[0]), AllEdits(rounds[1..]));
    }
  }

  // ---- Invariants ----------------------------------------------------------

  /** An addition whose ID is wanted already was not removed first. */
  ghost predicate Fresh(wanted: map<string, ClientRule>, edits: seq<Edit>) {
    forall i | 0 <= i < |edits| && edits[i].AddEdit? :: edits[i].r.id !in WantedAfter(wanted, edits[..i])
  }

  lemma {:induction false} EditedKeepsInv(c: State, edits: seq<Edit>)
    requires Inv(c) && Fresh(c.pending, edits)
    ensures Inv(Edited(c, edits))
    decreases |edits|
  {
    hide Inv;
    if edits != [] {
      var init, last := edits[..|edits| - 1], edits[|edits| - 1];
      var d := Edited(c, init);
      assert forall i | 0 <= i < |init| :: init[..i] == edits[..i];
      EditedKeepsInv(c, init);
      EditedWants(c, init);
      match last
      case AddEdit(r, answer) =>
        OpenIsWanted(d);
        AddKeepsInvIff(d, r, answer);
      case RemoveEdit(id) => RemoveKeepsInv(d, id);
    }
  }

  lemma FreshParts(wanted: map<string, ClientRule>, p: seq<Edit>, q: seq<Edit>)
    requires Fresh(wanted, p + q)
    ensures Fresh(wanted, p) && Fresh(WantedAfter(wanted, p), q)
  {
    forall i | 0 <= i < |p| && p[i].AddEdit? ensures p[i].r.id !in WantedAfter(wanted, p[..i]) {
      assert (p + q)[..i] == p[..i] && (p + q)[i] == p[i];
    }
    forall i | 0 <= i < |q| && q[i].AddEdit? ensures q[i].r.id !in WantedAfter(WantedAfter(wanted, p), q[..i]) {
      assert (p + q)[..|p| + i] == p + q[..i] && (p + q)[|p| + i] == q[i];
      WantedConcat(wanted, p, q[..i]);
    }
  }

  lemma AfterKeepsInv(c: State, round: Round, order: seq<string>)
    requires Inv(c) && Possible(c, round, order) && Fresh(c.pending, EditsOf(round))
    ensures Inv(After(c, round, order))
  {
    hide Inv, Fresh, Connect;
    match round
    case Fails(edits) => EditedKeepsInv(c, edits);
    case Serves(before, grants, during) =>
      ConnectionKeepsInv(c, round, order);
      DropKeepsInv(Connection(c, round, order));
  }

  /** The reconnect invariant over every script in which an ID that is added again was removed first. */
  lemma {:induction false} ScriptKeepsInv(c: State, rounds: seq<Round>, orders: seq<seq<string>>)
    requires Inv(c) && |orders| == |rounds| && AllPossible(c, rounds, orders)
    requires Fresh(c.pending, AllEdits(rounds))
    ensures Inv(AfterAll(c, rounds, orders))
    decreases |rounds|
  {
    hide Inv, Fresh, After, Possible;
    if rounds != [] {
      FreshParts(c.pending, EditsOf(rounds[0]), AllEdits(rounds[1..]));
      AfterKeepsInv(c, rounds[0], orders[0]);
      AfterWants(c, rounds[0], orders[0]);
      ScriptKeepsInv(After(c, rounds[0], orders[0]), rounds[1..], orders[1..]);
    }
  }

  // ---- Between connections -------------------------------------------------

  lemma {:induction false} EditedKeepsUp(c: State, edits: seq<Edit>)
    ensures Edited(c, edits).up == c.up
    decreases |edits|
  {
    if edits != [] {
      EditedKeepsUp(c, edits[..|edits| - 1]);
    }
  }

  /** Between its connections the client is not connected. */
  lemma {:induction false} RoundsEndDown(c: State, rounds: seq<Round>, orders: seq<seq<string>>)
    requires !c.up && |orders| == |rounds| && AllPossible(c, rounds, orders)
    ensures !AfterAll(c, rounds, orders).up
    decreases |rounds|
  {
    if rounds != [] {
      if rounds[0].Fails? {
        EditedKeepsUp(c, rounds[0].edits);
      }
      hide Edited, Connect, Drain;
      RoundsEndDown(After(c, rounds[0], orders[0]), rounds[1..], orders[1..]);
    }
  }

  /**
   * What a whole script leaves, in which an ID that is added again was removed first: no connection, and no remote
   * listener, unless it was cancelled on a connection on which something was served. Then the listeners are still in
   * the table, for only losing the connection drains it.
   */
  lemma CancelledLeavesListenersIff(
    c: State, rounds: seq<Round>, orders: seq<seq<string>>, end: End, order: seq<string>)
    requires Inv(c) && !c.up && |orders| == |rounds| && AllPossible(c, rounds, orders)
    requires EndPossible(AfterAll(c, rounds, orders), end, order)
    requires Fresh(c.pending, AllEdits(rounds) + if end.Dialling? then end.edits else EditsOf(end.last))
    ensures var d := AfterAll(c, rounds, orders);
            var t := AfterEnd(d, end, order);
            && !t.up
            && (t.lns != map[] <==> end.Connected? && Connection(d, end.last, order).lns != map[])
            && (t.net.bound == map[] <==> t.lns == map[])
  {
    hide Inv, Fresh, AfterAll, AllPossible, Edited, Connect, Walks;
    var d := AfterAll(c, rounds, orders);
    RoundsEndDown(c, rounds, orders);
    FreshParts(c.pending, AllEdits(rounds), if end.Dialling? then end.edits else EditsOf(end.last));
    ScriptKeepsInv(c, rounds, orders);
    OnlyEditsChangeWanted(c, rounds, orders);
    match end
    case Dialling(edits) =>
      EditedKeepsUp(d, edits);
      EditedKeepsInv(d, edits);
      NothingBoundIff(Edited(d, edits));
    case Connected(last) =>
      ConnectionKeepsInv(d, last, order);
      NothingBoundIff(Connection(d, last, order));
  }

  lemma NothingBoundIff(c: State)
    requires Inv(c)
    ensures (c.net.bound == map[] <==> c.lns == map[]) && (!c.up ==> c.lns == map[])
  {
    if id :| id in c.lns {
      assert Handles(c.lns)[id] in Handles(c.lns).Values;
    }
    if h :| h in c.net.bound {
      assert h in Handles(c.lns).Values;
    }
  }

  lemma ConnectionKeepsInv(c: State, round: Round, order: seq<string>)
    requires Inv(c) && round.Serves? && Possible(c, round, order) && Fresh(c.pending, EditsOf(round))
    ensures Inv(Connection(c, round, order))
  {
    hide Inv, Fresh, Connect;
    FreshParts(c.pending, round.before, round.during);
    EditedKeepsInv(c, round.before);
    EditedWants(c, round.before);
    ConnectKeepsInv(Edited(c, round.before), order, round.grants);
    EditedKeepsInv(Connect(Edited(c, round.before), order, round.grants), round.during);
  }

  // ---- The loop adds one round at a time -----------------------------------

  lemma NoRounds(c: State)
    ensures AllPossible(c, [], []) && AfterAll(c, [], []) == c
  {
  }

  lemma {:induction false} OneMoreRound(
    c: State, rounds: seq<Round>, orders: seq<seq<string>>, round: Round, order: seq<string>)
    requires |orders| == |rounds| && AllPossible(c, rounds, orders)
    requires Possible(AfterAll(c, rounds, orders), round, order)
    ensures AllPossible(c, rounds + [round], orders + [order])
    ensures AfterAll(c, rounds + [round], orders + [order]) == After(AfterAll(c, rounds, orders), round, order)
    decreases |rounds|
  {
    hide After, Possible;
    if rounds == [] {
      assert rounds + [round] == [round] && orders + [order] == [order];
      assert [round][1..] == [] && [order][1..] == [];
    } else {
      assert (rounds + [round])[1..] == rounds[1..] + [round] && (orders + [order])[1..] == orders[1..] + [order];
      OneMoreRound(After(c, rounds[0], orders[0]), rounds[1..], orders[1..], round, order);
    }
  }
}

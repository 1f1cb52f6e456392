/** The tunnel client object (internal/tunnel/client.go): its rule table, its control connection, its reconnect loop. */
module TunnelClient {
  import opened Backoff
  import opened Common
  import opened Rules
  import opened TunnelServer
  import Tunnel

  class Client {
    var rules: map<string, ClientRule>
    var connected: bool      // whether there is an encoder to send on
    var sent: seq<Frame>     // what was sent on the present connection

    ghost predicate Valid()
      reads this
    {
      forall k <- rules.Keys :: rules[k].id == k
    }

    constructor ()
      ensures Valid() && rules == map[] && !connected && sent == []
    {
      rules, connected, sent := map[], false, [];
    }

    method Send(f: Frame)
      modifies this`sent
      ensures sent == if connected then old(sent) + [f] else old(sent)
    {
      if connected {
        sent := sent + [f];
      }
    }

    method Add(rule: ClientRule)
      requires Valid()
      modifies this`rules, this`sent
      ensures Valid() && rules == old(rules)[rule.id := rule]
      ensures sent == if connected then old(sent) + [Register(rule)] else old(sent)
    {
      rules := rules[rule.id := rule];
      Send(Register(rule));
    }

    method Remove(id: string)
      requires Valid()
      modifies this`rules, this`sent
      ensures Valid() && rules == old(rules) - {id}
      ensures sent == if connected then old(sent) + [Unregister(id)] else old(sent)
    {
      rules := rules - {id};
      Send(Unregister(id));
    }

    /** Copies of all rules, in whatever order ranging over the map yields them. */
    method Snapshot() returns (out: seq<ClientRule>, order: seq<string>)
      ensures Walks(order, rules.Keys)
      ensures |out| == |order| && forall i | 0 <= i < |out| :: out[i] == rules[order[i]]
    {
      order := AnyOrder(rules.Keys);
      out := [];
      var i := 0;
      while i < |order|
        invariant 0 <= i <= |order|
        invariant |out| == i && forall k | 0 <= k < i :: out[k] == rules[order[k]]
      {
        out := out + [rules[order[i]]];
        i := i + 1;
      }
    }

    /** After a connect: the whole table goes out, in the order of a snapshot. */
    method Replay() returns (order: seq<string>)
      requires Valid() && connected
      modifies this`sent
      ensures Walks(order, rules.Keys)
      ensures sent == old(sent) + Tunnel.ReplayFrames(rules, order)
    {
      var out;
      out, order := Snapshot();
      var i := 0;
      while i < |out|
        invariant 0 <= i <= |out|
        invariant sent == old(sent) + Tunnel.ReplayFrames(rules, order[..i])
      {
        assert order[..i + 1][..i] == order[..i];
        Send(Register(out[i]));
        i := i + 1;
      }
      assert order[..|order|] == order;
    }

    /** What other goroutines call meanwhile; on a connection each call sends its frame. */
    method Edit(edits: seq<Edit>)
      requires Valid()
      modifies this`rules, this`sent
      ensures Valid() && rules == RulesAfter(old(rules), edits)
      ensures sent == old(sent) + if connected then FramesOf(edits) else []
    {
      for i := 0 to |edits|
        invariant Valid() && rules == RulesAfter(old(rules), edits[..i])
        invariant sent == old(sent) + if connected then FramesOf(edits[..i]) else []
      {
        assert edits[..i + 1][..i] == edits[..i];
        match edits[i] {
          case AddEdit(rule) => Add(rule);
          case RemoveEdit(id) => Remove(id);
        }
      }
      assert edits[..|edits|] == edits;
    }

    /** One connection: dialled, replayed on, served until it ends, with edits at any point. */
    method Session(round: Round) returns (carried: seq<Frame>, order: seq<string>)
      requires Valid() && !connected && round.Up?
      modifies this
      ensures Valid() && !connected && rules == AfterRound(old(rules), round)
      ensures Carries(old(rules), round, order, carried)
    {
      Edit(round.before);
      connected, sent := true, [];
      Edit(round.early);
      order := Replay();
      Edit(round.during);
      carried, connected := sent, false;
    }

    /**
     * The reconnect loop over a script of rounds. `waits[i]` is the delay after dial `i`, none after a success, and
     * `carried[i]` what that connection carried: whatever failed or changed before it, the whole table the client has
     * at that point, and every edit made on the connection in order. The loop sees its cancellation between rounds, in
     * a dial or in the wait behind a failed one, which it cuts short, but never on a connection; `last` are the edits
     * from the last round up to there.
     */
    method Run(rounds: seq<Round>, last: seq<Edit>)
      returns (waits: seq<nat>, carried: seq<seq<Frame>>, orders: seq<seq<string>>)
      requires Valid() && !connected
      modifies this
      ensures Valid() && !connected && rules == RulesAfter(RulesAt(old(rules), rounds, |rounds|), last)
      ensures |waits| == |carried| == |orders| == |rounds|
      ensures forall i | 0 <= i < |rounds| :: waits[i] == Wait(Dials(rounds), i)
      ensures forall i | 0 <= i < |rounds| && rounds[i].Up? ::
                Carries(RulesAt(old(rules), rounds, i), rounds[i], orders[i], carried[i])
    {
      hide Carries, RulesAfter, AfterRound, Delay, Doubled;
      ghost var start, dials := rules, Dials(rounds);
      var backoff, i := SECOND, 0;
      FirstDelay(dials);
      waits, carried, orders := [], [], [];
      while i < |rounds|
        invariant 0 <= i <= |rounds| && |waits| == |carried| == |orders| == i
        invariant Valid() && !connected && rules == RulesAt(start, rounds, i)
        invariant backoff == Delay(dials, i)
        invariant forall k | 0 <= k < i :: waits[k] == Wait(dials, k)
        invariant forall k | 0 <= k < i && rounds[k].Up? ::
                    Carries(RulesAt(start, rounds, k), rounds[k], orders[k], carried[k])
      {
        NextDelay(dials, i);
        var frames: seq<Frame> := [];
        var order: seq<string> := [];
        if rounds[i].Down? {
          DownRound(rules, rounds[i]);
          Edit(rounds[i].edits);
          waits := waits + [backoff];
          backoff := Doubled(backoff);
        } else {
          backoff := SECOND;
          frames, order := Session(rounds[i]);
          waits := waits + [0];
        }
        carried, orders := carried + [frames], orders + [order];
        i := i + 1;
      }
      Edit(last);
    }
  }

  // ---- Scripts -------------------------------------------------------------

  /** A call of another goroutine. */
  datatype Edit = AddEdit(rule: ClientRule) | RemoveEdit(id: string)

  /**
   * One round of the loop: the dial fails, or there is a connection; edits come before it, between its start and the
   * replay, and while it is served.
   */
  datatype Round = Down(edits: seq<Edit>) | Up(before: seq<Edit>, early: seq<Edit>, during: seq<Edit>)

  function RulesAfter(rules: map<string, ClientRule>, edits: seq<Edit>): map<string, ClientRule> {
    if edits == [] then rules
    else
      var r := RulesAfter(rules, edits[..|edits| - 1]);
      match edits[|edits| - 1]
      case AddEdit(rule) => r[rule.id := rule]
      case RemoveEdit(id) => r - {id}
  }

  function FramesOf(edits: seq<Edit>): seq<Frame> {
    if edits == [] then []
    else
      FramesOf(edits[..|edits| - 1]) +
      match edits[|edits| - 1]
      case AddEdit(rule) => [Register(rule)]
      case RemoveEdit(id) => [Unregister(id)]
  }

  function AfterRound(rules: map<string, ClientRule>, round: Round): map<string, ClientRule> {
    match round
    case Down(edits) => RulesAfter(rules, edits)
    case Up(before, early, during) => RulesAfter(RulesAfter(RulesAfter(rules, before), early), during)
  }

  lemma DownRound(rules: map<string, ClientRule>, round: Round)
    requires round.Down?
    ensures AfterRound(rules, round) == RulesAfter(rules, round.edits)
  {
  }

  /** The client's rules after `n` rounds. */
  function RulesAt(rules: map<string, ClientRule>, rounds: seq<Round>, n: nat): map<string, ClientRule>
    requires n <= |rounds|
  {
    if n == 0 then rules else AfterRound(RulesAt(rules, rounds, n - 1), rounds[n - 1])
  }

  /** The frames are those of the early edits, then the table of that moment, each rule once, then the later edits. */
  ghost predicate Carries(rules: map<string, ClientRule>, round: Round, order: seq<string>, frames: seq<Frame>)
    requires round.Up?
  {
    var held := RulesAfter(RulesAfter(rules, round.before), round.early);
    && Walks(order, held.Keys)
    && frames == FramesOf(round.early) + Tunnel.ReplayFrames(held, order) + FramesOf(round.during)
  }

  function Dials(rounds: seq<Round>): seq<bool> {
    seq(|rounds|, i requires 0 <= i < |rounds| => rounds[i].Up?)
  }

  /** What the backoff stands at before dial `i`. */
  function Delay(dials: seq<bool>, i: nat): nat
    requires i <= |dials|
  {
    Min(Pow2(Streak(dials, i)), 32) * SECOND
  }

  lemma FirstDelay(dials: seq<bool>)
    ensures Delay(dials, 0) == SECOND
  {
  }

  lemma NextDelay(dials: seq<bool>, i: nat)
    requires i < |dials|
    ensures Delay(dials, i + 1) == if dials[i] then SECOND else Doubled(Delay(dials, i))
  {
    TunnelDelay(Streak(dials, i));
  }

  /** The delay after dial `i`: min(2^k, 32) seconds behind k earlier failures in a row. */
  function Wait(dials: seq<bool>, i: nat): nat
    requires i < |dials|
  {
    if dials[i] then 0 else Delay(dials, i)
  }

  // ---- What a connection says ----------------------------------------------

  lemma {:induction false} LastAboutEdits(rules: map<string, ClientRule>, edits: seq<Edit>, id: string)
    ensures match Tunnel.LastAbout(FramesOf(edits), id)
            case None =>
              && (id in RulesAfter(rules, edits) <==> id in rules)
              && (id in rules ==> RulesAfter(rules, edits)[id] == rules[id])
            case Some(Register(rule)) => id in RulesAfter(rules, edits) && RulesAfter(rules, edits)[id] == rule
            case Some(_) => id !in RulesAfter(rules, edits)
    decreases |edits|
  {
    if edits != [] {
      var init, last := edits[..|edits| - 1], edits[|edits| - 1];
      LastAboutEdits(rules, init, id);
      var f := match last case AddEdit(rule) => Register(rule) case RemoveEdit(k) => Unregister(k);
      assert FramesOf(edits) == FramesOf(init) + [f];
      Tunnel.LastAboutConcat(FramesOf(init), [f], id);
      assert [f][..0] == [];
    }
  }

  /**
   * The last word of a connection about each ID is the client's rule at its end: a registration of exactly that rule,
   * or, if the client has none, not a registration.
   */
  lemma CarriedSaysRules(
    rules: map<string, ClientRule>, round: Round, order: seq<string>, frames: seq<Frame>, id: string)
    requires round.Up? && Carries(rules, round, order, frames) && forall k <- rules.Keys :: rules[k].id == k
    ensures var after := AfterRound(rules, round);
            match Tunnel.LastAbout(frames, id)
            case None => id !in after
            case Some(Register(rule)) => id in after && after[id] == rule
            case Some(_) => id !in after
  {
    var held := RulesAfter(RulesAfter(rules, round.before), round.early);
    EditedIds(rules, round.before);
    EditedIds(RulesAfter(rules, round.before), round.early);
    LastAboutEdits(RulesAfter(rules, round.before), round.early, id);
    Tunnel.LastAboutReplay(held, order, id);
    Tunnel.LastAboutConcat(FramesOf(round.early), Tunnel.ReplayFrames(held, order), id);
    LastAboutEdits(held, round.during, id);
    Tunnel.LastAboutConcat(FramesOf(round.early) + Tunnel.ReplayFrames(held, order), FramesOf(round.during), id);
  }

  lemma {:induction false} EditedIds(rules: map<string, ClientRule>, edits: seq<Edit>)
    requires forall k <- rules.Keys :: rules[k].id == k
    ensures forall k <- RulesAfter(rules, edits).Keys :: RulesAfter(rules, edits)[k].id == k
    decreases |edits|
  {
    if edits != [] {
      EditedIds(rules, edits[..|edits| - 1]);
    }
  }
}

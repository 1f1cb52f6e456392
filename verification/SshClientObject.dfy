/** The SSH client as the object it is, with its reconnect loop. */
module SshClientObject {
  import opened Backoff
  import opened Common
  import opened Network
  import opened Rules
  import S = SshClient
  import T = SshClientScript

  class Client {
    var pending: map<string, ClientRule>
    var lns: map<string, S.Entry>
    var up: bool
    var net: Net
    var chans: Ledger

    ghost function View(): S.State
      reads this
    {
      S.State(pending, lns, up, net, chans)
    }

    /** Listeners and stop channels are accounted for. */
    ghost predicate Valid()
      reads this
    {
      S.Sound(View())
    }

    constructor ()
      ensures Valid() && View() == S.NEW_CLIENT
    {
      pending, lns, up, net, chans := map[], map[], false, EMPTY_NET, EMPTY_LEDGER;
      new;
      S.NewClientInv();
    }

    method Subscribe(r: ClientRule, answer: Option<Addr>)
      requires Valid()
      modifies this`lns, this`net, this`chans
      ensures Valid() && View() == S.Subscribe(old(View()), r, answer)
    {
      S.SubscribeKeepsSound(View(), r, answer);
      hide S.Sound;
      if r.id in lns {
        return;
      }
      if !Accepts(net, answer) {
        return;
      }
      lns := lns[r.id := S.Entry(net.ledger.next, chans.next, r)];
      net := Open(net, answer.value);
      chans := Create(chans);
    }

    method Add(r: ClientRule, answer: Option<Addr>)
      requires Valid()
      modifies this
      ensures Valid() && View() == S.Add(old(View()), r, answer)
    {
      pending := pending[r.id := r];
      hide S.Sound;
      if up {
        Subscribe(r, answer);
      }
    }

    method Remove(id: string)
      requires Valid()
      modifies this
      ensures Valid() && View() == S.Remove(old(View()), id)
    {
      S.RemoveKeepsSound(View(), id);
      hide S.Sound;
      if id in lns {
        net := Close(net, lns[id].ln);
        chans := Release(chans, lns[id].stop);
        lns := lns - {id};
      }
      pending := pending - {id};
    }

    /** Closes entry `i` of a walk, after those before it. */
    method CloseEntry(order: seq<string>, i: nat, stops: bool, ghost start: S.State)
      requires S.Separate(lns) && lns == start.lns && Walks(order, lns.Keys) && i < |order|
      requires S.PartlyClosed(start, Firsts(order, i), stops, net, chans)
      modifies this`net, this`chans
      ensures S.PartlyClosed(start, Firsts(order, i + 1), stops, net, chans)
    {
      var ent := lns[order[i]];
      S.CloseOneEntry(start, order, i, stops, net, chans);
      net := Close(net, ent.ln);
      if stops {
        chans := Release(chans, ent.stop);
      }
    }

    /** Closes the listeners of all entries, and their stop channels too if `stops`. */
    method CloseEntries(stops: bool)
      requires S.Separate(lns)
      modifies this`net, this`chans
      ensures S.PartlyClosed(old(View()), lns.Keys, stops, net, chans)
    {
      var order := AnyOrder(lns.Keys);
      ghost var start := View();
      S.NothingClosed(start, stops, order);
      for i := 0 to |order|
        invariant S.PartlyClosed(start, Firsts(order, i), stops, net, chans)
      {
        CloseEntry(order, i, stops, start);
      }
      AllFirsts(order, lns.Keys);
    }

    method Shutdown()
      requires Valid()
      modifies this
      ensures Valid() && View() == S.Shutdown(old(View()))
    {
      S.InvSeparates(View());
      S.ShutdownKeepsSound(View());
      hide S.Sound, S.Separate;
      CloseEntries(true);
      up, lns, pending := false, map[], map[];
    }

    method DrainListeners()
      requires Valid()
      modifies this`lns, this`net, this`chans
      ensures Valid() && View() == S.Drain(old(View()))
    {
      S.InvSeparates(View());
      S.DrainKeepsSound(View());
      hide S.Sound, S.Separate;
      CloseEntries(false);
      lns := map[];
    }

    /** `order` is the order in which the wanted rules came up. */
    method SubscribeAll(grants: map<string, Addr>) returns (order: seq<string>)
      requires Valid()
      modifies this`lns, this`net, this`chans
      ensures Valid() && Walks(order, pending.Keys)
      ensures View() == S.SubscribeAll(old(View()), order, grants)
    {
      hide S.Sound, S.Subscribe;
      order := AnyOrder(pending.Keys);
      var i := 0;
      while i < |order|
        invariant 0 <= i <= |order| && Valid()
        invariant S.SubscribeAll(View(), order[i..], grants) == S.SubscribeAll(old(View()), order, grants)
      {
        assert order[i..][1..] == order[i + 1..];
        Subscribe(pending[order[i]], S.Granted(grants, order[i]));
        i := i + 1;
      }
    }

    /** A successful dial. */
    method Connect(grants: map<string, Addr>) returns (order: seq<string>)
      requires Valid()
      modifies this
      ensures Valid() && pending == old(pending) && Walks(order, pending.Keys)
      ensures View() == S.Connect(old(View()), order, grants)
    {
      up := true;
      hide S.Sound, S.SubscribeAll, Walks;
      DrainListeners();
      order := SubscribeAll(grants);
    }

    /** What other goroutines call meanwhile. */
    method Edit(edits: seq<T.Edit>)
      requires Valid()
      modifies this
      ensures Valid() && View() == T.Edited(old(View()), edits)
    {
      hide S.Sound, S.Add, S.Remove;
      assert edits[..0] == [];
      for i := 0 to |edits|
        invariant Valid() && View() == T.Edited(old(View()), edits[..i])
      {
        assert edits[..i + 1][..i] == edits[..i];
        match edits[i] {
          case AddEdit(r, answer) => Add(r, answer);
          case RemoveEdit(id) => Remove(id);
        }
      }
      assert edits[..|edits|] == edits;
    }

    /** A connection from its dial to just before its death. */
    method Connection(round: T.Round) returns (order: seq<string>)
      requires Valid() && round.Serves?
      modifies this
      ensures Valid() && T.Possible(old(View()), round, order)
      ensures View() == T.Connection(old(View()), round, order)
    {
      hide S.Sound, S.Connect, T.Edited, Walks;
      Edit(round.before);
      assert pending == T.Edited(old(View()), round.before).pending;
      order := Connect(round.grants);
      Edit(round.during);
    }

    /** The connection has died. */
    method Disconnect()
      requires Valid()
      modifies this
      ensures Valid() && View() == S.Drop(old(View()))
    {
      DrainListeners();
      up := false;
    }

    method Round(round: T.Round) returns (order: seq<string>)
      requires Valid()
      modifies this
      ensures Valid() && T.Possible(old(View()), round, order) && View() == T.After(old(View()), round, order)
    {
      hide S.Sound, S.Drop, T.Edited, T.Connection, Walks;
      order := [];
      match round {
        case Fails(edits) => Edit(edits);
        case Serves(_, _, _) =>
          order := Connection(round);
          Disconnect();
      }
    }

    /** On cancellation the connection is closed and forgotten; the listeners stay in the table. */
    method Cancelled(end: T.End) returns (order: seq<string>)
      requires Valid() && (end.Connected? ==> end.last.Serves?)
      modifies this
      ensures Valid() && T.EndPossible(old(View()), end, order) && View() == T.AfterEnd(old(View()), end, order)
    {
      hide T.Edited, T.Connection, T.Possible;
      order := [];
      match end {
        case Dialling(edits) => Edit(edits);
        case Connected(last) =>
          order := Connection(last);
          up := false;
      }
    }

    /**
     * The reconnect loop over a script of rounds up to its cancellation. `delays[i]` is how long it waits before
     * dial `i`, so one second before the very first; the last wait may be cut short.
     */
    method Run(rounds: seq<T.Round>, end: T.End)
      returns (delays: seq<nat>, orders: seq<seq<string>>, last: seq<string>)
      requires Valid() && (end.Connected? ==> end.last.Serves?)
      modifies this
      ensures |delays| == |rounds| + 1 && forall i | 0 <= i <= |rounds| :: delays[i] == Delay(T.Dials(rounds), i)
      ensures |orders| == |rounds| && T.AllPossible(old(View()), rounds, orders)
      ensures T.EndPossible(T.AfterAll(old(View()), rounds, orders), end, last)
      ensures Valid() && View() == T.AfterEnd(T.AfterAll(old(View()), rounds, orders), end, last)
    {
      hide S.Sound, T.After, T.Possible, T.AfterEnd, T.EndPossible, T.AllPossible, T.AfterAll, Min, Pow2, NextBackoff;
      ghost var start := View();
      T.NoRounds(start);
      var backoff := SECOND;
      assert backoff == Delay(T.Dials(rounds), 0) by {
        FirstDelay(T.Dials(rounds));
      }
      delays, orders := [], [];
      assert rounds[..0] == [];
      for i := 0 to |rounds|
        invariant |delays| == |orders| == i
        invariant forall k | 0 <= k < i :: delays[k] == Delay(T.Dials(rounds), k)
        invariant backoff == Delay(T.Dials(rounds), i)
        invariant Valid() && T.AllPossible(start, rounds[..i], orders)
        invariant View() == T.AfterAll(start, rounds[..i], orders)
      {
        delays := delays + [backoff];
        NextDelay(T.Dials(rounds), i);
        backoff := if rounds[i].Fails? then NextBackoff(backoff) else SECOND;
        var order := Round(rounds[i]);
        T.OneMoreRound(start, rounds[..i], orders, rounds[i], order);
        assert rounds[..i + 1] == rounds[..i] + [rounds[i]];
        orders := orders + [order];
      }
      assert rounds[..|rounds|] == rounds;
      delays := delays + [backoff];
      last := Cancelled(end);
    }
  }

  /** The delay before dial `i`: min(2^k, 30) seconds behind k failures in a row. */
  function Delay(dials: seq<bool>, i: nat): nat
    requires i <= |dials|
  {
    Min(Pow2(Streak(dials, i)), 30) * SECOND
  }

  lemma FirstDelay(dials: seq<bool>)
    ensures Delay(dials, 0) == SECOND
  {
  }

  lemma NextDelay(dials: seq<bool>, i: nat)
    requires i < |dials|
    ensures Delay(dials, i + 1) == if dials[i] then SECOND else NextBackoff(Delay(dials, i))
  {
    SshDelay(Streak(dials, i));
  }
}

/** The engine as the object it is: methods update its tables in place, and the loops are those of the source. */
module EngineObject {
  import opened Common
  import opened Decimal
  import opened Network
  import opened Rules
  import E = Engine

  class Engine {
    var rules: map<string, Rule>
    var lns: map<string, nat>
    var stop: map<string, nat>
    var nextID: nat
    var remote: bool
    var calls: seq<E.Call>
    var net: Net
    var chans: Ledger

    ghost function View(): E.State
      reads this
    {
      E.State(rules, lns, stop, nextID, remote, calls, net, chans)
    }

    constructor (withBackend: bool)
      ensures View() == E.New(withBackend)
    {
      rules, lns, stop, nextID, remote, calls := map[], map[], map[], 1, withBackend, [];
      net, chans := EMPTY_NET, EMPTY_LEDGER;
    }

    method SetStatus(id: string, status: Status)
      requires id in rules
      modifies this`rules
      ensures View() == E.SetStatus(old(View()), id, status)
    {
      rules := rules[id := rules[id].(status := status)];
    }

    method StartLocked(id: string, answer: Option<Addr>) returns (ok: bool)
      modifies this
      ensures ok == Accepts(old(net), answer)
      ensures View() == if ok then E.Bind(old(View()), id, answer.value) else old(View())
    {
      ok := Accepts(net, answer);
      if !ok {
        return;
      }
      lns := lns[id := net.ledger.next];
      net := Open(net, answer.value);
      stop := stop[id := chans.next];
      chans := Create(chans);
    }

    method StopLocked(id: string)
      requires id in rules && (id in lns ==> id in stop)
      modifies this
      ensures View() == E.Stop(old(View()), id)
    {
      if id !in lns {
        return;
      }
      net := Close(net, lns[id]);
      chans := Release(chans, stop[id]);
      lns := lns - {id};
      stop := stop - {id};
      SetStatus(id, Stopped);
    }

    method AddRemote(id: string)
      requires id in rules
      modifies this`calls
      ensures View() == E.Ask(old(View()), E.AddRemote(rules[id]))
    {
      calls := calls + [E.AddRemote(rules[id])];
    }

    method RemoveRemote(id: string)
      modifies this`calls
      ensures View() == E.Ask(old(View()), E.RemoveRemote(id))
    {
      calls := calls + [E.RemoveRemote(id)];
    }

    method Add(typ: string, name: string, listen: string, target: string, credential: string, answer: Option<Addr>)
      returns (r: Rule, ok: bool)
      modifies this
      ensures View() == E.Add(old(View()), typ, name, listen, target, credential, answer)
      ensures ok == E.AddSucceeds(old(View()), typ, answer)
      ensures r.id in rules && r == rules[r.id] && r.id == Print(old(nextID))
    {
      var id := Print(nextID);
      r := Rule(id, typ, name, listen, target, Running, credential);
      nextID := nextID + 1;
      rules := rules[id := r];
      if typ == REMOTE {
        if !remote {
          SetStatus(id, Error);
          return rules[id], false;
        }
        SetStatus(id, Pending);
        AddRemote(id);
        return rules[id], true;
      }
      ok := StartLocked(id, answer);
      if !ok {
        SetStatus(id, Error);
      }
      r := rules[id];
    }

    method Remove(id: string) returns (ok: bool)
      requires E.StopReady(View())
      modifies this
      ensures View() == E.Remove(old(View()), id)
      ensures ok == (id in old(rules)) && id !in rules
    {
      ok := id in rules;
      if !ok {
        return;
      }
      if IsRemote(rules[id]) {
        if remote {
          RemoveRemote(id);
        }
      } else {
        StopLocked(id);
      }
      rules := rules - {id};
    }

    method Update(id: string, name: string, listen: string, target: string, credential: string,
                  answer: Option<Addr>) returns (ok: bool)
      requires E.StopReady(View())
      modifies this
      ensures View() == E.Update(old(View()), id, name, listen, target, credential, answer)
      ensures ok == E.UpdateSucceeds(old(View()), id, answer)
    {
      if id !in rules {
        return false;
      }
      if IsRemote(rules[id]) {
        var r := E.WithFields(rules[id], name, listen, target);
        rules := rules[id := r.(credential := credential, status := Pending)];
        if remote {
          RemoveRemote(id);
          AddRemote(id);
        }
        return true;
      }
      StopLocked(id);
      rules := rules[id := E.WithFields(rules[id], name, listen, target).(status := Running)];
      ok := StartLocked(id, answer);
      if !ok {
        SetStatus(id, Error);
      }
    }

    /** Counts through all IDs ever given out. */
    method List() returns (out: seq<Rule>)
      ensures out == E.List(View())
    {
      out := [];
      var i := 1;
      while i <= nextID
        invariant 1 <= i <= nextID + 1
        invariant out == E.ListUpTo(View(), i - 1)
      {
        var id := Print(i);
        if id in rules {
          out := out + [rules[id]];
        }
        i := i + 1;
      }
    }

    method RestartRule(id: string, answer: Option<Addr>)
      requires id in rules && E.StopReady(View())
      modifies this
      ensures View() == E.RestartOne(old(View()), id, answer)
    {
      if IsRemote(rules[id]) {
        return;
      }
      StopLocked(id);
      var ok := StartLocked(id, answer);
      SetStatus(id, if ok then Running else Error);
    }

    /** Ranges over the rule map; `order` is the order in which the rules came up. */
    method Restart(answers: seq<Option<Addr>>) returns (order: seq<string>)
      requires E.StopReady(View()) && |answers| == |rules|
      modifies this
      ensures Walks(order, old(rules).Keys) && |order| == |answers|
      ensures View() == E.Restart(old(View()), order, answers)
    {
      order := AnyOrder(rules.Keys);
      var i := 0;
      while i < |order|
        invariant 0 <= i <= |order|
        invariant E.StopReady(View()) && rules.Keys == old(rules).Keys
        invariant E.Restart(View(), order[i..], answers[i..]) == E.Restart(old(View()), order, answers)
      {
        assert order[i..][1..] == order[i + 1..] && answers[i..][1..] == answers[i + 1..];
        E.RestartOneKeys(View(), order[i], answers[i]);
        RestartRule(order[i], answers[i]);
        i := i + 1;
      }
    }

    /** One saved rule's turn. */
    method RestoreRule(r: Rule, answer: Option<Addr>)
      modifies this
      ensures View() == E.RestoreOne(old(View()), r, answer)
    {
      var n := Atoi(r.id);
      if n.Some? && n.value >= nextID {
        nextID := n.value + 1;
      }
      rules := rules[r.id := DropStatus(r)];
      if IsRemote(r) {
        if !remote {
          SetStatus(r.id, Error);
          return;
        }
        SetStatus(r.id, Pending);
        AddRemote(r.id);
        return;
      }
      var ok := StartLocked(r.id, answer);
      if !ok {
        SetStatus(r.id, Error);
      }
    }

    method Restore(saved: seq<Rule>, answers: seq<Option<Addr>>)
      requires |answers| == |saved|
      modifies this
      ensures View() == E.Restore(old(View()), saved, answers)
    {
      for i := 0 to |saved|
        invariant E.Restore(View(), saved[i..], answers[i..]) == E.Restore(old(View()), saved, answers)
      {
        assert saved[i..][1..] == saved[i + 1..] && answers[i..][1..] == answers[i + 1..];
        RestoreRule(saved[i], answers[i]);
      }
    }
  }

  /** The rule file (internal/engine/store.go): a list of rules without statuses. */
  class Store {
    var file: seq<Rule>

    constructor (onDisk: seq<Rule>)
      ensures file == onDisk
    {
      file := onDisk;
    }

    method List() returns (out: seq<Rule>)
      ensures out == file
    {
      out := file;
    }

    method Save(rules: seq<Rule>, write: Write) returns (ok: bool)
      modifies this
      ensures ok == (write != Failed)
      ensures file == if write == Done then E.Persist(rules) else old(file)
    {
      if write == Skipped {
        return true;
      }
      var out := [];
      for i := 0 to |rules|
        invariant |out| == i && forall k | 0 <= k < i :: out[k] == DropStatus(rules[k])
      {
        var r := rules[i];
        out := out + [Rule(r.id, r.typ, r.name, r.listen, r.target, Unset, r.credential)];
      }
      if write == Done {
        file := out;
      }
      ok := write == Done;
    }
  }
}

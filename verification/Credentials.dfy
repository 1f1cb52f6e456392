/** The credential store (internal/ssh/credentials.go): generated IDs, and reloading what was saved. */
module Credentials {
  import opened Common
  import opened Decimal

  datatype Credential = Credential(
    id: string, name: string, host: string, user: string,
    authType: string, keyPath: string, passphrase: string, password: string)

  /** The file is a list whose entries may be null. */
  type File = seq<Option<Credential>>

  datatype State = State(next: nat, cs: map<string, Credential>, file: File)

  const ID_PREFIX := "credp-"

  /** Scanning `credp-%d`: the number behind the prefix, with whatever follows it ignored; 0 when there is none. */
  function AtoiName(id: string): int {
    if ID_PREFIX <= id then
      match ScanInt(id[|ID_PREFIX|..]) case Some(n) => n case None => 0
    else 0
  }

  function NameOf(n: nat): string {
    ID_PREFIX + Print(n)
  }

  lemma AtoiNameOfName(n: nat)
    requires n <= MAX_INT
    ensures AtoiName(NameOf(n)) == n
  {
    assert NameOf(n)[|ID_PREFIX|..] == Print(n);
    ScanIntOfPrint(n);
  }

  // ---- Operations ----------------------------------------------------------

  function LoadOne(s: State, entry: Option<Credential>): State {
    match entry
    case None => s
    case Some(c) =>
      var n := AtoiName(c.id);
      s.(cs := s.cs[c.id := c], next := if n >= s.next then n + 1 else s.next)
  }

  /** `NewCredStore`: a missing file is an empty one. */
  function Load(file: File): State {
    LoadUpTo(file, |file|)
  }

  function LoadUpTo(file: File, n: nat): State
    requires n <= |file|
  {
    if n == 0 then State(0, map[], file) else LoadOne(LoadUpTo(file, n - 1), file[n - 1])
  }

  /** What a save writes when it walks the map in `order`. */
  function Written(cs: map<string, Credential>, order: seq<string>): File
    requires forall k <- order :: k in cs
  {
    seq(|order|, i requires 0 <= i < |order| => Some(cs[order[i]]))
  }

  function Save(s: State, order: seq<string>): State
    requires Walks(order, s.cs.Keys)
  {
    s.(file := Written(s.cs, order))
  }

  function WithNew(s: State, c: Credential): State {
    var id := NameOf(s.next + 1);
    s.(next := s.next + 1, cs := s.cs[id := c.(id := id)])
  }

  /** `Add`; when the save fails the new entry is taken out again, but its number stays used. */
  function Add(s: State, c: Credential, saved: bool, order: seq<string>): State
    requires saved ==> Walks(order, WithNew(s, c).cs.Keys)
  {
    var t := WithNew(s, c);
    if saved then Save(t, order) else t.(cs := t.cs - {NameOf(t.next)})
  }

  function Update(s: State, id: string, c: Credential, order: seq<string>): State
    requires Walks(order, s.cs.Keys)
  {
    if id in s.cs then Save(s.(cs := s.cs[id := c.(id := id)]), order) else s
  }

  function Delete(s: State, id: string, order: seq<string>): State
    requires Walks(order, s.cs.Keys - {id})
  {
    if id in s.cs then Save(s.(cs := s.cs - {id}), order) else s
  }

  /** `s` is what a successful save leaves; the file only changes when the save is one. */
  function IfWritten(s: State, file: File, write: Write): State {
    if write == Done then s else s.(file := file)
  }

  // ---- Reloading -----------------------------------------------------------

  ghost predicate IdsMatch(cs: map<string, Credential>) {
    forall id <- cs.Keys :: cs[id].id == id
  }

  /** The counter is the least number from 0 on above every number in use. */
  ghost predicate LeastAbove(s: State) {
    && (forall k <- s.cs.Keys :: AtoiName(k) < s.next)
    && (s.next == 0 || exists k <- s.cs.Keys :: AtoiName(k) + 1 == s.next)
  }

  lemma LoadOneFacts(s: State, entry: Option<Credential>)
    requires LeastAbove(s) && IdsMatch(s.cs)
    ensures var t := LoadOne(s, entry);
            && t.file == s.file && LeastAbove(t) && IdsMatch(t.cs)
  {
    var t := LoadOne(s, entry);
    match entry
    case None =>
    case Some(c) =>
      assert c.id in t.cs;
      if t.next == s.next && s.next > 0 {
        var k :| k in s.cs && AtoiName(k) + 1 == s.next;
        assert k in t.cs;
      }
  }

  lemma {:induction false} LoadFacts(file: File, n: nat)
    requires n <= |file|
    ensures var s := LoadUpTo(file, n); s.file == file && LeastAbove(s) && IdsMatch(s.cs)
    decreases n
  {
    if n > 0 {
      LoadFacts(file, n - 1);
      LoadOneFacts(LoadUpTo(file, n - 1), file[n - 1]);
    }
  }

  lemma {:induction false} LoadWrittenUpTo(cs: map<string, Credential>, order: seq<string>, n: nat)
    requires IdsMatch(cs) && (forall k <- order :: k in cs) && n <= |order|
    ensures LoadUpTo(Written(cs, order), n).cs == map k | k in cs && k in order[..n] :: cs[k]
    decreases n
  {
    if n > 0 {
      LoadWrittenUpTo(cs, order, n - 1);
      var k := order[n - 1];
      assert order[..n] == order[..n - 1] + [k];
      assert k in order && cs[k].id == k;
    }
  }

  /** Reloading what was written gives back the map, whatever order it was written in. */
  lemma LoadWritten(cs: map<string, Credential>, order: seq<string>)
    requires IdsMatch(cs) && Walks(order, cs.Keys)
    ensures Load(Written(cs, order)).cs == cs
  {
    LoadWrittenUpTo(cs, order, |order|);
    assert order[..|order|] == order;
  }

  /** The whole reloaded store, its counter included, is the same for every order the map was written in. */
  lemma ReloadIgnoresOrder(cs: map<string, Credential>, p: seq<string>, q: seq<string>)
    requires IdsMatch(cs) && Walks(p, cs.Keys) && Walks(q, cs.Keys)
    ensures Load(Written(cs, p)).cs == cs == Load(Written(cs, q)).cs
    ensures Load(Written(cs, p)).next == Load(Written(cs, q)).next
  {
    LoadWritten(cs, p);
    LoadWritten(cs, q);
    LoadFacts(Written(cs, p), |p|);
    LoadFacts(Written(cs, q), |q|);
  }

  /**
   * Which ID the first Add after a reload gives out: the least one whose number lies two above all numbers in use, or
   * the first of all when none is.
   */
  lemma NextAfterReload(file: File, k: nat)
    requires k >= 1
    ensures var t := Load(file);
            NameOf(t.next + 1) == NameOf(k) <==>
            && (forall id <- t.cs.Keys :: AtoiName(id) + 2 <= k)
            && (k == 1 || exists id <- t.cs.Keys :: AtoiName(id) + 2 == k)
  {
    hide AtoiName, LoadUpTo, NameOf;
    LoadFacts(file, |file|);
    var t := Load(file);
    if NameOf(t.next + 1) == NameOf(k) {
      NameInjective(t.next + 1, k);
    }
  }

  lemma NameInjective(m: nat, n: nat)
    requires NameOf(m) == NameOf(n)
    ensures m == n
  {
    hide Print;
    assert Print(m) == NameOf(m)[|ID_PREFIX|..] == NameOf(n)[|ID_PREFIX|..] == Print(n);
    PrintInjective(m, n);
  }

  // ---- Runs ----------------------------------------------------------------

  datatype Op =
    | AddOp(c: Credential, write: Write, order: seq<string>)
    | UpdateOp(id: string, c: Credential, write: Write, order: seq<string>)
    | DeleteOp(id: string, write: Write, order: seq<string>)
    | RestartOp

  /** Runs stay below 2^63 - 1 numbers, so that the counter never leaves Go's int. */
  predicate Enabled(s: State, op: Op) {
    match op
    case AddOp(c, write, order) => s.next < MAX_INT && Walks(order, WithNew(s, c).cs.Keys)
    case UpdateOp(id, c, write, order) => Walks(order, s.cs.Keys)
    case DeleteOp(id, write, order) => Walks(order, s.cs.Keys - {id})
    case RestartOp => true
  }

  function AddThen(s: State, c: Credential, write: Write, order: seq<string>): State
    requires Walks(order, WithNew(s, c).cs.Keys)
  {
    if write == Skipped then WithNew(s, c) else Add(s, c, write == Done, order)
  }

  /** Steps that are not enabled change nothing. */
  function Step(s: State, op: Op): State {
    if !Enabled(s, op) then s
    else
      match op
      case AddOp(c, write, order) => AddThen(s, c, write, order)
      case UpdateOp(id, c, write, order) => IfWritten(Update(s, id, c, order), s.file, write)
      case DeleteOp(id, write, order) => IfWritten(Delete(s, id, order), s.file, write)
      case RestartOp => Load(s.file)
  }

  function Exec(s: State, ops: seq<Op>): State
    decreases |ops|
  {
    if ops == [] then s else Exec(Step(s, ops[0]), ops[1..])
  }

  /** The step's change reaches the file; an Add that fails takes its change back. */
  predicate Kept(op: Op) {
    match op
    case AddOp(_, write, _) => write != Skipped
    case UpdateOp(_, _, write, _) => write == Done
    case DeleteOp(_, write, _) => write == Done
    case RestartOp => true
  }

  /** No ID in use carries a number above the counter, nor does one in the file by more than a restart adds. */
  ghost predicate Sound(s: State) {
    && IdsMatch(s.cs)
    && (forall id <- s.cs.Keys :: AtoiName(id) <= s.next)
    && Load(s.file).next <= s.next + 1
  }

  /** Memory and file agree. */
  ghost predicate Inv(s: State) {
    Sound(s) && Load(s.file).cs == s.cs
  }

  lemma NewIdIsFresh(s: State)
    requires Sound(s) && s.next < MAX_INT
    ensures NameOf(s.next + 1) !in s.cs && AtoiName(NameOf(s.next + 1)) == s.next + 1
  {
    AtoiNameOfName(s.next + 1);
  }

  lemma SaveKeepsInv(s: State, order: seq<string>)
    requires IdsMatch(s.cs) && (forall id <- s.cs.Keys :: AtoiName(id) <= s.next) && Walks(order, s.cs.Keys)
    ensures Inv(Save(s, order))
  {
    var file := Written(s.cs, order);
    LoadWritten(s.cs, order);
    LoadFacts(file, |file|);
    hide AtoiName, Written, LoadUpTo;
  }

  /** What a step leaves before its save. */
  lemma UnsavedIsSound(s: State, t: State)
    requires Sound(s) && t.file == s.file && t.next >= s.next
    requires IdsMatch(t.cs) && forall id <- t.cs.Keys :: AtoiName(id) <= t.next
    ensures Sound(t)
  {
  }

  lemma AddKeepsSound(s: State, c: Credential, write: Write, order: seq<string>)
    requires Sound(s) && s.next < MAX_INT && Walks(order, WithNew(s, c).cs.Keys)
    ensures var t := AddThen(s, c, write, order);
            Sound(t) && t.next <= s.next + 1 && (write == Done || (write == Failed && Inv(s)) ==> Inv(t))
  {
    NewIdIsFresh(s);
    hide AtoiName, Print, Load;
    var t := WithNew(s, c);
    UnsavedIsSound(s, t);
    match write
    case Done => SaveKeepsInv(t, order);
    case Failed =>
      var u := Add(s, c, false, order);
      assert u.cs == s.cs;
      UnsavedIsSound(s, u);
    case Skipped =>
  }

  lemma UpdateKeepsSound(s: State, id: string, c: Credential, order: seq<string>, write: Write)
    requires Sound(s) && Walks(order, s.cs.Keys)
    ensures var t := IfWritten(Update(s, id, c, order), s.file, write);
            Sound(t) && t.next == s.next && (write == Done && (id in s.cs || Inv(s)) ==> Inv(t))
  {
    hide AtoiName, Load;
    if id in s.cs {
      var t := s.(cs := s.cs[id := c.(id := id)]);
      assert t.cs.Keys == s.cs.Keys;
      SaveKeepsInv(t, order);
      UnsavedIsSound(s, t);
    }
  }

  lemma DeleteKeepsSound(s: State, id: string, order: seq<string>, write: Write)
    requires Sound(s) && Walks(order, s.cs.Keys - {id})
    ensures var t := IfWritten(Delete(s, id, order), s.file, write);
            Sound(t) && t.next == s.next && (write == Done && (id in s.cs || Inv(s)) ==> Inv(t))
  {
    hide AtoiName, Load;
    if id in s.cs {
      var t := s.(cs := s.cs - {id});
      SaveKeepsInv(t, order);
      UnsavedIsSound(s, t);
    }
  }

  /** An update keeps memory and file in agreement exactly when it is written, or changes nothing. */
  lemma UnsavedUpdateIff(s: State, id: string, c: Credential, order: seq<string>, write: Write)
    requires Inv(s) && Walks(order, s.cs.Keys)
    ensures Inv(IfWritten(Update(s, id, c, order), s.file, write)) <==>
            write == Done || id !in s.cs || s.cs[id] == c.(id := id)
  {
    hide AtoiName, Load;
    UpdateKeepsSound(s, id, c, order, write);
    var t := IfWritten(Update(s, id, c, order), s.file, write);
    if id in s.cs && write != Done {
      assert t.cs[id] == c.(id := id);
      if s.cs[id] == c.(id := id) {
        assert t.cs == s.cs;
      }
    }
  }

  /** A deletion keeps them in agreement exactly when it is written, or there is nothing to delete. */
  lemma UnsavedDeleteIff(s: State, id: string, order: seq<string>, write: Write)
    requires Inv(s) && Walks(order, s.cs.Keys - {id})
    ensures Inv(IfWritten(Delete(s, id, order), s.file, write)) <==> write == Done || id !in s.cs
  {
    hide AtoiName, Load;
    DeleteKeepsSound(s, id, order, write);
    assert id in s.cs && write != Done ==> id !in IfWritten(Delete(s, id, order), s.file, write).cs;
  }

  lemma ReloadIsSound(s: State)
    requires Sound(s)
    ensures Inv(Load(s.file)) && Load(s.file).next <= s.next + 1
  {
    LoadFacts(s.file, |s.file|);
    hide AtoiName, LoadUpTo;
  }

  lemma StepKeepsSound(s: State, op: Op)
    requires Sound(s)
    ensures Sound(Step(s, op)) && Step(s, op).next <= s.next + 1 && (Inv(s) && Kept(op) ==> Inv(Step(s, op)))
  {
    hide Sound, AddThen, IfWritten;
    if Enabled(s, op) {
      match op
      case AddOp(c, write, order) => AddKeepsSound(s, c, write, order);
      case UpdateOp(id, c, write, order) => UpdateKeepsSound(s, id, c, order, write);
      case DeleteOp(id, write, order) => DeleteKeepsSound(s, id, order, write);
      case RestartOp => ReloadIsSound(s);
    }
  }

  lemma {:induction false} ExecKeepsSound(s: State, ops: seq<Op>)
    requires Sound(s)
    ensures Sound(Exec(s, ops)) && Exec(s, ops).next <= s.next + |ops|
    ensures Inv(s) && (forall op <- ops :: Kept(op)) ==> Inv(Exec(s, ops))
    decreases |ops|
  {
    hide Sound, Inv, Step, Kept;
    if ops != [] {
      StepKeepsSound(s, ops[0]);
      ExecKeepsSound(Step(s, ops[0]), ops[1..]);
    }
  }

  lemma NothingLoaded()
    ensures Inv(Load([])) && Load([]).next == 0
  {
  }

  /**
   * After every history of adds, updates, deletes and restarts, whatever writes fail: each credential is filed under
   * its own ID and no ID in use has a number above the counter, so the next Add never takes one in use. The counter is
   * at most the number of operations. A restart gives back exactly the credentials in memory if every change reached
   * the file.
   */
  lemma StoreRuns(ops: seq<Op>)
    ensures var s := Exec(Load([]), ops);
            && IdsMatch(s.cs)
            && (forall id <- s.cs.Keys :: AtoiName(id) <= s.next)
            && s.next <= |ops|
            && (s.next < MAX_INT ==> NameOf(s.next + 1) !in s.cs)
            && ((forall op <- ops :: Kept(op)) ==> Load(s.file).cs == s.cs)
  {
    NothingLoaded();
    hide Load, Exec, NameOf, AtoiName, Kept;
    ExecKeepsSound(Load([]), ops);
    var s := Exec(Load([]), ops);
    if s.next < MAX_INT {
      NewIdIsFresh(s);
    }
  }

  // ---- What one operation does ---------------------------------------------

  /** The credentials in memory after the operation, in terms of the operation. */
  function Expected(s: State, op: Op): map<string, Credential> {
    match op
    case AddOp(c, write, _) =>
      var id := NameOf(s.next + 1);
      if write == Failed then s.cs else s.cs[id := c.(id := id)]
    case UpdateOp(id, c, _, _) => if id in s.cs then s.cs[id := c.(id := id)] else s.cs
    case DeleteOp(id, _, _) => s.cs - {id}
    case RestartOp => Load(s.file).cs
  }

  /** The operation writes the file. */
  predicate Writes(s: State, op: Op) {
    match op
    case AddOp(_, write, _) => write == Done
    case UpdateOp(id, _, write, _) => write == Done && id in s.cs
    case DeleteOp(id, write, _) => write == Done && id in s.cs
    case RestartOp => false
  }

  /**
   * Every operation from every sound state: memory holds what the request says, an Add that cannot be written aside,
   * which leaves no trace but the number it used; a written file reloads to just that, counter included, and nothing
   * else changes the file.
   */
  lemma StepDoes(s: State, op: Op)
    requires Sound(s) && Enabled(s, op)
    ensures var t := Step(s, op);
            && t.cs == Expected(s, op)
            && (if Writes(s, op) then Load(t.file).cs == t.cs else t.file == s.file)
            && (op.AddOp? ==> NameOf(s.next + 1) !in s.cs && t.next == s.next + 1)
            && (op.UpdateOp? || op.DeleteOp? ==> t.next == s.next)
  {
    hide Sound, Load, NameOf, AtoiName, Written;
    match op
    case AddOp(c, write, order) =>
      NewIdIsFresh(s);
      AddKeepsSound(s, c, write, order);
      assert WithNew(s, c).cs - {NameOf(s.next + 1)} == s.cs;
    case UpdateOp(id, c, write, order) => UpdateKeepsSound(s, id, c, order, write);
    case DeleteOp(id, write, order) =>
      DeleteKeepsSound(s, id, order, write);
      assert id !in s.cs ==> s.cs - {id} == s.cs;
    case RestartOp => LoadedFile(s.file);
  }

  lemma LoadedFile(file: File)
    ensures Load(file).file == file
  {
    LoadFacts(file, |file|);
  }

  // ---- A deleted ID --------------------------------------------------------

  /**
   * IDs of deleted credentials are not kept free. After a deletion and a restart the first Add gives out the deleted
   * ID again exactly when its number is the next one after the reload: two above the highest number left, or the very
   * first when none is left.
   */
  lemma DeletedIdReusedIff(s: State, k: nat, order: seq<string>)
    requires Sound(s) && k >= 1 && NameOf(k) in s.cs && Walks(order, s.cs.Keys - {NameOf(k)})
    ensures var left := s.cs.Keys - {NameOf(k)};
            NameOf(Load(Delete(s, NameOf(k), order).file).next + 1) == NameOf(k) <==>
            (forall id <- left :: AtoiName(id) + 2 <= k) && (k == 1 || exists id <- left :: AtoiName(id) + 2 == k)
  {
    hide Load, NameOf, AtoiName;
    var d := Delete(s, NameOf(k), order);
    DeleteKeepsSound(s, NameOf(k), order, Done);
    assert d.cs.Keys == s.cs.Keys - {NameOf(k)};
    NextAfterReload(d.file, k);
  }

  /** Four operations suffice: add, delete, restart, add. */
  lemma DeletedIdComesBack(c: Credential, d: Credential)
    ensures var id := NameOf(1);
            var s := Exec(Load([]), [AddOp(c, Done, [id])]);
            var t := Exec(s, [DeleteOp(id, Done, []), RestartOp, AddOp(d, Done, [id])]);
            s.cs == map[id := c.(id := id)] && t.cs == map[id := d.(id := id)]
  {
    var id := NameOf(1);
    var s := Exec(Load([]), [AddOp(c, Done, [id])]);
    OneStep(Load([]), AddOp(c, Done, [id]));
    assert s.cs == map[id := c.(id := id)];
    var s1 := Step(s, DeleteOp(id, Done, []));
    assert s1.cs == map[] && s1.file == [];
    assert Step(s1, RestartOp) == Load([]);
    OneStep(Load([]), AddOp(d, Done, [id]));
    assert [DeleteOp(id, Done, []), RestartOp, AddOp(d, Done, [id])][1..] == [RestartOp, AddOp(d, Done, [id])];
    assert [RestartOp, AddOp(d, Done, [id])][1..] == [AddOp(d, Done, [id])];
  }

  lemma OneStep(s: State, op: Op)
    ensures Exec(s, [op]) == Step(s, op)
  {
    hide Step;
    assert Exec(Step(s, op), []) == Step(s, op);
  }

  // ---- The store object ----------------------------------------------------

  class CredStore {
    var next: nat
    var cs: map<string, Credential>
    var file: File

    ghost function View(): State
      reads this
    {
      State(next, cs, file)
    }

    constructor (data: File)
      ensures View() == Load(data)
    {
      next, cs, file := 0, map[], data;
      new;
      var i := 0;
      while i < |data|
        invariant 0 <= i <= |data|
        invariant View() == LoadUpTo(data, i)
      {
        match data[i] {
          case None =>
          case Some(c) =>
            cs := cs[c.id := c];
            var n := AtoiName(c.id);
            if n >= next {
              next := n + 1;
            }
        }
        i := i + 1;
      }
    }

    /** `credsSlice`: the credentials in whatever order ranging over the map yields them. */
    method CredsSlice() returns (out: File, order: seq<string>)
      ensures Walks(order, cs.Keys) && out == Written(cs, order)
    {
      order := AnyOrder(cs.Keys);
      out := [];
      var i := 0;
      while i < |order|
        invariant 0 <= i <= |order|
        invariant |out| == i && forall k | 0 <= k < i :: out[k] == Some(cs[order[k]])
      {
        out := out + [Some(cs[order[i]])];
        i := i + 1;
      }
    }

    /** A failed write takes the new entry out again. */
    method DoAdd(c: Credential, write: Write) returns (got: Option<Credential>, order: seq<string>)
      modifies this
      ensures Walks(order, WithNew(old(View()), c).cs.Keys)
      ensures View() == if write == Skipped then WithNew(old(View()), c) else Add(old(View()), c, write == Done, order)
      ensures got == if write == Failed then None else Some(c.(id := NameOf(old(next) + 1)))
    {
      next := next + 1;
      var id := NameOf(next);
      var added := c.(id := id);
      cs := cs[id := added];
      var out;
      out, order := CredsSlice();
      if write == Failed {
        cs := cs - {id};
        return None, order;
      }
      if write == Done {
        file := out;
      }
      got := Some(added);
    }

    /** A failed write is reported, but memory keeps the change. */
    method DoUpdate(id: string, c: Credential, write: Write) returns (ok: bool, order: seq<string>)
      modifies this
      ensures Walks(order, old(cs).Keys) && ok == (id in old(cs) && write != Failed)
      ensures View() == IfWritten(Update(old(View()), id, c, order), old(file), write)
    {
      if id !in cs {
        order := AnyOrder(cs.Keys);
        return false, order;
      }
      ghost var before := cs.Keys;
      cs := cs[id := c.(id := id)];
      assert cs.Keys == before;
      var out;
      out, order := CredsSlice();
      if write == Done {
        file := out;
      }
      ok := write != Failed;
    }

    /** So is a failed write here. */
    method DoDelete(id: string, write: Write) returns (ok: bool, order: seq<string>)
      modifies this
      ensures Walks(order, old(cs).Keys - {id}) && ok == (id in old(cs) && write != Failed)
      ensures View() == IfWritten(Delete(old(View()), id, order), old(file), write)
    {
      if id !in cs {
        order := AnyOrder(cs.Keys - {id});
        return false, order;
      }
      cs := cs - {id};
      var out;
      out, order := CredsSlice();
      if write == Done {
        file := out;
      }
      ok := write != Failed;
    }
  }
}

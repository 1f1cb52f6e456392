/**
 * When a published client can outlive its credential: `ensureClient` reads the store before it publishes, and
 * `RemoveCredential` empties the tables before it deletes (internal/ssh/manager.go).
 */
module EnsureOrphans {
  import opened Network
  import opened EnsureClient

  /** Every published client has its credential in the store. */
  predicate Stored(s: State) {
    forall cred <- s.clients.Keys :: cred in s.creds
  }

  // ---- Calls in progress ---------------------------------------------------

  predicate EnsureRuns(t: Thread, cred: string) {
    (t.Checking? || t.Fetching? || t.Making? || t.Publishing? || t.Surplus?) && t.cred == cred
  }

  /** An `ensureClient` call that has not found or published a client yet. */
  predicate Undecided(t: Thread, cred: string) {
    EnsureRuns(t, cred) && !t.Surplus?
  }

  predicate RemoveRuns(t: Thread, cred: string) {
    (t.Taking? || t.Cancelling? || t.ShuttingDown? || t.Forgetting?) && t.cred == cred
  }

  /** A `RemoveCredential` call that has emptied the tables already. */
  predicate Emptied(t: Thread, cred: string) {
    RemoveRuns(t, cred) && !t.Taking?
  }

  /**
   * The calls in progress on one credential that can leave a client without it: a deletion beside an undecided
   * `ensureClient`, a deletion that has emptied the tables while a client is published again, and an
   * `ensureClient` that has read a credential which is gone now.
   */
  ghost predicate Racing(s: State, cred: string, e: nat, r: nat) {
    || (e in s.threads && Undecided(s.threads[e], cred) && r in s.threads && RemoveRuns(s.threads[r], cred) &&
        cred in s.creds)
    || (r in s.threads && Emptied(s.threads[r], cred) && cred in s.clients)
    || (e in s.threads && (s.threads[e].Making? || s.threads[e].Publishing?) && s.threads[e].cred == cred &&
        cred !in s.creds)
  }

  ghost predicate Danger(s: State) {
    exists cred, e, r :: Racing(s, cred, e, r)
  }

  /** Steps of calls in progress only. */
  predicate OnlyRuns(ops: seq<Op>) {
    forall op <- ops :: op.Run?
  }

  // ---- Without danger no schedule orphans a client -------------------------

  /** How one step moves a call, as far as the credential `cred` goes. */
  lemma MoverFacts(s: State, tid: nat, login: bool, cred: string)
    requires PairsInv(s) && tid in s.threads
    ensures var a, t := s.threads[tid], RunCall(s, tid, login);
            var b := t.threads[tid];
            && (EnsureRuns(b, cred) ==> EnsureRuns(a, cred))
            && (Undecided(b, cred) ==> Undecided(a, cred))
            && (RemoveRuns(b, cred) ==> RemoveRuns(a, cred))
            && (Emptied(b, cred) ==> Emptied(a, cred) || cred !in t.clients)
            && ((b.Making? || b.Publishing?) && b.cred == cred ==>
                  a.cred == cred && (a.Making? || a.Publishing? || (a.Fetching? && cred in t.creds)))
  {
  }

  lemma TableFacts(s: State, tid: nat, login: bool, cred: string)
    requires PairsInv(s) && tid in s.threads
    ensures var a, t := s.threads[tid], RunCall(s, tid, login);
            && (cred in t.creds ==> cred in s.creds)
            && (cred in s.creds && cred !in t.creds ==> a == Forgetting(cred))
            && (cred in t.clients && cred !in s.clients ==> a.Publishing? && a.cred == cred)
  {
  }

  lemma RunKeepsSafe(s: State, tid: nat, login: bool, cred: string, e: nat, r: nat)
    requires PairsInv(s) && tid in s.threads && !Danger(s)
    ensures !Racing(RunCall(s, tid, login), cred, e, r)
  {
    hide RunCall;
    RunMoves(s, tid, login);
    MoverFacts(s, tid, login, cred);
    TableFacts(s, tid, login, cred);
    assert !Racing(s, cred, e, r) && !Racing(s, cred, tid, r) && !Racing(s, cred, e, tid);
  }

  lemma RunKeepsStored(s: State, tid: nat, login: bool)
    requires PairsInv(s) && tid in s.threads && !Danger(s) && Stored(s)
    ensures Stored(RunCall(s, tid, login))
  {
    var t, c := RunCall(s, tid, login), s.threads[tid];
    assert !Racing(s, c.cred, tid, tid);
  }

  lemma {:induction false} SafeStaysStored(s: State, ops: seq<Op>)
    requires Inv(s) && Stored(s) && !Danger(s) && OnlyRuns(ops)
    ensures Stored(Exec(s, ops))
    decreases |ops|
  {
    hide RunCall, ContextsInv, ThreadsInv, Racing, Stored;
    if ops != [] {
      var op, t := ops[0], Step(s, ops[0]);
      StepKeepsInv(s, op);
      if op.tid in s.threads {
        RunKeepsStored(s, op.tid, op.login);
        forall cred, e, r ensures !Racing(t, cred, e, r) {
          RunKeepsSafe(s, op.tid, op.login, cred, e, r);
        }
      }
      SafeStaysStored(t, ops[1..]);
    }
  }

  // ---- With danger some schedule does --------------------------------------

  /** One more step in front. */
  lemma First(s: State, tid: nat, rest: seq<Op>) returns (ops: seq<Op>)
    requires s.clients.Keys == s.cancel.Keys && tid in s.threads && OnlyRuns(rest)
    ensures OnlyRuns(ops) && Exec(s, ops) == Exec(RunCall(s, tid, true), rest)
  {
    ops := [Run(tid, true)] + rest;
    assert ops[1..] == rest;
  }

  /** A deletion that goes on deletes the credential under the published client. */
  lemma RemovalOrphans(s: State, r: nat, cred: string) returns (ops: seq<Op>)
    requires PairsInv(s) && r in s.threads && Emptied(s.threads[r], cred) && cred in s.clients
    ensures OnlyRuns(ops) && !Stored(Exec(s, ops))
    decreases s.threads[r].Cancelling?, s.threads[r].ShuttingDown?
  {
    var t := RunCall(s, r, true);
    var rest := [];
    if s.threads[r].Forgetting? {
      assert !Stored(Exec(t, []));
    } else {
      rest := RemovalOrphans(t, r, cred);
    }
    hide RunCall, Exec;
    ops := First(s, r, rest);
  }

  function StepsLeft(t: Thread): nat {
    match t
    case Checking(_) => 3
    case Fetching(_) => 2
    case Making(_) => 1
    case _ => 0
  }

  /** One step of an `ensureClient` call on a credential that is stored and has no client. */
  lemma EnsureStep(s: State, e: nat, r: nat, cred: string)
    requires PairsInv(s) && e in s.threads && r in s.threads && Undecided(s.threads[e], cred)
    requires Emptied(s.threads[r], cred) && cred in s.creds && cred !in s.clients
    requires s.threads[e].Publishing? ==> ThreadFits(s, s.threads[e])
    ensures var t := RunCall(s, e, true);
            && PairsInv(t) && e in t.threads && r in t.threads && t.threads[r] == s.threads[r]
            && if s.threads[e].Publishing? then cred in t.clients
               else
                 && Undecided(t.threads[e], cred) && StepsLeft(t.threads[e]) < StepsLeft(s.threads[e])
                 && cred in t.creds && cred !in t.clients
                 && (t.threads[e].Publishing? ==> ThreadFits(t, t.threads[e]))
  {
    RunKeepsPairs(s, e, true);
  }

  /** An `ensureClient` call that goes on publishes a client, under which the deletion then takes the credential. */
  lemma EnsureOrphansIt(s: State, e: nat, r: nat, cred: string) returns (ops: seq<Op>)
    requires PairsInv(s) && e in s.threads && r in s.threads && Undecided(s.threads[e], cred)
    requires Emptied(s.threads[r], cred) && cred in s.creds && cred !in s.clients
    requires s.threads[e].Publishing? ==> ThreadFits(s, s.threads[e])
    ensures OnlyRuns(ops) && !Stored(Exec(s, ops))
    decreases StepsLeft(s.threads[e])
  {
    hide RunCall, Exec, Stored, PairsInv, Answered;
    assert s.clients.Keys == s.cancel.Keys by { SameKeys(s); }
    EnsureStep(s, e, r, cred);
    var t := RunCall(s, e, true);
    var rest;
    if s.threads[e].Publishing? {
      rest := RemovalOrphans(t, r, cred);
    } else {
      rest := EnsureOrphansIt(t, e, r, cred);
    }
    ops := First(s, e, rest);
  }

  lemma SameKeys(s: State)
    requires PairsInv(s)
    ensures s.clients.Keys == s.cancel.Keys
  {
  }

  /** A client is started for a credential that is gone, and published. */
  lemma LateOrphans(s: State, e: nat, cred: string) returns (ops: seq<Op>)
    requires s.clients.Keys == s.cancel.Keys && cred !in s.clients && cred !in s.creds
    requires e in s.threads && (s.threads[e].Making? || s.threads[e].Publishing?) && s.threads[e].cred == cred
    ensures OnlyRuns(ops) && !Stored(Exec(s, ops))
    decreases StepsLeft(s.threads[e])
  {
    var t := RunCall(s, e, true);
    var rest := [];
    if s.threads[e].Publishing? {
      assert cred in t.clients && cred !in t.creds && Exec(t, []) == t;
    } else {
      rest := LateOrphans(t, e, cred);
    }
    hide RunCall, Exec;
    ops := First(s, e, rest);
  }

  /** A deletion that has not begun empties the tables first. */
  lemma TakeStep(s: State, r: nat, cred: string, e: nat)
    requires PairsInv(s) && r in s.threads && s.threads[r] == Taking(cred)
    requires e in s.threads && Undecided(s.threads[e], cred) && ThreadFits(s, s.threads[e])
    ensures var t := RunCall(s, r, true);
            && PairsInv(t) && r in t.threads && Emptied(t.threads[r], cred)
            && cred !in t.clients && t.creds == s.creds
            && e in t.threads && t.threads[e] == s.threads[e]
            && (t.threads[e].Publishing? ==> ThreadFits(t, t.threads[e]))
  {
  }

  lemma RaceOrphans(s: State, cred: string, e: nat, r: nat) returns (ops: seq<Op>)
    requires Inv(s) && Stored(s) && Racing(s, cred, e, r)
    ensures OnlyRuns(ops) && !Stored(Exec(s, ops))
  {
    hide RunCall, Exec, ContextsInv, Answered;
    if r in s.threads && Emptied(s.threads[r], cred) && cred in s.clients {
      ops := RemovalOrphans(s, r, cred);
    } else if cred !in s.creds {
      ops := LateOrphans(s, e, cred);
    } else if Emptied(s.threads[r], cred) {
      assert ThreadFits(s, s.threads[e]);
      ops := EnsureOrphansIt(s, e, r, cred);
    } else {
      assert ThreadFits(s, s.threads[e]);
      TakeStep(s, r, cred, e);
      var rest := EnsureOrphansIt(RunCall(s, r, true), e, r, cred);
      ops := First(s, r, rest);
    }
  }

  /**
   * From any reachable state in which every published client has its credential, some schedule of the calls in
   * progress leaves a client without its credential exactly when two of them race.
   */
  lemma OrphanPossibleIff(s: State)
    requires Inv(s) && Stored(s)
    ensures (exists ops :: OnlyRuns(ops) && !Stored(Exec(s, ops))) <==> Danger(s)
  {
    hide Stored, Racing, Exec, ContextsInv, ThreadsInv;
    if cred, e, r :| Racing(s, cred, e, r) {
      var ops := RaceOrphans(s, cred, e, r);
    } else {
      forall ops | OnlyRuns(ops) ensures Stored(Exec(s, ops)) {
        SafeStaysStored(s, ops);
      }
    }
  }

  // ---- Keeping the calls apart ---------------------------------------------

  /** The call is not made while a call of the other kind on the same credential is in progress. */
  ghost predicate Serial(s: State, op: Op) {
    match op
    case CallEnsure(_, cred) => forall r <- s.threads.Keys :: !RemoveRuns(s.threads[r], cred)
    case CallRemove(_, cred) => forall e <- s.threads.Keys :: !EnsureRuns(s.threads[e], cred)
    case _ => true
  }

  ghost predicate SerialRun(s: State, ops: seq<Op>)
    requires s.clients.Keys == s.cancel.Keys
    decreases |ops|
  {
    ops == [] || (Serial(s, ops[0]) && SerialRun(Step(s, ops[0]), ops[1..]))
  }

  ghost predicate Apart(s: State) {
    forall cred, e, r | e in s.threads && r in s.threads && EnsureRuns(s.threads[e], cred) ::
      !RemoveRuns(s.threads[r], cred)
  }

  lemma RunKeepsApart(s: State, tid: nat, login: bool, cred: string, e: nat, r: nat)
    requires PairsInv(s) && tid in s.threads && Apart(s)
    requires var t := RunCall(s, tid, login);
             e in t.threads && r in t.threads && EnsureRuns(t.threads[e], cred)
    ensures !RemoveRuns(RunCall(s, tid, login).threads[r], cred)
  {
    hide RunCall;
    RunMoves(s, tid, login);
    MoverFacts(s, tid, login, cred);
  }

  lemma CallKeepsSafe(s: State, op: Op)
    requires PairsInv(s) && Apart(s) && !Danger(s) && Stored(s) && Serial(s, op) && !op.Run?
    ensures Apart(Step(s, op)) && !Danger(Step(s, op)) && Stored(Step(s, op))
  {
    ArrivalFacts(s, op);
    hide Held;
    var t := Step(s, op);
    assert Apart(t);
    forall cred, e, r ensures !Racing(t, cred, e, r) {
      assert !Racing(s, cred, e, r);
    }
  }

  lemma StepKeepsSafe(s: State, op: Op)
    requires Inv(s) && Apart(s) && !Danger(s) && Stored(s) && Serial(s, op)
    ensures Apart(Step(s, op)) && !Danger(Step(s, op)) && Stored(Step(s, op))
  {
    hide RunCall, ContextsInv, ThreadsInv, Racing, Stored;
    if !op.Run? {
      CallKeepsSafe(s, op);
    } else if op.tid in s.threads {
      var t := RunCall(s, op.tid, op.login);
      RunKeepsStored(s, op.tid, op.login);
      forall cred, e, r ensures !Racing(t, cred, e, r) {
        RunKeepsSafe(s, op.tid, op.login, cred, e, r);
      }
      forall cred, e, r | e in t.threads && r in t.threads && EnsureRuns(t.threads[e], cred)
        ensures !RemoveRuns(t.threads[r], cred)
      {
        RunKeepsApart(s, op.tid, op.login, cred, e, r);
      }
    }
  }

  lemma {:induction false} SerialKeepsSafe(s: State, ops: seq<Op>)
    requires Inv(s) && Apart(s) && !Danger(s) && Stored(s) && SerialRun(s, ops)
    ensures Stored(Exec(s, ops)) && !Danger(Exec(s, ops))
    decreases |ops|
  {
    hide Step, ContextsInv, ThreadsInv, Racing, Stored, Apart, Serial;
    if ops != [] {
      StepKeepsInv(s, ops[0]);
      StepKeepsSafe(s, ops[0]);
      SerialKeepsSafe(Step(s, ops[0]), ops[1..]);
    }
  }

  /**
   * In every run in which no `ensureClient` call is made while a `RemoveCredential` call on its credential is in
   * progress, nor the other way round, every published client has its credential, and no schedule of the calls
   * in progress can change that.
   */
  lemma SerialRunStaysStored(ops: seq<Op>)
    requires SerialRun(START, ops)
    ensures Stored(Exec(START, ops))
    ensures forall more | OnlyRuns(more) :: Stored(Exec(Exec(START, ops), more))
  {
    StartInv();
    assert Apart(START) && !Danger(START);
    hide Step, Exec, ContextsInv, ThreadsInv, Racing, Stored, SerialRun;
    SerialKeepsSafe(START, ops);
    ExecKeepsInv(START, ops);
    forall more | OnlyRuns(more) ensures Stored(Exec(Exec(START, ops), more)) {
      SafeStaysStored(Exec(START, ops), more);
    }
  }

  /**
   * A new call on a stored credential makes a safe state unsafe exactly when it overlaps with a call of the other
   * kind on that credential; an `ensureClient` call that has found its client no longer counts.
   */
  lemma OverlapEndangersIff(s: State, op: Op)
    requires Inv(s) && !Danger(s) && (op.CallEnsure? || op.CallRemove?) && op.tid !in s.threads && op.cred in s.creds
    ensures Danger(Step(s, op)) <==>
            if op.CallEnsure? then exists r :: r in s.threads && RemoveRuns(s.threads[r], op.cred)
            else exists e :: e in s.threads && Undecided(s.threads[e], op.cred)
  {
    ArrivalFacts(s, op);
    hide Held, ContextsInv, ThreadsInv;
    var t := Step(s, op);
    if op.CallEnsure? {
      if r :| r in s.threads && RemoveRuns(s.threads[r], op.cred) {
        assert Racing(t, op.cred, op.tid, r);
      }
    } else {
      if e :| e in s.threads && Undecided(s.threads[e], op.cred) {
        assert Racing(t, op.cred, e, op.tid);
      }
    }
    if cred, e, r :| Racing(t, cred, e, r) {
      assert !Racing(s, cred, e, r);
    }
  }

  // ---- A run that orphans a client -----------------------------------------

  /** One credential is stored and call 0 stands at `t`, having started nothing yet. */
  function Begun(cred: string, t: Thread): State {
    START.(creds := {cred}, threads := map[0 := t])
  }

  lemma AboutToMake(cred: string) returns (ops: seq<Op>)
    ensures Exec(START, ops) == Begun(cred, Making(cred))
  {
    assert Exec(START, []) == START;
    hide Exec;
    ops := Then([], StoreCredential(cred));
    ops := Then(ops, CallEnsure(0, cred));
    assert Exec(START, ops) == Begun(cred, Checking(cred));
    ops := Then(ops, Run(0, true));
    assert Exec(START, ops) == Begun(cred, Fetching(cred));
    ops := Then(ops, Run(0, true));
  }

  /** Call 0 has started a client. */
  lemma AboutToPublish(cred: string) returns (ops: seq<Op>)
    ensures Exec(START, ops) == State(map[], map[], {cred}, 1, map[0 := 0], multiset{}, Create(EMPTY_LEDGER), {},
                                      map[0 := Publishing(cred, 0, 0)])
  {
    hide Exec;
    ops := AboutToMake(cred);
    ops := Then(ops, Run(0, true));
  }

  /** Then call 1 deletes the credential. */
  lemma DeletedMeanwhile(cred: string) returns (ops: seq<Op>)
    ensures var s := Exec(START, ops);
            && s.threads == map[0 := Publishing(cred, 0, 0), 1 := Removed(cred, true)]
            && s.clients == map[] && s.creds == {}
  {
    hide Exec;
    ops := AboutToPublish(cred);
    ops := Then(ops, CallRemove(1, cred));
    ops := Then(ops, Run(1, true));
    ops := Then(ops, Run(1, true));
  }

  /** A run that ends with all calls returned and a client published for a credential that is no longer stored. */
  lemma ClientOutlivesCredential(cred: string) returns (ops: seq<Op>)
    ensures var s := Exec(START, ops);
            (forall tid <- s.threads.Keys :: Finished(s.threads[tid])) && cred in s.clients && cred !in s.creds
  {
    ops := DeletedMeanwhile(cred);
    hide Exec;
    ops := Then(ops, Run(0, true));
  }
}

/**
 * Creating and tearing down SSH clients under concurrency (internal/ssh/manager.go): any number of
 * `ensureClient` and `RemoveCredential` calls, interleaved at every point where they release the lock.
 */
module EnsureClient {
  import opened Common
  import opened Network
  import M = Manager
  import C = Credentials

  /** Where one call stands. The numbers are clients (`cl`) and the contexts they run under (`ctx`). */
  datatype Thread =
    // ensureClient
    | Checking(cred: string)                          // before the first look into the table
    | Fetching(cred: string)                          // none there; before reading the store
    | Making(cred: string)                            // has the credential; before starting a client
    | Publishing(cred: string, cl: nat, ctx: nat)     // started one; before the second look
    | Surplus(cred: string, ctx: nat, found: nat)     // another call was first; before cancelling its own
    | Got(cred: string, cl: nat)
    | GotNone(cred: string)
    // RemoveCredential
    | Taking(cred: string)                            // before taking the client out of the tables
    | Cancelling(cred: string, cl: nat, ctx: nat)     // before cd()
    | ShuttingDown(cred: string, cl: nat)
    | Forgetting(cred: string)                        // before deleting the credential
    | Removed(cred: string, ok: bool)

  /**
   * `runs` says under which context each client was started; `shut` counts the Shutdown calls. `published` is history:
   * every credential and client that ever were in the table together.
   */
  datatype State = State(
    clients: map<string, nat>,
    cancel: map<string, nat>,
    creds: set<string>,
    made: nat,
    runs: map<nat, nat>,
    shut: multiset<nat>,
    ctxs: Ledger,
    published: set<(string, nat)>,
    threads: map<nat, Thread>)

  const START := State(map[], map[], {}, 0, map[], multiset{}, EMPTY_LEDGER, {}, map[])

  datatype Op =
    | CallEnsure(tid: nat, cred: string)
    | CallRemove(tid: nat, cred: string)
    | StoreCredential(cred: string)
    | Run(tid: nat, login: bool)     // one step of a call; `login` is whether the credential can be used

  function At(s: State, tid: nat, t: Thread): State {
    s.(threads := s.threads[tid := t])
  }

  /** The first look into the table. */
  function Look(s: State, tid: nat, cred: string): State {
    At(s, tid, if cred in s.clients then Got(cred, s.clients[cred]) else Fetching(cred))
  }

  /** A client is started under a context of its own. */
  function Make(s: State, tid: nat, cred: string): State {
    At(s.(made := s.made + 1, runs := s.runs[s.made := s.ctxs.next], ctxs := Create(s.ctxs)), tid,
       Publishing(cred, s.made, s.ctxs.next))
  }

  /** The second look: the client of whoever was first stays. */
  function Publish(s: State, tid: nat, cred: string, cl: nat, ctx: nat): State {
    if cred in s.clients then At(s, tid, Surplus(cred, ctx, s.clients[cred]))
    else
      At(s.(clients := s.clients[cred := cl], cancel := s.cancel[cred := ctx], published := s.published + {(cred, cl)}),
         tid, Got(cred, cl))
  }

  function Take(s: State, tid: nat, cred: string): State
    requires s.clients.Keys == s.cancel.Keys
  {
    At(s.(clients := s.clients - {cred}, cancel := s.cancel - {cred}), tid,
       if cred in s.clients then Cancelling(cred, s.clients[cred], s.cancel[cred]) else Forgetting(cred))
  }

  /** One step of call `tid`, which stands at `t`; a call that has returned stays there. */
  function RunFrom(s: State, tid: nat, t: Thread, login: bool): (u: State)
    requires s.clients.Keys == s.cancel.Keys
    ensures u.clients.Keys == u.cancel.Keys && tid in u.threads
  {
    match t
    case Checking(cred) => Look(s, tid, cred)
    case Fetching(cred) => At(s, tid, if cred in s.creds then Making(cred) else GotNone(cred))
    case Making(cred) => if login then Make(s, tid, cred) else At(s, tid, GotNone(cred))
    case Publishing(cred, cl, ctx) => Publish(s, tid, cred, cl, ctx)
    case Surplus(cred, ctx, found) => At(s.(ctxs := Release(s.ctxs, ctx)), tid, Got(cred, found))
    case Taking(cred) => Take(s, tid, cred)
    case Cancelling(cred, cl, ctx) => At(s.(ctxs := Release(s.ctxs, ctx)), tid, ShuttingDown(cred, cl))
    case ShuttingDown(cred, cl) => At(s.(shut := s.shut + multiset{cl}), tid, Forgetting(cred))
    case Forgetting(cred) => At(s.(creds := s.creds - {cred}), tid, Removed(cred, cred in s.creds))
    case _ => At(s, tid, t)
  }

  function RunCall(s: State, tid: nat, login: bool): (u: State)
    requires tid in s.threads && s.clients.Keys == s.cancel.Keys
    ensures u.clients.Keys == u.cancel.Keys && tid in u.threads
  {
    RunFrom(s, tid, s.threads[tid], login)
  }

  /** Steps that are not enabled change nothing. */
  function Step(s: State, op: Op): (t: State)
    requires s.clients.Keys == s.cancel.Keys
    ensures t.clients.Keys == t.cancel.Keys
  {
    match op
    case CallEnsure(tid, cred) => if tid in s.threads then s else At(s, tid, Checking(cred))
    case CallRemove(tid, cred) => if tid in s.threads then s else At(s, tid, Taking(cred))
    case StoreCredential(cred) => s.(creds := s.creds + {cred})
    case Run(tid, login) => if tid in s.threads then RunCall(s, tid, login) else s
  }

  function Exec(s: State, ops: seq<Op>): (t: State)
    requires s.clients.Keys == s.cancel.Keys
    ensures t.clients.Keys == t.cancel.Keys
    decreases |ops|
  {
    if ops == [] then s else Exec(Step(s, ops[0]), ops[1..])
  }

  // ---- Who answers for a context -------------------------------------------

  /** A call answers for a context between starting and publishing or cancelling, and between taking and `cd()`. */
  predicate Holding(t: Thread) {
    t.Publishing? || t.Surplus? || t.Cancelling?
  }

  function Held(threads: map<nat, Thread>): map<nat, nat> {
    map tid | tid in threads && Holding(threads[tid]) :: threads[tid].ctx
  }

  /** A context belongs to one entry of the `cancel` table or to one call; every other one was cancelled once. */
  ghost predicate ContextsInv(s: State) {
    && Owns(s.cancel, s.cancel.Values)
    && Owns(Held(s.threads), Held(s.threads).Values)
    && s.cancel.Values !! Held(s.threads).Values
    && Balanced(s.ctxs, s.cancel.Values + Held(s.threads).Values)
  }

  /** The tables pair each client with the context it runs under. */
  ghost predicate PairsInv(s: State) {
    && s.clients.Keys == s.cancel.Keys
    && (forall cl <- s.runs.Keys :: cl < s.made && s.runs[cl] < s.ctxs.next)
    && (forall cred <- s.clients.Keys :: s.clients[cred] in s.runs && s.runs[s.clients[cred]] == s.cancel[cred])
    && (forall cred <- s.clients.Keys :: (cred, s.clients[cred]) in s.published)
    && Injective(s.runs)
  }

  ghost predicate ThreadsInv(s: State) {
    forall tid <- s.threads.Keys :: ThreadFits(s, s.threads[tid])
  }

  ghost predicate ThreadFits(s: State, t: Thread) {
    match t
    case Publishing(_, cl, ctx) => cl in s.runs && s.runs[cl] == ctx
    case Cancelling(_, cl, ctx) => cl in s.runs && s.runs[cl] == ctx
    case Surplus(cred, _, found) => Answered(s, cred, found)
    case Got(cred, cl) => Answered(s, cred, cl)
    case _ => true
  }

  /**
   * Client `cl` was published under `cred`, and is so still, or its context is cancelled, or a RemoveCredential call
   * is about to cancel it.
   */
  ghost predicate Answered(s: State, cred: string, cl: nat) {
    && cl in s.runs && (cred, cl) in s.published
    && (|| (cred in s.clients && s.clients[cred] == cl)
        || s.ctxs.closed[s.runs[cl]] > 0
        || exists tid :: tid in s.threads && s.threads[tid] == Cancelling(cred, cl, s.runs[cl]))
  }

  ghost predicate Inv(s: State) {
    ContextsInv(s) && PairsInv(s) && ThreadsInv(s)
  }

  // ---- How ownership moves -------------------------------------------------

  lemma HeldAt(threads: map<nat, Thread>, tid: nat, t: Thread)
    ensures Held(threads[tid := t]) == if Holding(t) then Held(threads)[tid := t.ctx] else Held(threads) - {tid}
  {
  }

  lemma OwnsDrop<K(!new)>(m: map<K, nat>, k: K)
    requires Injective(m) && k in m
    ensures Owns(m - {k}, (m - {k}).Values) && (m - {k}).Values == m.Values - {m[k]} && m[k] in m.Values
  {
    OwnsRemove(m, m.Values, k);
  }

  lemma OwnsPut<K(!new)>(m: map<K, nat>, k: K, h: nat)
    requires Injective(m) && k !in m && h !in m.Values
    ensures Owns(m[k := h], m[k := h].Values) && m[k := h].Values == m.Values + {h}
  {
    OwnsInsert(m, m.Values, k, h);
  }

  /** A call that answers for nothing before and after leaves ownership alone. */
  lemma IdleStep(s: State, t: State, tid: nat)
    requires ContextsInv(s) && tid in t.threads && t.threads == s.threads[tid := t.threads[tid]]
    requires tid in s.threads ==> !Holding(s.threads[tid])
    requires !Holding(t.threads[tid]) && t.cancel == s.cancel && t.ctxs == s.ctxs
    ensures ContextsInv(t)
  {
    HeldAt(s.threads, tid, t.threads[tid]);
    assert Held(s.threads) - {tid} == Held(s.threads);
  }

  lemma MakeKeepsContexts(s: State, tid: nat, cred: string)
    requires ContextsInv(s) && tid in s.threads && !Holding(s.threads[tid])
    ensures ContextsInv(Make(s, tid, cred))
  {
    var h := s.ctxs.next;
    HeldAt(s.threads, tid, Publishing(cred, s.made, h));
    CreateBalanced(s.ctxs, s.cancel.Values + Held(s.threads).Values);
    OwnsPut(Held(s.threads), tid, h);
    assert s.cancel.Values + Held(s.threads).Values + {h} == s.cancel.Values + (Held(s.threads).Values + {h});
  }

  /** Publishing moves the context from the call to the table. */
  lemma PublishKeepsContexts(s: State, tid: nat)
    requires ContextsInv(s) && tid in s.threads && s.threads[tid].Publishing? && s.clients.Keys == s.cancel.Keys
    ensures var p := s.threads[tid]; ContextsInv(Publish(s, tid, p.cred, p.cl, p.ctx))
  {
    var p := s.threads[tid];
    var t := Publish(s, tid, p.cred, p.cl, p.ctx);
    var held := Held(s.threads);
    HeldAt(s.threads, tid, t.threads[tid]);
    assert held[tid] == p.ctx;
    if p.cred in s.clients {
      assert held[tid := p.ctx] == held;
    } else {
      OwnsDrop(held, tid);
      OwnsPut(s.cancel, p.cred, p.ctx);
      assert t.cancel.Values + Held(t.threads).Values == s.cancel.Values + held.Values;
    }
  }

  /** Taking moves it from the table to the call. */
  lemma TakeKeepsContexts(s: State, tid: nat, cred: string)
    requires ContextsInv(s) && tid in s.threads && !Holding(s.threads[tid]) && s.clients.Keys == s.cancel.Keys
    ensures ContextsInv(Take(s, tid, cred))
  {
    var t := Take(s, tid, cred);
    var held := Held(s.threads);
    HeldAt(s.threads, tid, t.threads[tid]);
    if cred in s.clients {
      OwnsDrop(s.cancel, cred);
      OwnsPut(held, tid, s.cancel[cred]);
      assert t.cancel.Values + Held(t.threads).Values == s.cancel.Values + held.Values;
    } else {
      assert s.cancel - {cred} == s.cancel && held - {tid} == held;
    }
  }

  /** Cancelling is the one step that closes a context, and only the call's own. */
  lemma CancelKeepsContexts(s: State, tid: nat, t: Thread)
    requires ContextsInv(s) && tid in s.threads && Holding(s.threads[tid]) && !Holding(t)
    ensures ContextsInv(At(s.(ctxs := Release(s.ctxs, s.threads[tid].ctx)), tid, t))
  {
    var held, ctx := Held(s.threads), s.threads[tid].ctx;
    HeldAt(s.threads, tid, t);
    OwnsDrop(held, tid);
    ReleaseBalanced(s.ctxs, s.cancel.Values + held.Values, ctx);
    assert s.cancel.Values + held.Values - {ctx} == s.cancel.Values + (held.Values - {ctx});
  }

  lemma RunKeepsContexts(s: State, tid: nat, login: bool)
    requires Inv(s) && tid in s.threads
    ensures ContextsInv(RunCall(s, tid, login))
  {
    var t := RunCall(s, tid, login);
    match s.threads[tid]
    case Making(cred) =>
      if login { MakeKeepsContexts(s, tid, cred); } else { IdleStep(s, t, tid); }
    case Publishing(cred, cl, ctx) => PublishKeepsContexts(s, tid);
    case Surplus(cred, ctx, found) => CancelKeepsContexts(s, tid, Got(cred, found));
    case Taking(cred) => TakeKeepsContexts(s, tid, cred);
    case Cancelling(cred, cl, ctx) => CancelKeepsContexts(s, tid, ShuttingDown(cred, cl));
    case _ => IdleStep(s, t, tid);
  }

  // ---- Which client a call ends up with ------------------------------------

  /** A step moves one call only. */
  lemma RunMoves(s: State, tid: nat, login: bool)
    requires s.clients.Keys == s.cancel.Keys && tid in s.threads
    ensures var t := RunCall(s, tid, login);
            t.threads == s.threads[tid := t.threads[tid]]
  {
    hide Release, Create;
    match s.threads[tid]
    case Publishing(_, _, _) =>
    case Taking(_) =>
    case Making(_) =>
    case _ =>
  }

  /** A client runs under the context it was started with. */
  lemma RunStarts(s: State, tid: nat, login: bool)
    requires s.clients.Keys == s.cancel.Keys && tid in s.threads
    ensures var t := RunCall(s, tid, login);
            forall cl <- s.runs.Keys | cl < s.made :: cl in t.runs && t.runs[cl] == s.runs[cl]
  {
  }

  lemma RunKeepsHistory(s: State, tid: nat, login: bool)
    requires s.clients.Keys == s.cancel.Keys && tid in s.threads
    ensures s.published <= RunCall(s, tid, login).published
  {
  }

  /** Contexts stay cancelled, and `cd()` cancels its own. */
  lemma RunCancels(s: State, tid: nat, login: bool, ctx: nat)
    requires s.clients.Keys == s.cancel.Keys && tid in s.threads
    ensures s.ctxs.closed[ctx] <= RunCall(s, tid, login).ctxs.closed[ctx]
    ensures s.threads[tid].Cancelling? && s.threads[tid].ctx == ctx ==> RunCall(s, tid, login).ctxs.closed[ctx] > 0
  {
  }

  /** The only way for a client to leave the table is into the hands of a RemoveCredential call. */
  lemma RunTakes(s: State, tid: nat, login: bool, cred: string)
    requires s.clients.Keys == s.cancel.Keys && tid in s.threads && cred in s.clients
    ensures var t := RunCall(s, tid, login);
            || (cred in t.clients && t.clients[cred] == s.clients[cred])
            || t.threads[tid] == Cancelling(cred, s.clients[cred], s.cancel[cred])
  {
  }

  /** What was answered stays answered, whatever step is taken. */
  lemma StaysAnswered(s: State, tid: nat, login: bool, cred: string, cl: nat)
    requires PairsInv(s) && tid in s.threads && Answered(s, cred, cl)
    ensures Answered(RunCall(s, tid, login), cred, cl)
  {
    hide RunCall, ThreadFits;
    RunMoves(s, tid, login);
    RunStarts(s, tid, login);
    RunCancels(s, tid, login, s.runs[cl]);
    RunKeepsHistory(s, tid, login);
    var t := RunCall(s, tid, login);
    if cred in s.clients && s.clients[cred] == cl {
      RunTakes(s, tid, login, cred);
    } else if s.ctxs.closed[s.runs[cl]] == 0 {
      var w :| w in s.threads && s.threads[w] == Cancelling(cred, cl, s.runs[cl]);
      assert w != tid ==> t.threads[w] == s.threads[w];
    }
  }

  lemma StaysFit(s: State, tid: nat, login: bool, u: Thread)
    requires PairsInv(s) && tid in s.threads && ThreadFits(s, u)
    ensures ThreadFits(RunCall(s, tid, login), u)
  {
    match u
    case Surplus(cred, _, found) => StaysAnswered(s, tid, login, cred, found);
    case Got(cred, cl) => StaysAnswered(s, tid, login, cred, cl);
    case _ =>
  }

  lemma MoverFits(s: State, tid: nat, login: bool)
    requires Inv(s) && tid in s.threads
    ensures ThreadFits(RunCall(s, tid, login), RunCall(s, tid, login).threads[tid])
  {
    var t := RunCall(s, tid, login);
    match s.threads[tid]
    case Surplus(cred, ctx, found) =>
      StaysAnswered(s, tid, login, cred, found);
    case Got(_, _) => StaysFit(s, tid, login, s.threads[tid]);
    case Publishing(cred, cl, ctx) =>
      assert cl in t.runs;
    case _ =>
  }

  lemma RunKeepsRuns(s: State, tid: nat, login: bool)
    requires PairsInv(s) && tid in s.threads
    ensures var t := RunCall(s, tid, login);
            (forall cl <- t.runs.Keys :: cl < t.made && t.runs[cl] < t.ctxs.next) && Injective(t.runs)
  {
    match s.threads[tid]
    case Making(_) =>
    case Publishing(_, _, _) =>
    case Taking(_) =>
    case _ =>
  }

  lemma RunKeepsTables(s: State, tid: nat, login: bool)
    requires PairsInv(s) && tid in s.threads && ThreadFits(s, s.threads[tid])
    ensures var t := RunCall(s, tid, login);
            forall cred <- t.clients.Keys ::
              && t.clients[cred] in t.runs && t.runs[t.clients[cred]] == t.cancel[cred]
              && (cred, t.clients[cred]) in t.published
  {
    hide Answered, Release;
    match s.threads[tid]
    case Making(_) =>
    case Publishing(_, _, _) =>
    case Taking(_) =>
    case _ =>
  }

  lemma RunKeepsPairs(s: State, tid: nat, login: bool)
    requires PairsInv(s) && tid in s.threads && ThreadFits(s, s.threads[tid])
    ensures PairsInv(RunCall(s, tid, login))
  {
    hide RunCall, ThreadFits;
    RunKeepsRuns(s, tid, login);
    RunKeepsTables(s, tid, login);
  }

  lemma RunKeepsClients(s: State, tid: nat, login: bool)
    requires Inv(s) && tid in s.threads
    ensures PairsInv(RunCall(s, tid, login)) && ThreadsInv(RunCall(s, tid, login))
  {
    var t := RunCall(s, tid, login);
    RunMoves(s, tid, login);
    RunKeepsPairs(s, tid, login);
    MoverFits(s, tid, login);
    forall w | w in t.threads ensures ThreadFits(t, t.threads[w]) {
      if w != tid {
        StaysFit(s, tid, login, s.threads[w]);
      }
    }
    hide RunCall, ThreadFits;
  }

  lemma ArrivalFacts(s: State, op: Op)
    requires s.clients.Keys == s.cancel.Keys && !op.Run?
    ensures var t := Step(s, op);
            && t == s.(threads := t.threads, creds := t.creds)
            && (forall w <- s.threads.Keys :: w in t.threads && t.threads[w] == s.threads[w])
            && (forall w <- t.threads.Keys | w !in s.threads :: t.threads[w].Checking? || t.threads[w].Taking?)
            && Held(t.threads) == Held(s.threads)
  {
  }

  lemma ArrivalFits(s: State, op: Op, u: Thread)
    requires s.clients.Keys == s.cancel.Keys && !op.Run? && ThreadFits(s, u)
    ensures ThreadFits(Step(s, op), u)
  {
    ArrivalFacts(s, op);
    hide Step, Held;
  }

  /** A new call, or a new credential. */
  lemma ArrivalKeepsInv(s: State, op: Op)
    requires Inv(s) && !op.Run?
    ensures Inv(Step(s, op))
  {
    var t := Step(s, op);
    ArrivalFacts(s, op);
    forall w | w in t.threads ensures ThreadFits(t, t.threads[w]) {
      if w in s.threads {
        ArrivalFits(s, op, s.threads[w]);
      }
    }
    hide Step, Held, ThreadFits;
  }

  lemma StepKeepsInv(s: State, op: Op)
    requires Inv(s)
    ensures Inv(Step(s, op))
  {
    if !op.Run? {
      ArrivalKeepsInv(s, op);
    } else if op.tid in s.threads {
      RunKeepsContexts(s, op.tid, op.login);
      RunKeepsClients(s, op.tid, op.login);
    }
  }

  lemma {:induction false} ExecKeepsInv(s: State, ops: seq<Op>)
    requires Inv(s)
    ensures Inv(Exec(s, ops))
    decreases |ops|
  {
    if ops != [] {
      StepKeepsInv(s, ops[0]);
      ExecKeepsInv(Step(s, ops[0]), ops[1..]);
    }
  }

  lemma StartInv()
    ensures Inv(START)
  {
    assert Held(map[]) == map[];
  }

  // ---- Main results --------------------------------------------------------

  predicate Finished(t: Thread) {
    t.Got? || t.GotNone? || t.Removed?
  }

  predicate Live(s: State, ctx: nat) {
    ctx < s.ctxs.next && s.ctxs.closed[ctx] == 0
  }

  /** How many owners a context has: entries of the `cancel` table and calls that answer for it. */
  ghost predicate OneOwner(s: State, ctx: nat) {
    if ctx in s.cancel.Values then
      forall tid <- s.threads.Keys :: !(Holding(s.threads[tid]) && s.threads[tid].ctx == ctx)
    else
      exists tid :: tid in s.threads && Holding(s.threads[tid]) && s.threads[tid].ctx == ctx &&
        forall w <- s.threads.Keys :: Holding(s.threads[w]) && s.threads[w].ctx == ctx ==> w == tid
  }

  /**
   * In every interleaving, a context is started and not cancelled exactly when it is in the `cancel` table or
   * some call answers for it; then it has just one such owner, and no context is ever cancelled twice. The two
   * tables have the same keys, and the context under a credential is the one its published client runs under.
   */
  lemma NoLeakedClient(ops: seq<Op>)
    ensures var s := Exec(START, ops);
            && (forall ctx: nat :: Live(s, ctx) <==> ctx in s.cancel.Values + Held(s.threads).Values)
            && (forall ctx: nat | Live(s, ctx) :: OneOwner(s, ctx))
            && (forall ctx: nat :: s.ctxs.closed[ctx] <= 1)
            && s.clients.Keys == s.cancel.Keys && Injective(s.cancel)
            && (forall cred <- s.clients.Keys :: s.clients[cred] in s.runs && s.runs[s.clients[cred]] == s.cancel[cred])
  {
    StartInv();
    ExecKeepsInv(START, ops);
    var s := Exec(START, ops);
    forall ctx: nat | Live(s, ctx) ensures OneOwner(s, ctx) {
      OwnerIsAlone(s, ctx);
    }
  }

  lemma OwnerIsAlone(s: State, ctx: nat)
    requires ContextsInv(s) && Live(s, ctx)
    ensures OneOwner(s, ctx)
  {
    var held := Held(s.threads);
    if ctx in s.cancel.Values {
      forall tid | tid in s.threads && Holding(s.threads[tid]) ensures s.threads[tid].ctx != ctx {
        assert held[tid] in held.Values;
      }
    } else {
      assert ctx in held.Values;
      var tid :| tid in held && held[tid] == ctx;
      forall w | w in s.threads && Holding(s.threads[w]) && s.threads[w].ctx == ctx ensures w == tid {
        assert held[w] == held[tid];
      }
    }
  }

  /**
   * Once every call has returned, the clients whose contexts are not cancelled are exactly the published ones, each
   * under a context of its own and under one credential.
   */
  lemma QuietMeansPublished(ops: seq<Op>)
    ensures var s := Exec(START, ops);
            (forall tid <- s.threads.Keys :: Finished(s.threads[tid])) ==>
              && (forall cl <- s.runs.Keys :: Live(s, s.runs[cl]) <==> cl in s.clients.Values)
              && Injective(s.runs) && Injective(s.clients)
  {
    hide Exec;
    StartInv();
    ExecKeepsInv(START, ops);
    var s := Exec(START, ops);
    if forall tid <- s.threads.Keys :: Finished(s.threads[tid]) {
      assert Held(s.threads) == map[];
      LiveIsPublished(s);
    }
  }

  lemma LiveIsPublished(s: State)
    requires Inv(s) && Held(s.threads) == map[]
    ensures (forall cl <- s.runs.Keys :: Live(s, s.runs[cl]) <==> cl in s.clients.Values) && Injective(s.clients)
  {
    hide ThreadsInv;
    assert Held(s.threads).Values == {};
    forall cl | cl in s.runs ensures Live(s, s.runs[cl]) <==> cl in s.clients.Values {
      if s.runs[cl] in s.cancel.Values {
        var cred :| cred in s.cancel && s.cancel[cred] == s.runs[cl];
        assert s.clients[cred] == cl;
      }
      if cred :| cred in s.clients && s.clients[cred] == cl {
        assert s.cancel[cred] in s.cancel.Values;
      }
    }
  }

  /**
   * A client that `ensureClient` returns was published under the credential, and is so still, or its context is
   * cancelled or about to be by a RemoveCredential call: a caller never gets a client that lost the race.
   */
  lemma ReturnedClientWasPublished(ops: seq<Op>, tid: nat)
    ensures var s := Exec(START, ops);
            tid in s.threads && s.threads[tid].Got? ==> Answered(s, s.threads[tid].cred, s.threads[tid].cl)
  {
    StartInv();
    ExecKeepsInv(START, ops);
    var s := Exec(START, ops);
    assert tid in s.threads ==> ThreadFits(s, s.threads[tid]);
  }

  // ---- Longer runs ---------------------------------------------------------

  lemma {:induction false} ExecConcat(s: State, p: seq<Op>, q: seq<Op>)
    requires s.clients.Keys == s.cancel.Keys
    ensures Exec(s, p + q) == Exec(Exec(s, p), q)
    decreases |p|
  {
    if p == [] {
      assert p + q == q;
    } else {
      assert (p + q)[1..] == p[1..] + q;
      ExecConcat(Step(s, p[0]), p[1..], q);
    }
  }

  /** A run longer by one step. */
  lemma Then(ops: seq<Op>, op: Op) returns (longer: seq<Op>)
    ensures Exec(START, longer) == Step(Exec(START, ops), op)
  {
    longer := ops + [op];
    ExecConcat(START, ops, [op]);
    assert Exec(Exec(START, ops), [op]) == Exec(Step(Exec(START, ops), op), []);
  }

  // ---- Calls that run alone ------------------------------------------------

  /** The interleaved machine stands where the manager does, as far as clients and contexts go. */
  ghost predicate Mirrors(s: State, m: M.State) {
    && s.clients.Keys == m.clients.Keys == s.cancel.Keys
    && s.cancel == m.cancel && s.ctxs == m.ctxs && s.creds == m.store.cs.Keys
  }

  /** A call's steps overwrite where it stood. */
  lemma RunAt(s: State, tid: nat, t: Thread, login: bool)
    requires s.clients.Keys == s.cancel.Keys
    ensures RunCall(At(s, tid, t), tid, login) == RunFrom(s, tid, t, login)
  {
    hide Release, Create;
    assert forall u {:trigger s.threads[tid := u]} :: s.threads[tid := t][tid := u] == s.threads[tid := u];
  }

  /** The state after call `tid` has taken four steps in a row. */
  function FourSteps(s: State, tid: nat, login: bool): State
    requires tid in s.threads && s.clients.Keys == s.cancel.Keys
  {
    RunCall(RunCall(RunCall(RunCall(s, tid, login), tid, login), tid, login), tid, login)
  }

  lemma EnsureSteps(s: State, tid: nat, cred: string, login: bool)
    requires s.clients.Keys == s.cancel.Keys
    ensures FourSteps(At(s, tid, Checking(cred)), tid, login) ==
            if cred in s.clients then At(s, tid, Got(cred, s.clients[cred]))
            else if cred in s.creds && login then
              var made := s.(made := s.made + 1, runs := s.runs[s.made := s.ctxs.next], ctxs := Create(s.ctxs));
              At(made.(clients := s.clients[cred := s.made], cancel := s.cancel[cred := s.ctxs.next],
                       published := s.published + {(cred, s.made)}), tid, Got(cred, s.made))
            else At(s, tid, GotNone(cred))
  {
    hide RunCall, At;
    RunAt(s, tid, Checking(cred), login);
    if cred in s.clients {
      RunAt(s, tid, Got(cred, s.clients[cred]), login);
    } else {
      RunAt(s, tid, Fetching(cred), login);
      RunAt(s, tid, GotNone(cred), login);
      if cred in s.creds {
        RunAt(s, tid, Making(cred), login);
        var made := s.(made := s.made + 1, runs := s.runs[s.made := s.ctxs.next], ctxs := Create(s.ctxs));
        RunAt(made, tid, Publishing(cred, s.made, s.ctxs.next), login);
      }
    }
  }

  /** `ensureClient` running alone is the manager's atomic step. */
  lemma EnsureAlone(s: State, m: M.State, tid: nat, cred: string, env: M.Env)
    requires Mirrors(s, m) && tid !in s.threads
    ensures var t := FourSteps(Step(s, CallEnsure(tid, cred)), tid, cred in env.logins);
            && Mirrors(t, M.EnsureClient(m, cred, env))
            && t.threads == s.threads[tid := if cred in t.clients then Got(cred, t.clients[cred]) else GotNone(cred)]
  {
    hide FourSteps;
    EnsureSteps(s, tid, cred, cred in env.logins);
  }

  lemma RemoveSteps(s: State, tid: nat, cred: string)
    requires s.clients.Keys == s.cancel.Keys
    ensures var taken := s.(clients := s.clients - {cred}, cancel := s.cancel - {cred}, creds := s.creds - {cred});
            FourSteps(At(s, tid, Taking(cred)), tid, true) ==
            At(if cred in s.clients
               then taken.(ctxs := Release(s.ctxs, s.cancel[cred]), shut := s.shut + multiset{s.clients[cred]})
               else taken, tid, Removed(cred, cred in s.creds))
  {
    hide RunCall, At, Release;
    RunAt(s, tid, Taking(cred), true);
    var taken := s.(clients := s.clients - {cred}, cancel := s.cancel - {cred});
    if cred in s.clients {
      var cl, ctx := s.clients[cred], s.cancel[cred];
      var cancelled := taken.(ctxs := Release(s.ctxs, ctx));
      RunAt(taken, tid, Cancelling(cred, cl, ctx), true);
      RunAt(cancelled, tid, ShuttingDown(cred, cl), true);
      RunAt(cancelled.(shut := s.shut + multiset{cl}), tid, Forgetting(cred), true);
    } else {
      RunAt(taken, tid, Forgetting(cred), true);
      RunAt(taken.(creds := s.creds - {cred}), tid, Removed(cred, cred in s.creds), true);
    }
  }

  /** `RemoveCredential` running alone, too, and it shuts down the client it took. */
  lemma RemoveAlone(s: State, m: M.State, tid: nat, cred: string, order: seq<string>)
    requires Mirrors(s, m) && tid !in s.threads && Walks(order, m.store.cs.Keys - {cred})
    ensures var t := FourSteps(Step(s, CallRemove(tid, cred)), tid, true);
            && Mirrors(t, M.RemoveCredential(m, cred, order))
            && t.threads == s.threads[tid := Removed(cred, cred in s.creds)]
            && t.shut == s.shut + if cred in s.clients then multiset{s.clients[cred]} else multiset{}
  {
    hide FourSteps, C.Delete;
    M.DeletedKeys(m.store, cred, order);
    RemoveSteps(s, tid, cred);
  }
}

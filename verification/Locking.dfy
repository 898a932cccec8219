/**
 * The locking protocol between the decision threads and the cleaner: `connlock` guards the trees, each
 * connection has its own lock. Threads and cleaner take the steps of `conn_lookup`, `create_conn`,
 * `de_thread`, `clean` and `remove_conn` in any order the locks allow.
 */
module Locking {
  type Tid = nat
  type ConnId = nat

  datatype Owner = Nobody | Thread(tid: Tid) | Cleaner

  /** Where a decision thread stands. */
  datatype Pc =
    | Idle                  // waiting for a packet
    | WantLookup            // about to lock connlock in conn_lookup
    | Looking               // inside conn_lookup, connlock held
    | WaitConn(c: ConnId)   // blocked on the found connection's lock, connlock still held
    | WantInsert(c: ConnId) // new connection created locked, about to lock connlock
    | Inserting(c: ConnId)  // inserting the new connection, connlock held
    | Working(c: ConnId)    // processing the packet, the connection's lock held
    | Refiling(c: ConnId)   // in setup_redirection, inserting another key of the held connection without connlock

  datatype CleanerPc = Asleep | Sweeping(todo: seq<ConnId>)

  /** `trees` are the connections reachable through the trees, `freed` those handed to free_conn. */
  datatype Sys = Sys(threads: map<Tid, Pc>, cleaner: CleanerPc, connlock: Owner, locks: map<ConnId, Owner>,
                     trees: set<ConnId>, freed: set<ConnId>, nextId: ConnId)

  function Start(tids: set<Tid>): Sys {
    Sys(map t | t in tids :: Idle, Asleep, Nobody, map[], {}, {}, 0)
  }

  /** A step: a thread's, or the cleaner's. */
  datatype Step =
    | Receive(t: Tid)              // a packet is popped from the queue
    | LockForLookup(t: Tid)
    | Hit(t: Tid, c: ConnId)       // the lookup found c
    | Miss(t: Tid)                 // no connection: connlock released, a new one allocated and locked
    | LockFound(t: Tid)            // the found connection's lock obtained, connlock released
    | GiveUp(t: Tid)               // create_conn refuses and frees its own new connection
    | LockForInsert(t: Tid)
    | Publish(t: Tid)              // inserted into the trees, connlock released
    | StartRefile(t: Tid)          // setup_redirection begins to file another key of the held connection
    | EndRefile(t: Tid)
    | Finish(t: Tid)               // the packet is done, the connection's lock released
    | Wake(todo: seq<ConnId>)      // the cleaner locks connlock and collects expired connections
    | Sweep                        // try-lock the next collected connection; remove and free it, or skip it
    | Sleep                        // nothing left, connlock released

  predicate At(s: Sys, t: Tid, pc: Pc) {
    t in s.threads && s.threads[t] == pc
  }

  /** When a step is possible: where the thread stands, and the locks it needs. */
  predicate Enabled(s: Sys, step: Step) {
    match step
    case Receive(t) => At(s, t, Idle)
    case LockForLookup(t) => At(s, t, WantLookup) && s.connlock.Nobody?
    case Hit(t, c) => At(s, t, Looking) && c in s.trees
    case Miss(t) => At(s, t, Looking)
    case LockFound(t) =>
         t in s.threads && s.threads[t].WaitConn? && s.threads[t].c in s.locks && s.locks[s.threads[t].c].Nobody?
    case GiveUp(t) => t in s.threads && s.threads[t].WantInsert?
    case LockForInsert(t) => t in s.threads && s.threads[t].WantInsert? && s.connlock.Nobody?
    case Publish(t) => t in s.threads && s.threads[t].Inserting?
    case StartRefile(t) => t in s.threads && s.threads[t].Working?
    case EndRefile(t) => t in s.threads && s.threads[t].Refiling?
    case Finish(t) => t in s.threads && s.threads[t].Working?
    case Wake(todo) => s.cleaner.Asleep? && s.connlock.Nobody? && Collected(s, todo)
    case Sweep => s.cleaner.Sweeping? && s.cleaner.todo != [] && s.cleaner.todo[0] in s.locks
    case Sleep => s.cleaner == Sweeping([])
  }

  /** The traversals list connections of the trees, none twice. */
  predicate Collected(s: Sys, todo: seq<ConnId>) {
    && (forall i | 0 <= i < |todo| :: todo[i] in s.trees)
    && (forall i, j | 0 <= i < j < |todo| :: todo[i] != todo[j])
  }

  function Next(s: Sys, step: Step): Sys
    requires Enabled(s, step)
  {
    match step
    case Receive(t) => s.(threads := s.threads[t := WantLookup])
    case LockForLookup(t) => s.(threads := s.threads[t := Looking], connlock := Thread(t))
    case Hit(t, c) => s.(threads := s.threads[t := WaitConn(c)])
    case Miss(t) =>
      s.(threads := s.threads[t := WantInsert(s.nextId)], connlock := Nobody,
         locks := s.locks[s.nextId := Thread(t)], nextId := s.nextId + 1)
    case LockFound(t) =>
      var c := s.threads[t].c;
      s.(threads := s.threads[t := Working(c)], connlock := Nobody, locks := s.locks[c := Thread(t)])
    case GiveUp(t) => s.(threads := s.threads[t := Idle], freed := s.freed + {s.threads[t].c})
    case LockForInsert(t) => s.(threads := s.threads[t := Inserting(s.threads[t].c)], connlock := Thread(t))
    case Publish(t) =>
      var c := s.threads[t].c;
      s.(threads := s.threads[t := Working(c)], connlock := Nobody, trees := s.trees + {c})
    case StartRefile(t) => s.(threads := s.threads[t := Refiling(s.threads[t].c)])
    case EndRefile(t) => s.(threads := s.threads[t := Working(s.threads[t].c)])
    case Finish(t) => s.(threads := s.threads[t := Idle], locks := s.locks[s.threads[t].c := Nobody])
    case Wake(todo) => s.(cleaner := Sweeping(todo), connlock := Cleaner)
    case Sweep =>
      var c := s.cleaner.todo[0];
      var rest := s.(cleaner := Sweeping(s.cleaner.todo[1..]));
      if s.locks[c].Nobody?
      then rest.(locks := s.locks[c := Cleaner], trees := s.trees - {c}, freed := s.freed + {c})
      else rest
    case Sleep => s.(cleaner := Asleep, connlock := Nobody)
  }

  predicate HoldsConnlock(pc: Pc) {
    pc.Looking? || pc.WaitConn? || pc.Inserting?
  }

  /** The connection whose lock a thread owns. */
  predicate HoldsConn(pc: Pc, c: ConnId) {
    pc == WantInsert(c) || pc == Inserting(c) || pc == Working(c) || pc == Refiling(c)
  }

  ghost predicate ConnlockConsistent(s: Sys) {
    && (forall t | t in s.threads :: HoldsConnlock(s.threads[t]) <==> s.connlock == Thread(t))
    && (s.connlock.Thread? ==> s.connlock.tid in s.threads)
    && (s.cleaner.Sweeping? <==> s.connlock.Cleaner?)
  }

  /**
   * A lock belongs to the thread working on its connection; one owned without such a thread is a freed connection's.
   */
  ghost predicate LocksConsistent(s: Sys) {
    && (forall t, c | t in s.threads && HoldsConn(s.threads[t], c) :: c in s.locks && s.locks[c] == Thread(t))
    && (forall c | c in s.locks && s.locks[c].Thread? && c !in s.freed ::
          s.locks[c].tid in s.threads && HoldsConn(s.threads[s.locks[c].tid], c))
    && (forall c | c in s.locks && s.locks[c].Cleaner? :: c in s.freed)
    && (forall c | c in s.locks :: c < s.nextId)
  }

  ghost predicate TreesConsistent(s: Sys) {
    && s.trees !! s.freed
    && (forall c | c in s.trees :: c in s.locks)
    && (forall c | c in s.freed :: c < s.nextId)
    && (forall t, c |
          t in s.threads
          && (s.threads[t] == WaitConn(c) || s.threads[t] == Working(c) || s.threads[t] == Refiling(c)) :: c in s.trees)
    && (forall t, c | t in s.threads && (s.threads[t] == WantInsert(c) || s.threads[t] == Inserting(c)) ::
          c !in s.trees && c !in s.freed)
    && (s.cleaner.Sweeping? ==> Collected(s, s.cleaner.todo))
  }

  ghost predicate Inv(s: Sys) {
    ConnlockConsistent(s) && LocksConsistent(s) && TreesConsistent(s)
  }

  lemma StepKeepsConnlock(s: Sys, step: Step)
    requires Inv(s) && Enabled(s, step)
    ensures ConnlockConsistent(Next(s, step))
  {
  }

  predicate CleanerStep(step: Step) {
    step.Wake? || step.Sweep? || step.Sleep?
  }

  /** Steps that hand a connection lock over; the others leave the locks and their holders alone. */
  predicate LockStep(step: Step) {
    step.Miss? || step.LockFound? || step.GiveUp? || step.Finish?
  }

  lemma MissKeepsLocks(s: Sys, t: Tid)
    requires Inv(s) && Enabled(s, Miss(t))
    ensures LocksConsistent(Next(s, Miss(t)))
  {
    var r := Next(s, Miss(t));
    assert s.nextId !in s.locks;
    forall u, x | u in r.threads && HoldsConn(r.threads[u], x) ensures x in r.locks && r.locks[x] == Thread(u) {
      if u != t {
        assert s.locks[x] == Thread(u);
      }
    }
    forall x | x in r.locks && r.locks[x].Thread? && x !in r.freed
      ensures r.locks[x].tid in r.threads && HoldsConn(r.threads[r.locks[x].tid], x)
    {
      if x != s.nextId {
        assert HoldsConn(s.threads[s.locks[x].tid], x);
      }
    }
  }

  lemma LockFoundKeepsLocks(s: Sys, t: Tid)
    requires Inv(s) && Enabled(s, LockFound(t))
    ensures LocksConsistent(Next(s, LockFound(t)))
  {
  }

  lemma GiveUpKeepsLocks(s: Sys, t: Tid)
    requires Inv(s) && Enabled(s, GiveUp(t))
    ensures LocksConsistent(Next(s, GiveUp(t)))
  {
  }

  lemma FinishKeepsLocks(s: Sys, t: Tid)
    requires Inv(s) && Enabled(s, Finish(t))
    ensures LocksConsistent(Next(s, Finish(t)))
  {
    var r, c := Next(s, Finish(t)), s.threads[t].c;
    forall u, x | u in r.threads && HoldsConn(r.threads[u], x) ensures x in r.locks && r.locks[x] == Thread(u) {
      assert u != t && s.locks[x] == Thread(u);
      assert s.locks[c] == Thread(t);
    }
    forall x | x in r.locks && r.locks[x].Thread? && x !in r.freed
      ensures r.locks[x].tid in r.threads && HoldsConn(r.threads[r.locks[x].tid], x)
    {
      assert x != c && HoldsConn(s.threads[s.locks[x].tid], x);
    }
  }

  lemma LockStepKeepsLocks(s: Sys, step: Step)
    requires Inv(s) && Enabled(s, step) && LockStep(step)
    ensures LocksConsistent(Next(s, step))
  {
    if step.Miss? {
      MissKeepsLocks(s, step.t);
    } else if step.LockFound? {
      LockFoundKeepsLocks(s, step.t);
    } else if step.GiveUp? {
      GiveUpKeepsLocks(s, step.t);
    } else {
      FinishKeepsLocks(s, step.t);
    }
  }

  /** Threads that leave the locks alone and keep what each of them holds keep the locks consistent. */
  lemma SameHoldings(s: Sys, r: Sys)
    requires LocksConsistent(s) && r.locks == s.locks && r.freed == s.freed && r.nextId == s.nextId
    requires r.threads.Keys == s.threads.Keys
    requires forall t, c | t in s.threads :: HoldsConn(r.threads[t], c) <==> HoldsConn(s.threads[t], c)
    ensures LocksConsistent(r)
  {
  }

  lemma OtherStepKeepsLocks(s: Sys, step: Step)
    requires Inv(s) && Enabled(s, step) && !LockStep(step) && !CleanerStep(step)
    ensures LocksConsistent(Next(s, step))
  {
    SameHoldings(s, Next(s, step));
  }

  lemma SweepKeepsLocks(s: Sys)
    requires Inv(s) && Enabled(s, Sweep)
    ensures LocksConsistent(Next(s, Sweep))
  {
    assert s.cleaner.todo[0] in s.trees;
  }

  lemma CleanerStepKeepsLocks(s: Sys, step: Step)
    requires Inv(s) && Enabled(s, step) && CleanerStep(step)
    ensures LocksConsistent(Next(s, step))
  {
    if step.Sweep? {
      SweepKeepsLocks(s);
    } else {
      SameHoldings(s, Next(s, step));
    }
  }

  lemma LockStepKeepsTrees(s: Sys, step: Step)
    requires Inv(s) && Enabled(s, step) && LockStep(step)
    ensures TreesConsistent(Next(s, step))
  {
  }

  lemma OtherStepKeepsTrees(s: Sys, step: Step)
    requires Inv(s) && Enabled(s, step) && !LockStep(step) && !CleanerStep(step)
    ensures TreesConsistent(Next(s, step))
  {
  }

  lemma CleanerStepKeepsTrees(s: Sys, step: Step)
    requires Inv(s) && Enabled(s, step) && CleanerStep(step)
    ensures TreesConsistent(Next(s, step))
  {
  }

  /** Every step of every participant keeps the protocol's invariant. */
  lemma StepKeepsInv(s: Sys, step: Step)
    requires Inv(s) && Enabled(s, step)
    ensures Inv(Next(s, step)) && Next(s, step).threads.Keys == s.threads.Keys
  {
    StepKeepsConnlock(s, step);
    if LockStep(step) {
      LockStepKeepsLocks(s, step);
      LockStepKeepsTrees(s, step);
    } else if CleanerStep(step) {
      CleanerStepKeepsLocks(s, step);
      CleanerStepKeepsTrees(s, step);
    } else {
      OtherStepKeepsLocks(s, step);
      OtherStepKeepsTrees(s, step);
    }
  }

  /** The state after a run, or none if some step was not enabled. */
  datatype Reached = Blocked | Reached(s: Sys)

  function Run(tids: set<Tid>, steps: seq<Step>): Reached {
    if steps == [] then Reached(Start(tids))
    else
      var before := Run(tids, steps[..|steps| - 1]);
      if before.Reached? && Enabled(before.s, steps[|steps| - 1]) then Reached(Next(before.s, steps[|steps| - 1]))
         else Blocked
  }

  lemma {:induction false} AlwaysInv(tids: set<Tid>, steps: seq<Step>)
    requires Run(tids, steps).Reached?
    ensures Inv(Run(tids, steps).s) && Run(tids, steps).s.threads.Keys == tids
  {
    if steps != [] {
      AlwaysInv(tids, steps[..|steps| - 1]);
      StepKeepsInv(Run(tids, steps[..|steps| - 1]).s, steps[|steps| - 1]);
    }
  }

  /** The connection a thread refers to, if any. */
  predicate Uses(pc: Pc, c: ConnId) {
    pc == WaitConn(c) || HoldsConn(pc, c)
  }

  /**
   * No interleaving leaves a thread holding, or waiting for the lock of, a freed connection; nor the cleaner about to
   * touch one.
   */
  lemma NoUseAfterFree(tids: set<Tid>, steps: seq<Step>)
    requires Run(tids, steps).Reached?
    ensures var s := Run(tids, steps).s;
            && (forall t, c | t in s.threads && Uses(s.threads[t], c) :: c !in s.freed)
            && (s.cleaner.Sweeping? ==> forall c | c in s.cleaner.todo :: c !in s.freed)
  {
    AlwaysInv(tids, steps);
  }

  /** No two threads ever own one connection's lock. */
  lemma MutualExclusion(tids: set<Tid>, steps: seq<Step>)
    requires Run(tids, steps).Reached?
    ensures var s := Run(tids, steps).s;
            forall t, u, c |
              t in s.threads && u in s.threads && HoldsConn(s.threads[t], c) && HoldsConn(s.threads[u], c) :: t == u
  {
    AlwaysInv(tids, steps);
    OneHolder(Run(tids, steps).s);
  }

  lemma OneHolder(s: Sys)
    requires LocksConsistent(s)
    ensures forall t, u, c |
              t in s.threads && u in s.threads && HoldsConn(s.threads[t], c) && HoldsConn(s.threads[u], c) :: t == u
  {
    forall t, u, c | t in s.threads && u in s.threads && HoldsConn(s.threads[t], c) && HoldsConn(s.threads[u], c)
      ensures t == u
    {
      assert s.locks[c] == Thread(t);
    }
  }

  /** The step an interrupted participant takes next, for the freedom from deadlock below. */
  ghost predicate CanMove(s: Sys) {
    exists step :: Enabled(s, step) && !step.Receive? && !step.Wake? && !step.StartRefile?
  }

  /** Unless every thread is idle and the cleaner asleep, somebody can finish or advance what it has begun. */
  lemma NoDeadlock(tids: set<Tid>, steps: seq<Step>)
    requires Run(tids, steps).Reached?
    requires var s := Run(tids, steps).s; s.cleaner.Sweeping? || exists t :: t in s.threads && s.threads[t] != Idle
    ensures CanMove(Run(tids, steps).s)
  {
    var s := Run(tids, steps).s;
    AlwaysInv(tids, steps);
    if s.cleaner.Sweeping? {
      if s.cleaner.todo == [] {
        assert Enabled(s, Sleep);
      } else {
        assert s.cleaner.todo[0] in s.trees;
        assert Enabled(s, Sweep);
      }
    } else if s.connlock.Thread? {
      HolderMoves(s, s.connlock.tid);
    } else {
      var t :| t in s.threads && s.threads[t] != Idle;
      match s.threads[t]
      case WantLookup => assert Enabled(s, LockForLookup(t));
      case WantInsert(c) => assert Enabled(s, LockForInsert(t));
      case Working(c) => assert Enabled(s, Finish(t));
      case Refiling(c) => assert Enabled(s, EndRefile(t));
      case _ =>
    }
  }

  /** The thread that holds connlock can go on, or the one whose connection it waits for can. */
  lemma HolderMoves(s: Sys, t: Tid)
    requires Inv(s) && t in s.threads && s.connlock == Thread(t)
    ensures CanMove(s)
  {
    match s.threads[t]
    case Looking => assert Enabled(s, Miss(t));
    case Inserting(c) => assert Enabled(s, Publish(t));
    case WaitConn(c) =>
      if s.locks[c].Nobody? {
        assert Enabled(s, LockFound(t));
      } else {
        var u := s.locks[c].tid;
        assert HoldsConn(s.threads[u], c);
        assert Enabled(s, Finish(u)) || Enabled(s, EndRefile(u));
      }
    case _ =>
  }

  /**
   * The blocking variant of the removal loop, used when the gateway closes, needs the threads gone: with all of them
   * idle no lock it takes is held.
   */
  lemma ClosingFindsLocksFree(tids: set<Tid>, steps: seq<Step>, c: ConnId)
    requires Run(tids, steps).Reached? && c in Run(tids, steps).s.trees
    requires forall t | t in Run(tids, steps).s.threads :: Run(tids, steps).s.threads[t] == Idle
    ensures c in Run(tids, steps).s.locks && Run(tids, steps).s.locks[c].Nobody?
  {
    AlwaysInv(tids, steps);
  }

  // Who is in the connection trees

  /** The participant is reading or changing the connection trees. */
  predicate InTrees(s: Sys, who: Owner) {
    match who
    case Nobody => false
    case Cleaner => s.cleaner.Sweeping?
    case Thread(t) => t in s.threads && (s.threads[t].Looking? || s.threads[t].Inserting? || s.threads[t].Refiling?)
  }

  predicate RefilingThread(s: Sys, who: Owner) {
    who.Thread? && who.tid in s.threads && s.threads[who.tid].Refiling?
  }

  /** In the trees with connlock. */
  predicate Guarded(s: Sys, who: Owner) {
    InTrees(s, who) && s.connlock == who
  }

  /**
   * Exactly when two participants are in the trees at once, in every reachable state: one of them is a thread that
   * files a redirection's key, and the other is another such thread or whoever holds connlock. Everything else in the
   * trees excludes itself.
   */
  lemma TogetherInTreesIff(tids: set<Tid>, steps: seq<Step>, a: Owner, b: Owner)
    requires Run(tids, steps).Reached? && a != b
    ensures var s := Run(tids, steps).s;
            InTrees(s, a) && InTrees(s, b) <==>
            || (RefilingThread(s, a) && RefilingThread(s, b))
            || (RefilingThread(s, a) && Guarded(s, b))
            || (RefilingThread(s, b) && Guarded(s, a))
  {
    AlwaysInv(tids, steps);
  }

  /** A run of two threads in which the first has found no connection and made one. */
  lemma NewConnection() returns (steps: seq<Step>)
    ensures steps == [Receive(0), LockForLookup(0), Miss(0)]
    ensures Run({0, 1}, steps)
            == Reached(Sys(map[0 := WantInsert(0), 1 := Idle], Asleep, Nobody, map[0 := Thread(0)], {}, {}, 1))
  {
    var s := Sys(map[0 := Idle, 1 := Idle], Asleep, Nobody, map[], {}, {}, 0);
    steps := [];
    assert Start({0, 1}) == s;
    s := RunOn({0, 1}, steps, Receive(0), s);
    steps := steps + [Receive(0)];
    s := RunOn({0, 1}, steps, LockForLookup(0), s);
    steps := steps + [LockForLookup(0)];
    s := RunOn({0, 1}, steps, Miss(0), s);
    steps := steps + [Miss(0)];
    assert s.threads == map[0 := WantInsert(0), 1 := Idle] && s.locks == map[0 := Thread(0)];
  }

  /** ... has published it, and works on it. */
  lemma FirstConnection() returns (steps: seq<Step>)
    ensures steps == [Receive(0), LockForLookup(0), Miss(0), LockForInsert(0), Publish(0)]
    ensures Run({0, 1}, steps)
            == Reached(Sys(map[0 := Working(0), 1 := Idle], Asleep, Nobody, map[0 := Thread(0)], {0}, {}, 1))
  {
    steps := NewConnection();
    var s := Sys(map[0 := WantInsert(0), 1 := Idle], Asleep, Nobody, map[0 := Thread(0)], {}, {}, 1);
    s := RunOn({0, 1}, steps, LockForInsert(0), s);
    steps := steps + [LockForInsert(0)];
    s := RunOn({0, 1}, steps, Publish(0), s);
    steps := steps + [Publish(0)];
    assert s.threads == map[0 := Working(0), 1 := Idle] && s.trees == {0};
  }

  /** It does happen: one thread refiles while another looks up. */
  lemma LookupDuringRefile() returns (steps: seq<Step>)
    ensures steps == [Receive(0), LockForLookup(0), Miss(0), LockForInsert(0), Publish(0), StartRefile(0), Receive(1),
                      LockForLookup(1)]
    ensures var r := Run({0, 1}, steps); r.Reached? && InTrees(r.s, Thread(0)) && InTrees(r.s, Thread(1))
  {
    steps := FirstConnection();
    var s := Sys(map[0 := Working(0), 1 := Idle], Asleep, Nobody, map[0 := Thread(0)], {0}, {}, 1);
    s := RunOn({0, 1}, steps, StartRefile(0), s);
    steps := steps + [StartRefile(0)];
    s := RunOn({0, 1}, steps, Receive(1), s);
    steps := steps + [Receive(1)];
    s := RunOn({0, 1}, steps, LockForLookup(1), s);
    steps := steps + [LockForLookup(1)];
  }

  lemma RunOn(tids: set<Tid>, steps: seq<Step>, step: Step, s: Sys) returns (r: Sys)
    requires Run(tids, steps) == Reached(s) && Enabled(s, step)
    ensures r == Next(s, step) && Run(tids, steps + [step]) == Reached(r)
  {
    assert (steps + [step])[..|steps|] == steps;
    r := Next(s, step);
  }
}

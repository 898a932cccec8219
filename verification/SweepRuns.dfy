/** What the cleaner and the threads do to the set of connections, over whole runs of the locking protocol. */
module SweepRuns {
  import opened Locking

  /** A thread has made the connection and not yet published it. */
  ghost predicate Pending(s: Sys, c: ConnId) {
    exists t | t in s.threads :: s.threads[t] == WantInsert(c) || s.threads[t] == Inserting(c)
  }

  /** Every connection ever made is in exactly one place: pending, in the trees, or freed. */
  ghost predicate Accounted(s: Sys) {
    && (forall c: ConnId :: c < s.nextId <==> Pending(s, c) || c in s.trees || c in s.freed)
    && (forall c | Pending(s, c) :: c !in s.trees && c !in s.freed)
    && (forall c | c in s.trees :: c !in s.freed)
  }

  lemma PendingAfter(s: Sys, step: Step, c: ConnId)
    requires Inv(s) && Enabled(s, step)
    ensures Pending(Next(s, step), c) <==>
            match step
            case Miss(_) => c == s.nextId || Pending(s, c)
            case GiveUp(t) => Pending(s, c) && c != s.threads[t].c
            case Publish(t) => Pending(s, c) && c != s.threads[t].c
            case _ => Pending(s, c)
  {
    var r := Next(s, step);
    match step
    case Miss(t) =>
      assert r.threads[t] == WantInsert(s.nextId);
      StillPending(s, r, t, c);
    case GiveUp(t) => StillPending(s, r, t, c);
    case Publish(t) => StillPending(s, r, t, c);
    case LockForInsert(t) =>
      assert r.threads[t] == Inserting(s.threads[t].c);
      StillPending(s, r, t, c);
    case Receive(t) => StillPending(s, r, t, c);
    case LockForLookup(t) => StillPending(s, r, t, c);
    case Hit(t, _) => StillPending(s, r, t, c);
    case LockFound(t) => StillPending(s, r, t, c);
    case StartRefile(t) => StillPending(s, r, t, c);
    case EndRefile(t) => StillPending(s, r, t, c);
    case Finish(t) => StillPending(s, r, t, c);
    case Wake(_) => assert r.threads == s.threads;
    case Sweep => assert r.threads == s.threads;
    case Sleep => assert r.threads == s.threads;
  }

  predicate IsPending(pc: Pc, c: ConnId) {
    pc == WantInsert(c) || pc == Inserting(c)
  }

  lemma OnePending(s: Sys, t: Tid, u: Tid, c: ConnId)
    requires Inv(s) && t in s.threads && u in s.threads && IsPending(s.threads[t], c) && IsPending(s.threads[u], c)
    ensures t == u
  {
    assert HoldsConn(s.threads[t], c);
    assert s.locks[c] == Thread(t);
    assert HoldsConn(s.threads[u], c);
  }

  /** A step of thread `t` concerns its own place only. */
  lemma StillPending(s: Sys, r: Sys, t: Tid, c: ConnId)
    requires Inv(s) && t in s.threads && t in r.threads && r.threads == s.threads[t := r.threads[t]]
    ensures Pending(r, c) <==> IsPending(r.threads[t], c) || exists u | u in s.threads && u != t ::
            IsPending(s.threads[u], c)
    ensures Pending(s, c) <==> IsPending(s.threads[t], c) || exists u | u in s.threads && u != t ::
            IsPending(s.threads[u], c)
    ensures IsPending(s.threads[t], c) ==> !exists u | u in s.threads && u != t :: IsPending(s.threads[u], c)
  {
    if Pending(r, c) {
      var u :| u in r.threads && IsPending(r.threads[u], c);
      assert u != t ==> IsPending(s.threads[u], c);
    }
    if u :| u in s.threads && u != t && IsPending(s.threads[u], c) {
      assert IsPending(r.threads[u], c);
      if IsPending(s.threads[t], c) {
        OnePending(s, t, u, c);
      }
    }
  }

  lemma StepKeepsAccounted(s: Sys, step: Step)
    requires Inv(s) && Enabled(s, step) && Accounted(s)
    ensures Accounted(Next(s, step))
  {
    var r := Next(s, step);
    forall c: ConnId
      ensures c < r.nextId <==> Pending(r, c) || c in r.trees || c in r.freed
      ensures Pending(r, c) ==> c !in r.trees && c !in r.freed
      ensures c in r.trees ==> c !in r.freed
    {
      PendingAfter(s, step, c);
      match step
      case GiveUp(t) => assert IsPending(s.threads[t], s.threads[t].c) && Pending(s, s.threads[t].c);
      case Publish(t) => assert IsPending(s.threads[t], s.threads[t].c) && Pending(s, s.threads[t].c);
      case Sweep => assert s.cleaner.todo[0] in s.trees;
      case _ =>
    }
  }

  /** Over every run no connection is lost, and none is in two places. */
  lemma {:induction false} AlwaysAccounted(tids: set<Tid>, steps: seq<Step>)
    requires Run(tids, steps).Reached?
    ensures Accounted(Run(tids, steps).s)
  {
    if steps == [] {
      assert forall c :: !Pending(Start(tids), c);
    } else {
      AlwaysInv(tids, steps[..|steps| - 1]);
      AlwaysAccounted(tids, steps[..|steps| - 1]);
      StepKeepsAccounted(Run(tids, steps[..|steps| - 1]).s, steps[|steps| - 1]);
    }
  }

  // ----- sweeps -----

  /** One connection's turn in a sweep, and whether any thread was at work on it. */
  datatype Turn = Turn(c: ConnId, busy: bool)

  ghost predicate Busy(s: Sys, c: ConnId) {
    exists t | t in s.threads :: HoldsConn(s.threads[t], c)
  }

  /** What the last sweep had collected. */
  function LastTodo(steps: seq<Step>): seq<ConnId> {
    if steps == [] then []
    else if steps[|steps| - 1].Wake? then steps[|steps| - 1].todo
    else LastTodo(steps[..|steps| - 1])
  }

  /** The turns of the last sweep so far. */
  ghost function Turns(tids: set<Tid>, steps: seq<Step>): seq<Turn>
    requires Run(tids, steps).Reached?
  {
    if steps == [] then []
    else
      var s, step := Run(tids, steps[..|steps| - 1]).s, steps[|steps| - 1];
      match step
      case Wake(_) => []
      case Sweep => Turns(tids, steps[..|steps| - 1]) + [Turn(s.cleaner.todo[0], Busy(s, s.cleaner.todo[0]))]
      case _ => Turns(tids, steps[..|steps| - 1])
  }

  function Ids(turns: seq<Turn>): seq<ConnId> {
    if turns == [] then [] else Ids(turns[..|turns| - 1]) + [turns[|turns| - 1].c]
  }

  /** What the sweep has still to do. */
  function Rest(s: Sys): seq<ConnId> {
    if s.cleaner.Sweeping? then s.cleaner.todo else []
  }

  /** Who had a turn while nobody was at work on it has been freed; who was busy is in the trees still. */
  ghost predicate TurnsTaken(s: Sys, turns: seq<Turn>) {
    forall turn | turn in turns ::
      if turn.busy then turn.c in s.trees && turn.c !in s.freed else turn.c in s.freed && turn.c !in s.trees
  }

  /** A lock is free exactly if nobody is at work on the connection, as long as it is not freed. */
  lemma FreeIffIdle(s: Sys, c: ConnId)
    requires Inv(s) && c in s.trees
    ensures s.locks[c].Nobody? <==> !Busy(s, c)
  {
    if Busy(s, c) {
      var t :| t in s.threads && HoldsConn(s.threads[t], c);
    }
    if s.locks[c].Thread? {
      assert HoldsConn(s.threads[s.locks[c].tid], c);
    }
  }

  lemma TurnsStay(s: Sys, step: Step, turns: seq<Turn>)
    requires Inv(s) && Enabled(s, step) && !step.Sweep? && TurnsTaken(s, turns)
    requires forall c | Pending(s, c) :: c !in s.trees && c !in s.freed
    ensures TurnsTaken(Next(s, step), turns)
  {
    if step.GiveUp? {
      assert Pending(s, s.threads[step.t].c);
    } else if step.Publish? {
      assert Pending(s, s.threads[step.t].c);
    }
  }

  lemma SweepTakesTurn(s: Sys, turns: seq<Turn>)
    requires Inv(s) && Enabled(s, Sweep) && TurnsTaken(s, turns)
    requires forall turn | turn in turns :: turn.c != s.cleaner.todo[0]
    ensures TurnsTaken(Next(s, Sweep), turns + [Turn(s.cleaner.todo[0], Busy(s, s.cleaner.todo[0]))])
  {
    var c := s.cleaner.todo[0];
    FreeIffIdle(s, c);
    var all, r := turns + [Turn(c, Busy(s, c))], Next(s, Sweep);
    forall turn | turn in all
      ensures if turn.busy then turn.c in r.trees && turn.c !in r.freed else turn.c in r.freed && turn.c !in r.trees
    {
      assert turn in turns || turn == Turn(c, Busy(s, c));
    }
  }

  lemma IdsAppend(turns: seq<Turn>, turn: Turn)
    ensures Ids(turns + [turn]) == Ids(turns) + [turn.c]
  {
    assert (turns + [turn])[..|turns|] == turns;
  }

  lemma {:induction false} InIds(turns: seq<Turn>, turn: Turn)
    requires turn in turns
    ensures turn.c in Ids(turns)
  {
    if turns[|turns| - 1] != turn {
      InIds(turns[..|turns| - 1], turn);
    }
  }

  predicate Distinct(s: seq<ConnId>) {
    forall i, j | 0 <= i < j < |s| :: s[i] != s[j]
  }

  /** The turns taken and those to come are what was collected, each once. */
  ghost predicate InTurn(s: Sys, steps: seq<Step>, turns: seq<Turn>) {
    Ids(turns) + Rest(s) == LastTodo(steps) && Distinct(LastTodo(steps))
  }

  /**
   * What every sweep does, over every run: each collected connection has its turn, once; the ones nobody is at work on
   * are taken out of the trees and freed, the others stay. When the cleaner sleeps all of them have had it.
   */
  lemma {:induction false} SweepFrees(tids: set<Tid>, steps: seq<Step>)
    requires Run(tids, steps).Reached?
    ensures TurnsTaken(Run(tids, steps).s, Turns(tids, steps)) && InTurn(Run(tids, steps).s, steps, Turns(tids, steps))
    ensures Run(tids, steps).s.cleaner.Asleep? ==> Ids(Turns(tids, steps)) == LastTodo(steps)
  {
    if steps != [] {
      var before, step := steps[..|steps| - 1], steps[|steps| - 1];
      var s, turns := Run(tids, before).s, Turns(tids, before);
      AlwaysInv(tids, before);
      AlwaysAccounted(tids, before);
      SweepFrees(tids, before);
      match step
      case Sweep => SweepAdvances(s, before, turns, LastTodo(before));
      case Wake(_) =>
      case _ => TurnsStay(s, step, turns);
    }
  }

  lemma FirstMoves(ids: seq<ConnId>, todo: seq<ConnId>)
    requires todo != []
    ensures ids + [todo[0]] + todo[1..] == ids + todo
  {
    assert [todo[0]] + todo[1..] == todo;
  }

  lemma SweepAdvances(s: Sys, steps: seq<Step>, turns: seq<Turn>, todo: seq<ConnId>)
    requires Inv(s) && Enabled(s, Sweep) && TurnsTaken(s, turns) && InTurn(s, steps, turns) && todo == LastTodo(steps)
    ensures var turn := Turn(s.cleaner.todo[0], Busy(s, s.cleaner.todo[0]));
            TurnsTaken(Next(s, Sweep), turns + [turn]) && Ids(turns + [turn]) + Rest(Next(s, Sweep)) == todo
  {
    var turn := Turn(s.cleaner.todo[0], Busy(s, s.cleaner.todo[0]));
    NotYetTurned(s, steps, turns);
    SweepTakesTurn(s, turns);
    IdsAppend(turns, turn);
    FirstMoves(Ids(turns), s.cleaner.todo);
  }

  lemma NotYetTurned(s: Sys, steps: seq<Step>, turns: seq<Turn>)
    requires InTurn(s, steps, turns) && Rest(s) != []
    ensures forall turn | turn in turns :: turn.c != Rest(s)[0]
  {
    forall turn | turn in turns ensures turn.c != Rest(s)[0] {
      InIds(turns, turn);
      var ids := Ids(turns);
      var i :| 0 <= i < |ids| && ids[i] == turn.c;
      assert LastTodo(steps)[i] == ids[i] && LastTodo(steps)[|ids|] == Rest(s)[0];
    }
  }

  /** With nobody ever at work on it, a collected connection is gone when the cleaner sleeps. */
  lemma IdleIsFreed(tids: set<Tid>, steps: seq<Step>, c: ConnId)
    requires Run(tids, steps).Reached? && Run(tids, steps).s.cleaner.Asleep? && c in LastTodo(steps)
    ensures Turn(c, false) in Turns(tids, steps) ==> c in Run(tids, steps).s.freed && c !in Run(tids, steps).s.trees
    ensures Turn(c, true) in Turns(tids, steps) ==> c in Run(tids, steps).s.trees
    ensures Turn(c, false) in Turns(tids, steps) || Turn(c, true) in Turns(tids, steps)
  {
    SweepFrees(tids, steps);
    HasTurn(Turns(tids, steps), c);
  }

  lemma {:induction false} HasTurn(turns: seq<Turn>, c: ConnId)
    requires c in Ids(turns)
    ensures Turn(c, false) in turns || Turn(c, true) in turns
  {
    var last := turns[|turns| - 1];
    if last.c != c {
      HasTurn(turns[..|turns| - 1], c);
    } else {
      assert last in turns && last == Turn(c, last.busy);
    }
  }
}

/** What holds over every run of a connection: which states it goes through, and what each packet can change. */
module GatewayRuns {
  import opened Words
  import opened Sequence
  import opened Replay
  import opened Gateway

  /** A packet, and what the rules would say about it. */
  datatype Event = Event(p: Pkt, a: Advice)

  /** When a packet is recorded. */
  predicate Records(c: Conn, p: Pkt) {
    || (p.origin.Ext? && (c.state.Init? || c.state.Deciding?))
    || (p.origin.Lih? && (c.state.Init? || c.state.Deciding? || c.state.Control?))
  }

  /** When a packet starts the redirection of its connection. */
  predicate Triggers(c: Conn, p: Pkt, a: Advice) {
    p.origin.Ext? && c.state.Deciding? && a.verdict.Accept? && a.ready
  }

  /** Sending and storing leave the life of the connection alone. */
  lemma KeptAndSent(cfg: Config, d: Conn, p: Pkt, passes: bool)
    ensures var k := Keep(cfg, if passes then ProxiedIn(d, p) else d, p);
            && k.initiator == d.initiator && k.destination == d.destination && k.proto == d.proto
            && k.state == d.state && k.trail == d.trail && k.hih == d.hih && k.crashed == d.crashed
            && k.eng == (if HasBackends(cfg) then Stored(d.eng, cfg.maxBuffer, p) else d.eng)
            && k.offered == if HasBackends(cfg) then d.offered + [p] else d.offered
  {
  }

  lemma DecidedLife(cfg: Config, c: Conn, a: Advice, begun: Engine)
    requires Asks(c.state)
    ensures var d := Decided(cfg, c, a, begun);
            && d.initiator == c.initiator && d.destination == c.destination && d.proto == c.proto
            && d.crashed == c.crashed && d.offered == c.offered
            && (if c.state.Deciding? && a.verdict.Accept? && a.ready then d.hih && d.eng == begun
                else d.hih == c.hih && d.eng == c.eng)
  {
  }

  /** What a packet does to the replay engine, whatever the rules say. */
  function EngineAfter(cfg: Config, c: Conn, p: Pkt, a: Advice, begun: Engine, heard: Engine): Engine {
    if Records(c, p) then
      var n := if p.origin.Lih? then NoteLihSyn(c.eng, p) else if Triggers(c, p, a) then begun else c.eng;
      if HasBackends(cfg) then Stored(n, cfg.maxBuffer, p) else n
    else if p.origin.Hih? && c.state.Replaying? then heard
    else if p.origin.Ext? && c.state.Forwarding? && c.hih then Forward(c.eng, p)
    else c.eng
  }

  /** Recorded packets, and only those, are offered to the buffer, if there are backends. */
  lemma DispatchedEngine(cfg: Config, c: Conn, p: Pkt, a: Advice, begun: Engine, heard: Engine, answer: Outcome)
    ensures var d := Dispatched(cfg, c, p, a, begun, heard, answer);
            && d.eng == EngineAfter(cfg, c, p, a, begun, heard)
            && d.offered == if Records(c, p) && HasBackends(cfg) then c.offered + [p] else c.offered
  {
    if !c.state.Drop? {
      match p.origin {
        case Lih => EngineOfLih(cfg, c, p, a);
        case Hih => EngineOfHih(cfg, c, p, a, heard, answer);
        case Ext => EngineOfExt(cfg, c, p, a, begun);
        case Intra =>
      }
    }
  }

  lemma EngineOfLih(cfg: Config, c: Conn, p: Pkt, a: Advice)
    requires p.origin.Lih?
    ensures var d := FromLih(cfg, c, p, a);
            && d.eng == EngineAfter(cfg, c, p, a, c.eng, c.eng)
            && d.offered == if Records(c, p) && HasBackends(cfg) then c.offered + [p] else c.offered
  {
    if c.state.Control? {
      var n := c.(eng := NoteLihSyn(c.eng, p));
      DecidedLife(cfg, n, a, n.eng);
      DecidedState(cfg, n, a, n.eng);
    }
  }

  lemma EngineOfHih(cfg: Config, c: Conn, p: Pkt, a: Advice, heard: Engine, answer: Outcome)
    requires p.origin.Hih? && !c.state.Drop?
    ensures var d := FromHih(cfg, c, p, a, heard, answer);
            d.eng == (if c.state.Replaying? then heard else c.eng) && d.offered == c.offered
  {
    if c.state.Control? {
      DecidedLife(cfg, c, a, c.eng);
      DecidedState(cfg, c, a, c.eng);
    } else if c.state.Init? || c.state.Deciding? {
      var n := Switch(c, Control);
      DecidedLife(cfg, n, a, n.eng);
      DecidedState(cfg, n, a, n.eng);
    }
  }

  lemma EngineOfExt(cfg: Config, c: Conn, p: Pkt, a: Advice, begun: Engine)
    requires p.origin.Ext?
    ensures var d := FromExt(cfg, c, p, a, begun);
            && d.eng == EngineAfter(cfg, c, p, a, begun, c.eng)
            && d.offered == if Records(c, p) && HasBackends(cfg) then c.offered + [p] else c.offered
  {
    if c.state.Init? || c.state.Deciding? {
      DecidedLife(cfg, c, a, begun);
      KeptAndSent(cfg, Decided(cfg, c, a, begun), p, Passes(c, a.verdict));
    }
  }

  /** The same for the engine's own results. */
  lemma HandledEngine(cfg: Config, c: Conn, p: Pkt, a: Advice)
    requires c.eng.next <= |c.eng.buffer|
    ensures Handled(cfg, c, p, a).eng == EngineAfter(cfg, c, p, a, Begun(c.eng), Heard(c.eng, p))
    ensures Handled(cfg, c, p, a).offered == if Records(c, p) && HasBackends(cfg) then c.offered + [p] else c.offered
  {
    DispatchedEngine(cfg, c, p, a, Begun(c.eng), Heard(c.eng, p), Answer(c.eng, p));
  }

  lemma EngineInBounds(cfg: Config, c: Conn, p: Pkt, a: Advice, begun: Engine, heard: Engine)
    requires c.eng.next <= |c.eng.buffer| && begun.next <= |begun.buffer| && heard.next <= |heard.buffer|
    ensures var e := EngineAfter(cfg, c, p, a, begun, heard); e.next <= |e.buffer|
  {
  }

  lemma ResultsInBounds(e: Engine, p: Pkt)
    requires e.next <= |e.buffer|
    ensures Begun(e).next <= |e.buffer| && Begun(e).buffer == e.buffer
    ensures Heard(e, p).next <= |e.buffer| && Heard(e, p).buffer == e.buffer
  {
    AcceptedAnswerIsProgress(NoteHihSyn(e, p), p);
  }

  /** A dereferenced null pointer ends the run. */
  function Step(cfg: Config, c: Conn, ev: Event): (d: Conn)
    requires c.eng.next <= |c.eng.buffer|
    ensures d.eng.next <= |d.eng.buffer|
  {
    if c.crashed then c
    else
      HandledEngine(cfg, c, ev.p, ev.a);
      ResultsInBounds(c.eng, ev.p);
      EngineInBounds(cfg, c, ev.p, ev.a, Begun(c.eng), Heard(c.eng, ev.p));
      Handled(cfg, c, ev.p, ev.a)
  }

  function Run(cfg: Config, c: Conn, es: seq<Event>): (d: Conn)
    requires c.eng.next <= |c.eng.buffer|
    ensures d.eng.next <= |d.eng.buffer|
  {
    if es == [] then c else Step(cfg, Run(cfg, c, es[..|es| - 1]), es[|es| - 1])
  }

  // Life-cycle

  /** The state `DE_process_packet` leaves a connection in. */
  function StateDecided(cfg: Config, c: Conn, a: Advice): State
    requires Asks(c.state)
  {
    match Ruling(c, a.verdict)
    case NoRule => if c.state.Control? then Proxy else if c.state.Deciding? then Deciding
         else if cfg.backends == 0 then Proxy else Deciding
    case Defer => c.state
    case Accept =>
      if c.state.Control? then Control
      else if c.state.Deciding? then (if a.ready then Replaying else Deciding)
      else if HasBackends(cfg) then Deciding else Proxy
    case Reject => if c.state.Deciding? then Proxy else Drop
    case DropIt => Drop
  }

  lemma DecidedState(cfg: Config, c: Conn, a: Advice, begun: Engine)
    requires Asks(c.state)
    ensures Decided(cfg, c, a, begun).state == StateDecided(cfg, c, a)
  {
  }

  /** The null pointers this packet runs into: no back_handler to send a reset through, or no packet left to replay. */
  predicate Derefs(cfg: Config, c: Conn, p: Pkt, answer: Outcome) {
    && p.origin.Hih?
    && (((c.state.Init? || c.state.Deciding?) && cfg.denyHihInit && p.proto.Tcp? && !c.hih)
        || (c.state.Replaying? && answer.Crashed?))
  }

  function StateAfter(cfg: Config, c: Conn, p: Pkt, a: Advice, answer: Outcome): State {
    match p.origin
    case Lih => if c.state.Control? then StateDecided(cfg, c, a) else c.state
    case Ext => if c.state.Init? || c.state.Deciding? then StateDecided(cfg, c, a) else c.state
    case Intra => c.state
    case Hih =>
      if Derefs(cfg, c, p, answer) then c.state
      else if c.state.Replaying? then (if answer.Completed? then Forwarding else Replaying)
      else if c.state.Control? then StateDecided(cfg, c, a)
      else if c.state.Init? || c.state.Deciding?
           then (if cfg.denyHihInit then Drop else StateDecided(cfg, c.(state := Control), a))
      else c.state
  }

  /** What a packet does to the connection apart from its engine; only a trigger sets back_handler. */
  predicate Leads(cfg: Config, c: Conn, p: Pkt, a: Advice, answer: Outcome, d: Conn) {
    && d.initiator == c.initiator && d.destination == c.destination && d.proto == c.proto
    && d.state == StateAfter(cfg, c, p, a, answer)
    && d.crashed == (c.crashed || Derefs(cfg, c, p, answer))
    && d.hih == (c.hih || Triggers(c, p, a))
  }

  lemma DispatchedState(cfg: Config, c: Conn, p: Pkt, a: Advice, begun: Engine, heard: Engine, answer: Outcome)
    ensures Leads(cfg, c, p, a, answer, Dispatched(cfg, c, p, a, begun, heard, answer))
  {
    if !c.state.Drop? {
      match p.origin {
        case Lih =>
          LihState(cfg, c, p, a, answer);
          LihRest(cfg, c, p, a, answer);
        case Hih =>
          HihState(cfg, c, p, a, heard, answer);
          HihIdentity(cfg, c, p, a, heard, answer);
          HihHandler(cfg, c, p, a, heard, answer);
          HihCrash(cfg, c, p, a, heard, answer);
        case Ext =>
          ExtState(cfg, c, p, a, begun, answer);
          ExtIdentity(cfg, c, p, a, begun, answer);
          ExtHandler(cfg, c, p, a, begun, answer);
          ExtCrash(cfg, c, p, a, begun, answer);
        case Intra =>
      }
    }
  }

  lemma LihState(cfg: Config, c: Conn, p: Pkt, a: Advice, answer: Outcome)
    requires p.origin.Lih?
    ensures FromLih(cfg, c, p, a).state == StateAfter(cfg, c, p, a, answer)
  {
    if c.state.Control? {
      var n := c.(eng := NoteLihSyn(c.eng, p));
      DecidedLife(cfg, n, a, n.eng);
      DecidedState(cfg, n, a, n.eng);
    }
  }

  lemma LihRest(cfg: Config, c: Conn, p: Pkt, a: Advice, answer: Outcome)
    requires p.origin.Lih?
    ensures var d := FromLih(cfg, c, p, a);
            && d.initiator == c.initiator && d.destination == c.destination && d.proto == c.proto
            && d.crashed == (c.crashed || Derefs(cfg, c, p, answer))
            && d.hih == (c.hih || Triggers(c, p, a))
  {
    if c.state.Control? {
      var n := c.(eng := NoteLihSyn(c.eng, p));
      DecidedLife(cfg, n, a, n.eng);
      DecidedState(cfg, n, a, n.eng);
    }
  }

  lemma HihState(cfg: Config, c: Conn, p: Pkt, a: Advice, heard: Engine, answer: Outcome)
    requires p.origin.Hih? && !c.state.Drop?
    ensures FromHih(cfg, c, p, a, heard, answer).state == StateAfter(cfg, c, p, a, answer)
  {
    if c.state.Control? {
      DecidedLife(cfg, c, a, c.eng);
      DecidedState(cfg, c, a, c.eng);
    } else if c.state.Init? || c.state.Deciding? {
      var n := Switch(c, Control);
      DecidedLife(cfg, n, a, n.eng);
      DecidedState(cfg, n, a, n.eng);
    }
  }

  lemma HihIdentity(cfg: Config, c: Conn, p: Pkt, a: Advice, heard: Engine, answer: Outcome)
    requires p.origin.Hih? && !c.state.Drop?
    ensures var d := FromHih(cfg, c, p, a, heard, answer);
            d.initiator == c.initiator && d.destination == c.destination && d.proto == c.proto
  {
    if c.state.Control? {
      DecidedLife(cfg, c, a, c.eng);
      DecidedState(cfg, c, a, c.eng);
    } else if c.state.Init? || c.state.Deciding? {
      var n := Switch(c, Control);
      DecidedLife(cfg, n, a, n.eng);
      DecidedState(cfg, n, a, n.eng);
    }
  }

  lemma HihHandler(cfg: Config, c: Conn, p: Pkt, a: Advice, heard: Engine, answer: Outcome)
    requires p.origin.Hih? && !c.state.Drop?
    ensures FromHih(cfg, c, p, a, heard, answer).hih == (c.hih || Triggers(c, p, a))
  {
  }

  lemma HihCrash(cfg: Config, c: Conn, p: Pkt, a: Advice, heard: Engine, answer: Outcome)
    requires p.origin.Hih? && !c.state.Drop?
    ensures FromHih(cfg, c, p, a, heard, answer).crashed == (c.crashed || Derefs(cfg, c, p, answer))
  {
  }

  lemma ExtState(cfg: Config, c: Conn, p: Pkt, a: Advice, begun: Engine, answer: Outcome)
    requires p.origin.Ext?
    ensures FromExt(cfg, c, p, a, begun).state == StateAfter(cfg, c, p, a, answer)
  {
    if c.state.Init? || c.state.Deciding? {
      DecidedState(cfg, c, a, begun);
      KeptAndSent(cfg, Decided(cfg, c, a, begun), p, Passes(c, a.verdict));
    }
  }

  lemma ExtIdentity(cfg: Config, c: Conn, p: Pkt, a: Advice, begun: Engine, answer: Outcome)
    requires p.origin.Ext?
    ensures var d := FromExt(cfg, c, p, a, begun);
            d.initiator == c.initiator && d.destination == c.destination && d.proto == c.proto
  {
    if c.state.Init? || c.state.Deciding? {
      DecidedLife(cfg, c, a, begun);
      KeptAndSent(cfg, Decided(cfg, c, a, begun), p, Passes(c, a.verdict));
    }
  }

  lemma ExtHandler(cfg: Config, c: Conn, p: Pkt, a: Advice, begun: Engine, answer: Outcome)
    requires p.origin.Ext?
    ensures FromExt(cfg, c, p, a, begun).hih == (c.hih || Triggers(c, p, a))
  {
    if c.state.Init? || c.state.Deciding? {
      DecidedLife(cfg, c, a, begun);
      KeptAndSent(cfg, Decided(cfg, c, a, begun), p, Passes(c, a.verdict));
    }
  }

  lemma ExtCrash(cfg: Config, c: Conn, p: Pkt, a: Advice, begun: Engine, answer: Outcome)
    requires p.origin.Ext?
    ensures FromExt(cfg, c, p, a, begun).crashed == (c.crashed || Derefs(cfg, c, p, answer))
  {
    if c.state.Init? || c.state.Deciding? {
      DecidedLife(cfg, c, a, begun);
      KeptAndSent(cfg, Decided(cfg, c, a, begun), p, Passes(c, a.verdict));
    }
  }

  /** The only changes of state there are, and whose packets cause them. */
  predicate Legal(origin: Role, s: State, t: State) {
    match s
    case Init => (origin.Ext? && (t.Deciding? || t.Proxy? || t.Drop?)) || (origin.Hih? && (t.Control? || t.Drop?))
    case Deciding => (origin.Ext? && (t.Replaying? || t.Proxy? || t.Drop?)) || (origin.Hih? && (t.Control? || t.Drop?))
    case Replaying => origin.Hih? && t.Forwarding?
    case Control => (origin.Hih? || origin.Lih?) && (t.Proxy? || t.Drop?)
    case _ => false
  }

  /** The trail of one packet: nothing, a legal move, or two of them through CONTROL. */
  predicate MovesLegally(origin: Role, c: Conn, d: Conn) {
    || (d.state == c.state && d.trail == c.trail)
    || (d.trail == c.trail + [d.state] && Legal(origin, c.state, d.state))
    || (d.trail == c.trail + [Control] + [d.state] && Legal(origin, c.state, Control)
        && Legal(origin, Control, d.state))
  }

  lemma StatesMoveLegally(cfg: Config, c: Conn, p: Pkt, a: Advice, begun: Engine, heard: Engine, answer: Outcome)
    ensures MovesLegally(p.origin, c, Dispatched(cfg, c, p, a, begun, heard, answer))
  {
    if !c.state.Drop? {
      match p.origin {
        case Lih => MovesOfLih(cfg, c, p, a);
        case Hih => MovesOfHih(cfg, c, p, a, heard, answer);
        case Ext => MovesOfExt(cfg, c, p, a, begun);
        case Intra =>
      }
    }
  }

  lemma MovesOfLih(cfg: Config, c: Conn, p: Pkt, a: Advice)
    ensures MovesLegally(Lih, c, FromLih(cfg, c, p, a))
  {
  }

  lemma MovesOfHih(cfg: Config, c: Conn, p: Pkt, a: Advice, heard: Engine, answer: Outcome)
    requires !c.state.Drop?
    ensures MovesLegally(Hih, c, FromHih(cfg, c, p, a, heard, answer))
  {
  }

  lemma MovesOfExt(cfg: Config, c: Conn, p: Pkt, a: Advice, begun: Engine)
    ensures MovesLegally(Ext, c, FromExt(cfg, c, p, a, begun))
  {
    if c.state.Init? || c.state.Deciding? {
      DecidedLife(cfg, c, a, begun);
      KeptAndSent(cfg, Decided(cfg, c, a, begun), p, Passes(c, a.verdict));
    }
  }

  /** Each step of a run moves legally. */
  lemma StepMovesLegally(cfg: Config, c: Conn, ev: Event)
    requires c.eng.next <= |c.eng.buffer|
    ensures MovesLegally(ev.p.origin, c, Step(cfg, c, ev))
  {
    StatesMoveLegally(cfg, c, ev.p, ev.a, Begun(c.eng), Heard(c.eng, ev.p), Answer(c.eng, ev.p));
  }

  function Rank(s: State): nat {
    match s
    case Init => 0
    case Deciding => 1
    case Replaying => 2
    case Control => 2
    case _ => 3
  }

  lemma LegalRises(origin: Role, s: State, t: State)
    requires Legal(origin, s, t)
    ensures Rank(s) < Rank(t)
  {
  }

  /** Each state is of a higher rank than the one before. */
  ghost predicate Climbing(t: seq<State>) {
    forall i, j | 0 <= i < j < |t| :: Rank(t[i]) < Rank(t[j])
  }

  predicate EndsAt(c: Conn) {
    c.trail != [] && c.trail[|c.trail| - 1] == c.state
  }

  lemma ClimbsOn(origin: Role, t: seq<State>, s: State)
    requires Climbing(t) && t != [] && Legal(origin, t[|t| - 1], s)
    ensures Climbing(t + [s])
  {
    LegalRises(origin, t[|t| - 1], s);
  }

  lemma MoveClimbs(origin: Role, c: Conn, d: Conn)
    requires Climbing(c.trail) && EndsAt(c) && MovesLegally(origin, c, d)
    ensures Climbing(d.trail) && EndsAt(d)
  {
    if d.trail == c.trail + [d.state] && Legal(origin, c.state, d.state) {
      ClimbsOn(origin, c.trail, d.state);
    } else if d.trail != c.trail {
      ClimbsOn(origin, c.trail, Control);
      ClimbsOn(origin, c.trail + [Control], d.state);
    }
  }

  lemma {:induction false} AlwaysClimbing(cfg: Config, c: Conn, es: seq<Event>)
    requires c.eng.next <= |c.eng.buffer| && Climbing(c.trail) && EndsAt(c)
    ensures Climbing(Run(cfg, c, es).trail) && EndsAt(Run(cfg, c, es))
  {
    if es != [] {
      var b := Run(cfg, c, es[..|es| - 1]);
      AlwaysClimbing(cfg, c, es[..|es| - 1]);
      StepMovesLegally(cfg, b, es[|es| - 1]);
      MoveClimbs(es[|es| - 1].p.origin, b, Step(cfg, b, es[|es| - 1]));
    }
  }

  lemma {:induction false} RankAtLeastIndex(t: seq<State>, i: nat)
    requires i < |t| && forall j, k | 0 <= j < k < |t| :: Rank(t[j]) < Rank(t[k])
    ensures i <= Rank(t[i])
  {
    if i > 0 {
      RankAtLeastIndex(t, i - 1);
    }
  }

  /** A connection changes state at most three times in its life, whatever packets and verdicts come. */
  lemma AtMostThreeChanges(cfg: Config, initiator: Role, destination: Role, proto: Proto, es: seq<Event>)
    ensures var d := Run(cfg, Born(initiator, destination, proto), es);
            |d.trail| <= 4 && Climbing(d.trail) && EndsAt(d)
  {
    var d := Run(cfg, Born(initiator, destination, proto), es);
    AlwaysClimbing(cfg, Born(initiator, destination, proto), es);
    RankAtLeastIndex(d.trail, |d.trail| - 1);
  }

  /** Once a connection is proxied, forwarded or dropped it stays so, and nothing can crash on it any more. */
  lemma {:induction false} FinalStatesAbsorb(cfg: Config, c: Conn, es: seq<Event>)
    requires c.eng.next <= |c.eng.buffer| && (c.state.Proxy? || c.state.Forwarding? || c.state.Drop?)
    ensures Run(cfg, c, es).state == c.state && Run(cfg, c, es).crashed == c.crashed
  {
    if es != [] {
      var b := Run(cfg, c, es[..|es| - 1]);
      FinalStatesAbsorb(cfg, c, es[..|es| - 1]);
      if !b.crashed {
        StepFollows(cfg, b, es[|es| - 1]);
      }
    }
  }

  /** A connection as it can be when a packet comes. */
  predicate Started(initiator: Role, destination: Role, es: seq<Event>) {
    && !initiator.Intra? && (initiator.Ext? ==> destination.Lih?)
    && (es != [] ==> es[0].p.origin == initiator)
  }

  lemma StartedPrefix(initiator: Role, destination: Role, es: seq<Event>, n: nat)
    requires Started(initiator, destination, es) && n <= |es|
    ensures Started(initiator, destination, es[..n])
  {
  }

  /** Which states a connection can be in between packets, by who began it. */
  predicate Place(c: Conn) {
    if c.initiator.Ext? then c.destination.Lih? && !c.state.Control?
    else c.state.Control? || c.state.Proxy? || c.state.Drop?
  }

  /**
   * Between packets only connections from outside are undecided, replayed or forwarded, and those are never under
   * control.
   */
  lemma {:induction false} AlwaysInPlace(cfg: Config, initiator: Role, destination: Role, proto: Proto, es: seq<Event>)
    requires !initiator.Intra? && (initiator.Ext? ==> destination.Lih?)
    requires es != [] && es[0].p.origin == initiator
    ensures var d := Run(cfg, Born(initiator, destination, proto), es);
            !d.crashed ==> Place(d) && d.initiator == initiator && d.destination == destination
  {
    var before := Run(cfg, Born(initiator, destination, proto), es[..|es| - 1]);
    if |es| == 1 {
      assert before == Born(initiator, destination, proto);
    } else {
      AlwaysInPlace(cfg, initiator, destination, proto, es[..|es| - 1]);
    }
    if !before.crashed {
      StepKeepsPlace(cfg, before, es[|es| - 1]);
    }
  }

  lemma StepKeepsPlace(cfg: Config, c: Conn, ev: Event)
    requires c.eng.next <= |c.eng.buffer| && !c.crashed
    requires Place(c) || (c.initiator.Hih? && c.state.Init? && ev.p.origin.Hih?)
    ensures var d := Step(cfg, c, ev);
            !d.crashed ==> Place(d) && d.initiator == c.initiator && d.destination == c.destination
  {
    DispatchKeepsPlace(cfg, c, ev.p, ev.a, Begun(c.eng), Heard(c.eng, ev.p), Answer(c.eng, ev.p));
  }

  lemma DispatchKeepsPlace(cfg: Config, c: Conn, p: Pkt, a: Advice, begun: Engine, heard: Engine, answer: Outcome)
    requires Place(c) || (c.initiator.Hih? && c.state.Init? && p.origin.Hih?)
    ensures var d := Dispatched(cfg, c, p, a, begun, heard, answer);
            !d.crashed ==> Place(d) && d.initiator == c.initiator && d.destination == c.destination
  {
    DispatchedState(cfg, c, p, a, begun, heard, answer);
  }

  /** All that later proofs need to know of a step: what became of the connection, its engine and its recording. */
  predicate Follows(cfg: Config, c: Conn, p: Pkt, a: Advice, d: Conn)
    requires c.eng.next <= |c.eng.buffer|
  {
    && Leads(cfg, c, p, a, Answer(c.eng, p), d)
    && d.eng == EngineAfter(cfg, c, p, a, Begun(c.eng), Heard(c.eng, p))
    && d.offered == if Records(c, p) && HasBackends(cfg) then c.offered + [p] else c.offered
  }

  lemma StepFollows(cfg: Config, c: Conn, ev: Event)
    requires c.eng.next <= |c.eng.buffer| && !c.crashed
    ensures Follows(cfg, c, ev.p, ev.a, Step(cfg, c, ev))
  {
    HandledEngine(cfg, c, ev.p, ev.a);
    DispatchedState(cfg, c, ev.p, ev.a, Begun(c.eng), Heard(c.eng, ev.p), Answer(c.eng, ev.p));
  }

  /** A run of more events goes on from where the run of the first ones came to. */
  lemma {:induction false} RunConcat(cfg: Config, c: Conn, s: seq<Event>, t: seq<Event>)
    requires c.eng.next <= |c.eng.buffer|
    ensures Run(cfg, c, s + t) == Run(cfg, Run(cfg, c, s), t)
    decreases |t|
  {
    if t == [] {
      assert s + t == s;
    } else {
      RunConcat(cfg, c, s, t[..|t| - 1]);
      assert (s + t)[..|s + t| - 1] == s + t[..|t| - 1];
    }
  }

  lemma RunOfOne(cfg: Config, c: Conn, ev: Event)
    requires c.eng.next <= |c.eng.buffer|
    ensures Run(cfg, c, [ev]) == Step(cfg, c, ev)
  {
    assert [ev][..0] == [];
  }

  /** Runs can be taken from the front as well. */
  lemma RunFromFront(cfg: Config, c: Conn, es: seq<Event>, d: Conn)
    requires c.eng.next <= |c.eng.buffer| && es != [] && d == Step(cfg, c, es[0])
    ensures Run(cfg, c, es) == Run(cfg, d, es[1..])
  {
    RunOfOne(cfg, c, es[0]);
    RunConcat(cfg, c, [es[0]], es[1..]);
    assert [es[0]] + es[1..] == es;
  }

  lemma {:induction false} CrashedStays(cfg: Config, c: Conn, es: seq<Event>)
    requires c.eng.next <= |c.eng.buffer| && c.crashed
    ensures Run(cfg, c, es) == c
  {
    if es != [] {
      CrashedStays(cfg, c, es[..|es| - 1]);
    }
  }

  // Honeypots that call out

  /**
   * A packet of the high-interaction honeypot under control leaves towards the outside, whatever the connection's
   * destination.
   */
  lemma ControlledLink(cfg: Config, c: Conn, p: Pkt, a: Advice)
    requires c.eng.next <= |c.eng.buffer| && c.state.Control? && p.origin.Hih?
    ensures Handled(cfg, c, p, a).out == if Passes(c, a.verdict) then c.out + [ToExt(p, 0)] else c.out
  {
  }

  /** The link a connection of the high-interaction honeypot is meant for. */
  function OwnLink(destination: Role, p: Pkt): Out {
    if destination.Intra? then ToIntra(p) else ToExt(p, 0)
  }

  /** The packet is let through: the connection is proxied, or the rules accept it. */
  predicate LetThrough(cfg: Config, c: Conn, a: Advice) {
    || c.state.Proxy?
    || (c.state.Control? && Passes(c, a.verdict))
    || (c.state.Init? && !cfg.denyHihInit && Passes(c.(state := Control), a.verdict))
  }

  /** The connection of a high-interaction honeypot before one of its packets. */
  predicate Calling(c: Conn) {
    && c.eng.next <= |c.eng.buffer| && !c.crashed && c.initiator.Hih? && (c.destination.Ext? || c.destination.Intra?)
    && (c.state.Init? || c.state.Control? || c.state.Proxy? || c.state.Drop?)
  }

  lemma CalledLink(cfg: Config, c: Conn, p: Pkt, a: Advice)
    requires Calling(c) && p.origin.Hih?
    ensures LetThrough(cfg, c, a) ==>
              (Handled(cfg, c, p, a).out == c.out + [OwnLink(c.destination, p)] <==>
               c.destination.Ext? || !c.state.Control?)
    ensures LetThrough(cfg, c, a) && !(c.destination.Ext? || !c.state.Control?) ==>
            Handled(cfg, c, p, a).out == c.out + [ToExt(p, 0)]
    ensures !LetThrough(cfg, c, a) ==>
            Handled(cfg, c, p, a).out == c.out || Handled(cfg, c, p, a).out == c.out + [ResetHih(p)]
  {
    if c.state.Control? {
      ControlledLink(cfg, c, p, a);
      assert c.out + [ToExt(p, 0)] != c.out + [ToIntra(p)] by {
        assert (c.out + [ToExt(p, 0)])[|c.out|] != (c.out + [ToIntra(p)])[|c.out|];
      }
    }
  }

  /**
   * Over every run of a connection a high-interaction honeypot began: a packet of it that is let through goes to its
   * destination's own link iff the destination is outside, or it is the first packet, or the connection is proxied;
   * otherwise it goes to the external link. What is not let through is sent nowhere.
   */
  lemma OwnLinkIff(cfg: Config, destination: Role, proto: Proto, es: seq<Event>, p: Pkt, a: Advice)
    requires (destination.Ext? || destination.Intra?) && p.origin.Hih? && (es != [] ==> es[0].p.origin.Hih?)
    requires !Run(cfg, Born(Hih, destination, proto), es).crashed
    ensures var c := Run(cfg, Born(Hih, destination, proto), es);
            var sent := Handled(cfg, c, p, a).out;
            && (LetThrough(cfg, c, a) ==>
                  (sent == c.out + [OwnLink(destination, p)] <==> destination.Ext? || es == [] || c.state.Proxy?)
                  && (sent == c.out + [OwnLink(destination, p)] || sent == c.out + [ToExt(p, 0)]))
            && (!LetThrough(cfg, c, a) ==> sent == c.out || sent == c.out + [ResetHih(p)])
  {
    var c := Run(cfg, Born(Hih, destination, proto), es);
    if es != [] {
      AlwaysInPlace(cfg, Hih, destination, proto, es);
    }
    CalledLink(cfg, c, p, a);
  }

  /** What one packet makes a redirected connection send, apart from the replay itself. */
  lemma OutWhileRedirected(cfg: Config, c: Conn, p: Pkt, a: Advice, begun: Engine, heard: Engine, answer: Outcome)
    requires c.state.Replaying? || c.state.Forwarding?
    ensures var d := Dispatched(cfg, c, p, a, begun, heard, answer);
            || d.out == c.out
            || (p.origin.Lih? && d.out == c.out + [ResetLih(p)])
            || (p.origin.Hih? && c.state.Forwarding? && d.out == c.out + [ToExt(p, c.eng.delta)])
  {
  }

  /**
   * Nothing new has been said to the attacker, except by the high-interaction honeypot on an established redirection.
   */
  ghost predicate OnlyHihSpeaks(before: seq<Out>, d: Conn) {
    && |before| <= |d.out|
    && (forall i | |before| <= i < |d.out| :: d.out[i].ToExt? ==> d.state.Forwarding? && d.out[i].p.origin.Hih?)
  }

  /**
   * From the trigger on the attacker never hears the low-interaction honeypot again, and hears nobody until the replay
   * is complete.
   */
  lemma {:induction false} AttackerHearsOneHoneypot(cfg: Config, c: Conn, es: seq<Event>)
    requires c.eng.next <= |c.eng.buffer| && (c.state.Replaying? || c.state.Forwarding?)
    ensures var d := Run(cfg, c, es); (d.state.Replaying? || d.state.Forwarding?) && OnlyHihSpeaks(c.out, d)
  {
    if es != [] {
      var b, ev := Run(cfg, c, es[..|es| - 1]), es[|es| - 1];
      AttackerHearsOneHoneypot(cfg, c, es[..|es| - 1]);
      if !b.crashed {
        StepFollows(cfg, b, ev);
        OutWhileRedirected(cfg, b, ev.p, ev.a, Begun(b.eng), Heard(b.eng, ev.p), Answer(b.eng, ev.p));
        SpeaksOn(c.out, b, ev.p, Step(cfg, b, ev));
      }
    }
  }

  lemma SpeaksOn(before: seq<Out>, b: Conn, p: Pkt, d: Conn)
    requires OnlyHihSpeaks(before, b) && (b.state.Forwarding? ==> d.state.Forwarding?)
    requires || d.out == b.out
             || (p.origin.Lih? && d.out == b.out + [ResetLih(p)])
             || (p.origin.Hih? && b.state.Forwarding? && d.out == b.out + [ToExt(p, b.eng.delta)])
    ensures OnlyHihSpeaks(before, d)
  {
    forall i | |before| <= i < |d.out| && d.out[i].ToExt? ensures d.state.Forwarding? && d.out[i].p.origin.Hih? {
      if i < |b.out| {
        assert d.out[i] == b.out[i];
      }
    }
  }
}

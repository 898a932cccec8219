/** When a run ends in a null pointer, whatever the configuration. */
module CrashRuns {
  import opened Words
  import opened Replay
  import opened Gateway
  import opened GatewayRuns
  import opened ReplayRuns

  /** An accepted answer to the last gate of a recording that ends in one: there is no packet to look at. */
  predicate PastTheEnd(c: Conn, p: Pkt) {
    p.origin.Hih? && c.state.Replaying? && Matches(c.eng.expected, p) && c.eng.next == |c.eng.buffer|
  }

  /**
   * A packet taken for a high-interaction honeypot's where nobody is redirected yet, to be refused by a reset through a
   * handler not set.
   */
  predicate Denied(cfg: Config, c: Conn, p: Pkt) {
    cfg.denyHihInit && p.origin.Hih? && p.proto.Tcp? && c.initiator.Ext? && (c.state.Init? || c.state.Deciding?)
  }

  /** The connection meets one of the two. */
  predicate Crashing(cfg: Config, c: Conn, p: Pkt) {
    !c.crashed && (PastTheEnd(c, p) || Denied(cfg, c, p))
  }

  /** Event `i` of the run is the one that crashes. */
  predicate CrashesAt(cfg: Config, first: Conn, es: seq<Event>, i: nat)
    requires first.eng.next <= |first.eng.buffer| && i < |es|
  {
    Crashing(cfg, Run(cfg, first, es[..i]), es[i].p)
  }

  lemma CrashesAtInLonger(cfg: Config, first: Conn, es: seq<Event>, before: seq<Event>, i: nat)
    requires first.eng.next <= |first.eng.buffer| && i < |before| <= |es| && before == es[..|before|]
    ensures CrashesAt(cfg, first, es, i) <==> CrashesAt(cfg, first, before, i)
  {
    assert before[..i] == es[..i];
    var c := Run(cfg, first, es[..i]);
    assert CrashesAt(cfg, first, es, i) == Crashing(cfg, c, es[i].p);
  }

  /** What a connection's state says about its handler, between packets. */
  predicate Handlers(c: Conn) {
    && (c.initiator.Ext? && (c.state.Init? || c.state.Deciding?) ==> !c.hih)
    && (!c.initiator.Ext? ==> !c.state.Deciding? && !c.state.Replaying? && (c.state.Init? ==> c.hih))
  }

  lemma {:induction false} AlwaysHandlers(cfg: Config, initiator: Role, destination: Role, proto: Proto, es: seq<Event>)
    requires Started(initiator, destination, es)
    ensures var c := Run(cfg, Born(initiator, destination, proto), es); !c.crashed ==> Handlers(c)
  {
    if initiator.Ext? {
      AlwaysFromOutside(cfg, destination, proto, es);
    } else if es != [] {
      AlwaysInPlace(cfg, initiator, destination, proto, es);
    }
  }

  lemma AlwaysFromOutside(cfg: Config, destination: Role, proto: Proto, es: seq<Event>)
    requires destination.Lih?
    ensures var c := Run(cfg, Born(Ext, destination, proto), es); !c.crashed ==> Handlers(c)
  {
    AlwaysSound(cfg, proto, es);
  }

  lemma StepCrashesIff(cfg: Config, c: Conn, ev: Event)
    requires c.eng.next <= |c.eng.buffer| && !c.crashed && Handlers(c)
    ensures Step(cfg, c, ev).crashed <==> PastTheEnd(c, ev.p) || Denied(cfg, c, ev.p)
  {
    StepFollows(cfg, c, ev);
  }

  /** A crash comes at some event. */
  lemma {:induction false} CrashComes(cfg: Config, initiator: Role, destination: Role, proto: Proto,
                                      es: seq<Event>) returns (i: nat)
    requires Started(initiator, destination, es) && Run(cfg, Born(initiator, destination, proto), es).crashed
    ensures i < |es| && CrashesAt(cfg, Born(initiator, destination, proto), es, i)
  {
    var n, first := |es| - 1, Born(initiator, destination, proto);
    var c := Run(cfg, first, es[..n]);
    StartedPrefix(initiator, destination, es, n);
    if c.crashed {
      i := CrashComes(cfg, initiator, destination, proto, es[..n]);
      CrashesAtInLonger(cfg, first, es, es[..n], i);
    } else {
      i := n;
      AlwaysHandlers(cfg, initiator, destination, proto, es[..n]);
      StepCrashesIff(cfg, c, es[n]);
    }
  }

  lemma {:induction false} CrashedPrefix(cfg: Config, first: Conn, es: seq<Event>, n: nat)
    requires first.eng.next <= |first.eng.buffer| && n <= |es| && Run(cfg, first, es[..n]).crashed
    ensures Run(cfg, first, es).crashed
    decreases |es|
  {
    if n == |es| {
      assert es[..n] == es;
    } else {
      var before := es[..|es| - 1];
      assert before[..n] == es[..n];
      CrashedPrefix(cfg, first, before, n);
    }
  }

  lemma LastCrashes(cfg: Config, initiator: Role, destination: Role, proto: Proto, es: seq<Event>, c: Conn)
    requires Started(initiator, destination, es) && es != []
             && c == Run(cfg, Born(initiator, destination, proto), es[..|es| - 1])
    requires Crashing(cfg, c, es[|es| - 1].p)
    ensures Run(cfg, Born(initiator, destination, proto), es).crashed
  {
    StartedPrefix(initiator, destination, es, |es| - 1);
    AlwaysHandlers(cfg, initiator, destination, proto, es[..|es| - 1]);
    StepCrashesIff(cfg, c, es[|es| - 1]);
  }

  /** And after it the run stays crashed. */
  lemma CrashLasts(cfg: Config, initiator: Role, destination: Role, proto: Proto, es: seq<Event>, i: nat)
    requires Started(initiator, destination, es) && i < |es|
             && CrashesAt(cfg, Born(initiator, destination, proto), es, i)
    ensures Run(cfg, Born(initiator, destination, proto), es).crashed
  {
    var upTo, first := es[..i + 1], Born(initiator, destination, proto);
    assert upTo[..|upTo| - 1] == es[..i] && upTo[|upTo| - 1] == es[i];
    StartedPrefix(initiator, destination, es, i + 1);
    LastCrashes(cfg, initiator, destination, proto, upTo, Run(cfg, first, es[..i]));
    CrashedPrefix(cfg, first, es, i + 1);
  }

  /**
   * Exactly when a run has crashed, over every configuration and every run: an answer passed the gate at the very end
   * of a recording, or a TCP packet taken for a high-interaction honeypot's met a connection from outside that was not
   * redirected, where such packets are denied.
   */
  lemma CrashedIff(cfg: Config, initiator: Role, destination: Role, proto: Proto, es: seq<Event>)
    requires Started(initiator, destination, es)
    ensures Run(cfg, Born(initiator, destination, proto), es).crashed <==>
            exists i | 0 <= i < |es| :: CrashesAt(cfg, Born(initiator, destination, proto), es, i)
  {
    var first := Born(initiator, destination, proto);
    if Run(cfg, first, es).crashed {
      var i := CrashComes(cfg, initiator, destination, proto, es);
    }
    if i :| 0 <= i < |es| && CrashesAt(cfg, first, es, i) {
      CrashLasts(cfg, initiator, destination, proto, es, i);
    }
  }

  lemma GateAtTheEnd(cfg: Config, c: Conn, p: Pkt)
    requires Sound(cfg, c) && PastTheEnd(c, p)
    ensures |c.offered| > cfg.maxBuffer && Gates(c.eng.buffer) > 0 && !EndsInExt(c.eng.buffer)
  {
    var b := c.eng.buffer;
    assert AtGate(c.eng) && c.eng.expected.proto.Some?;
    assert !b[|b| - 1].origin.Ext?;
  }

  /**
   * The first kind of crash takes a full buffer: more packets were offered than it holds, and the last that it took is
   * no packet of the attacker.
   */
  lemma PastTheEndMeansFull(cfg: Config, proto: Proto, es: seq<Event>, p: Pkt)
    requires var c := Run(cfg, Born(Ext, Lih, proto), es); !c.crashed && PastTheEnd(c, p)
    ensures var c := Run(cfg, Born(Ext, Lih, proto), es);
            |c.offered| > cfg.maxBuffer && Gates(c.eng.buffer) > 0 && !EndsInExt(c.eng.buffer)
  {
    AlwaysSound(cfg, proto, es);
    GateAtTheEnd(cfg, Run(cfg, Born(Ext, Lih, proto), es), p);
  }

  /** So a run that meets no denial crashes only after more packets were offered than the buffer holds. */
  lemma CrashesOnlyWhenFull(cfg: Config, initiator: Role, destination: Role, proto: Proto,
                            es: seq<Event>) returns (i: nat)
    requires Started(initiator, destination, es) && Run(cfg, Born(initiator, destination, proto), es).crashed
    ensures i < |es| && CrashesAt(cfg, Born(initiator, destination, proto), es, i)
    ensures var c := Run(cfg, Born(initiator, destination, proto), es[..i]);
            Denied(cfg, c, es[i].p) || |c.offered| > cfg.maxBuffer
  {
    var first := Born(initiator, destination, proto);
    i := CrashComes(cfg, initiator, destination, proto, es);
    StartedPrefix(initiator, destination, es, i);
    AlwaysHandlers(cfg, initiator, destination, proto, es[..i]);
    InitiatorStays(cfg, first, es[..i]);
    if PastTheEnd(Run(cfg, first, es[..i]), es[i].p) {
      PastTheEndMeansFull(cfg, proto, es[..i], es[i].p);
    }
  }

  lemma {:induction false} InitiatorStays(cfg: Config, first: Conn, es: seq<Event>)
    requires first.eng.next <= |first.eng.buffer|
    ensures Run(cfg, first, es).initiator == first.initiator
  {
    if es != [] {
      var c := Run(cfg, first, es[..|es| - 1]);
      InitiatorStays(cfg, first, es[..|es| - 1]);
      if !c.crashed {
        StepFollows(cfg, c, es[|es| - 1]);
      }
    }
  }
}

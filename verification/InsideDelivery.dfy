/** Who hears what on connections that honeypots begin. */
module InsideDelivery {
  import opened Words
  import opened Replay
  import opened Gateway
  import opened GatewayRuns
  import opened Delivery

  /** A connection a honeypot began, between packets or before its first. */
  ghost predicate Inside(c: Conn) {
    && c.eng.next <= |c.eng.buffer| && (c.initiator.Lih? || c.initiator.Hih?) && (c.hih <==> c.initiator.Hih?)
    && (c.state.Control? || c.state.Proxy? || c.state.Drop? || (c.state.Init? && c.initiator.Hih?))
  }

  lemma FollowsKeepsInside(cfg: Config, c: Conn, p: Pkt, a: Advice, d: Conn)
    requires Inside(c) && !c.crashed && Follows(cfg, c, p, a, d) && d.eng.next <= |d.eng.buffer|
    requires c.state.Init? ==> p.origin.Hih?
    ensures Inside(d) && !d.crashed && !d.state.Init?
  {
  }

  /**
   * Connections that honeypots begin never crash the gateway, and between packets they are under control, proxied or
   * dropped.
   */
  lemma {:induction false} AlwaysInside(cfg: Config, initiator: Role, destination: Role, proto: Proto, es: seq<Event>)
    requires Started(initiator, destination, es) && !initiator.Ext?
    ensures var d := Run(cfg, Born(initiator, destination, proto), es);
            && Inside(d) && !d.crashed && d.initiator == initiator && d.destination == destination
            && (d.state.Init? ==> es == [])
  {
    if es != [] {
      var c, ev := Run(cfg, Born(initiator, destination, proto), es[..|es| - 1]), es[|es| - 1];
      StartedPrefix(initiator, destination, es, |es| - 1);
      AlwaysInside(cfg, initiator, destination, proto, es[..|es| - 1]);
      StepFollows(cfg, c, ev);
      FollowsKeepsInside(cfg, c, ev.p, ev.a, Step(cfg, c, ev));
    }
  }

  /** What one packet makes the gateway send on such a connection. */
  function Sends(cfg: Config, c: Conn, p: Pkt, a: Advice): seq<Out> {
    match p.origin
    case Ext =>
      if c.state.Control? || c.state.Proxy? then [if c.initiator.Hih? then ToHih(p) else ToLih(p)]
      else if c.state.Drop? && p.proto.Tcp? && cfg.resetExt then [ResetExt(p)]
      else []
    case Intra => if c.state.Proxy? && c.initiator.Hih? then [ToHih(p)] else []
    case Lih =>
      if c.state.Proxy? || (c.state.Control? && ControlPasses(c.destination, a.verdict)) then [ToExt(p, 0)] else []
    case Hih =>
      match c.state
      case Init =>
        if cfg.denyHihInit then (if p.proto.Tcp? then [ResetHih(p)] else [])
        else if !ControlPasses(c.destination, a.verdict) then []
        else if c.destination.Ext? then [ToExt(p, 0)]
        else if c.destination.Intra? then [ToIntra(p)]
        else []
      case Control => if ControlPasses(c.destination, a.verdict) then [ToExt(p, 0)] else []
      case Proxy => if c.destination.Ext? then [ToExt(p, 0)] else if c.destination.Intra? then [ToIntra(p)] else []
      case _ => []
  }

  lemma HihSends(cfg: Config, c: Conn, p: Pkt, a: Advice, heard: Engine, answer: Outcome)
    requires Inside(c) && p.origin.Hih? && !c.state.Drop?
    ensures FromHih(cfg, c, p, a, heard, answer).out == c.out + Sends(cfg, c, p, a)
  {
  }

  lemma LihSends(cfg: Config, c: Conn, p: Pkt, a: Advice)
    requires Inside(c) && p.origin.Lih? && !c.state.Drop? && !c.state.Init?
    ensures FromLih(cfg, c, p, a).out == c.out + Sends(cfg, c, p, a)
  {
  }

  lemma StepSends(cfg: Config, c: Conn, ev: Event)
    requires Inside(c) && !c.crashed && (c.state.Init? ==> ev.p.origin.Hih?)
    ensures Step(cfg, c, ev).out == c.out + Sends(cfg, c, ev.p, ev.a)
  {
    if !c.state.Drop? {
      match ev.p.origin {
        case Lih => LihSends(cfg, c, ev.p, ev.a);
        case Hih => HihSends(cfg, c, ev.p, ev.a, Heard(c.eng, ev.p), Answer(c.eng, ev.p));
        case Ext =>
        case Intra =>
      }
    }
  }

  /**
   * The answers a honeypot's connection brings it: from outside under control and proxied, from inside only proxied.
   */
  function Replies(cfg: Config, initiator: Role, destination: Role, proto: Proto, es: seq<Event>): seq<Pkt> {
    if es == [] then []
    else
      var c, p := Run(cfg, Born(initiator, destination, proto), es[..|es| - 1]), es[|es| - 1].p;
      Replies(cfg, initiator, destination, proto, es[..|es| - 1])
      + if (p.origin.Ext? && (c.state.Control? || c.state.Proxy?))
        || (p.origin.Intra? && initiator.Hih? && c.state.Proxy?)
        then [p] else []
  }

  /** What is sent out for the honeypot: what its rule lets pass, and everything once it is proxied. */
  function Calls(cfg: Config, initiator: Role, destination: Role, proto: Proto, es: seq<Event>): seq<Pkt> {
    if es == [] then []
    else
      var c, ev := Run(cfg, Born(initiator, destination, proto), es[..|es| - 1]), es[|es| - 1];
      Calls(cfg, initiator, destination, proto, es[..|es| - 1])
      + if ev.p.origin == initiator && CallPasses(cfg, c, ev.a.verdict) then [ev.p] else []
  }

  predicate CallPasses(cfg: Config, c: Conn, v: Verdict) {
    match c.state
    case Init => !cfg.denyHihInit && ControlPasses(c.destination, v)
    case Control => ControlPasses(c.destination, v)
    case Proxy => true
    case _ => false
  }

  /** The packets of the run that left for the outside or an internal host. */
  function SentOut(out: seq<Out>): seq<Pkt> {
    if out == [] then []
    else
      SentOut(out[..|out| - 1])
      + match out[|out| - 1] case ToExt(p, _) => [p] case ToIntra(p) => [p] case _ => []
  }

  lemma SentOutAppend(out: seq<Out>, o: Out)
    ensures SentOut(out + [o]) == SentOut(out) + match o case ToExt(p, _) => [p] case ToIntra(p) => [p] case _ => []
  {
    assert (out + [o])[..|out|] == out;
  }

  /** One side's share of what one packet makes the gateway send. */
  lemma SharesOfSends(cfg: Config, c: Conn, p: Pkt, a: Advice)
    requires Inside(c) && (c.state.Init? ==> p.origin.Hih?) && (c.destination.Ext? || c.destination.Intra?)
    requires p.origin.Lih? || p.origin.Hih? ==> p.origin == c.initiator
    ensures var out := c.out + Sends(cfg, c, p, a);
            var replied := (p.origin.Ext? && (c.state.Control? || c.state.Proxy?))
                           || (p.origin.Intra? && c.initiator.Hih? && c.state.Proxy?);
            && ToBackOf(out) == ToBackOf(c.out) + (if c.initiator.Hih? && replied then [p] else [])
            && ToFrontOf(out) == ToFrontOf(c.out) + (if c.initiator.Lih? && replied then [p] else [])
            && SentOut(out)
               == SentOut(c.out) + if p.origin == c.initiator && CallPasses(cfg, c, a.verdict) then [p] else []
  {
    var sends := Sends(cfg, c, p, a);
    if sends == [] {
      assert c.out + sends == c.out;
    } else {
      assert sends == [sends[0]];
      HeardAppend(c.out, sends[0]);
      SentOutAppend(c.out, sends[0]);
    }
  }

  /** The packets of the honeypot's own side carry its origin. */
  predicate OwnSide(initiator: Role, es: seq<Event>) {
    forall i | 0 <= i < |es| && (es[i].p.origin.Lih? || es[i].p.origin.Hih?) :: es[i].p.origin == initiator
  }

  /**
   * Over every run of a connection a honeypot began to the outside or to an internal host: the honeypot hears exactly
   * the replies, the other honeypot nothing, and what is sent out is exactly what its rule lets pass. In order, each
   * once.
   */
  lemma {:induction false} HoneypotHears(cfg: Config, initiator: Role, destination: Role, proto: Proto, es: seq<Event>)
    requires Started(initiator, destination, es) && !initiator.Ext? && OwnSide(initiator, es)
    requires destination.Ext? || destination.Intra?
    ensures var out := Run(cfg, Born(initiator, destination, proto), es).out;
            var replies := Replies(cfg, initiator, destination, proto, es);
            && ToBackOf(out) == (if initiator.Hih? then replies else [])
            && ToFrontOf(out) == (if initiator.Lih? then replies else [])
            && SentOut(out) == Calls(cfg, initiator, destination, proto, es)
  {
    if es != [] {
      var c, ev := Run(cfg, Born(initiator, destination, proto), es[..|es| - 1]), es[|es| - 1];
      StartedPrefix(initiator, destination, es, |es| - 1);
      AlwaysInside(cfg, initiator, destination, proto, es[..|es| - 1]);
      HoneypotHears(cfg, initiator, destination, proto, es[..|es| - 1]);
      StepSends(cfg, c, ev);
      SharesOfSends(cfg, c, ev.p, ev.a);
    }
  }
}

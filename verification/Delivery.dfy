/**
 * Who hears what: the packets that reach the attacker and each honeypot over whole runs, and the numbers they are told
 * in.
 */
module Delivery {
  import opened Words
  import opened Sequence
  import opened Replay
  import opened Gateway
  import opened GatewayRuns
  import opened ReplayRuns

  // ----- what rules decide -----

  /** The next state of a connection the attacker sends a packet on, from the verdict on it. */
  predicate AttackerMoves(cfg: Config, s: State, a: Advice, t: State) {
    match s
    case Init =>
      if a.verdict.Accept? then t == (if cfg.backends > 0 || cfg.picker then Deciding else Proxy)
      else if a.verdict.NoRule? then t == (if cfg.backends > 0 then Deciding else Proxy)
      else t == Drop
    case Deciding =>
      if a.verdict.Reject? then t == Proxy
      else if a.verdict.DropIt? then t == Drop
      else t == (if a.verdict.Accept? && a.ready then Replaying else Deciding)
    case _ => t == s
  }

  /** Whether the verdict lets the packet pass. */
  predicate AttackerPasses(s: State, v: Verdict) {
    match s
    case Init => v.Accept? || v.NoRule?
    case Deciding => v.Defer? || v.NoRule?
    case Proxy => true
    case _ => false
  }

  /** The next state of a connection under control, from the verdict on a packet of the honeypot that began it. */
  predicate ControlMoves(destination: Role, v: Verdict, t: State) {
    match destination
    case Ext => t == (if v.NoRule? then Proxy else if v.Reject? || v.DropIt? then Drop else Control)
    case Intra => t == (if v.Accept? then Control else Drop)
    case _ => t == Proxy
  }

  predicate ControlPasses(destination: Role, v: Verdict) {
    match destination
    case Ext => v.NoRule? || v.Defer? || v.Accept?
    case Intra => v.Accept?
    case _ => true
  }

  /** A connection from outside between packets: it has a handler exactly while it is redirected. */
  ghost predicate Outside(c: Conn) {
    && c.eng.next <= |c.eng.buffer| && c.initiator.Ext? && c.destination.Lih? && !c.state.Control?
    && (c.hih <==> c.state.Replaying? || c.state.Forwarding?)
  }

  lemma FollowsKeepsOutside(cfg: Config, c: Conn, p: Pkt, a: Advice, d: Conn)
    requires Outside(c) && !d.crashed && Follows(cfg, c, p, a, d) && d.eng.next <= |d.eng.buffer|
    ensures Outside(d)
  {
  }

  lemma {:induction false} AlwaysOutside(cfg: Config, proto: Proto, es: seq<Event>)
    ensures !Run(cfg, Born(Ext, Lih, proto), es).crashed ==> Outside(Run(cfg, Born(Ext, Lih, proto), es))
  {
    if es != [] {
      var c := Run(cfg, Born(Ext, Lih, proto), es[..|es| - 1]);
      AlwaysOutside(cfg, proto, es[..|es| - 1]);
      if !c.crashed {
        StepFollows(cfg, c, es[|es| - 1]);
        if !Step(cfg, c, es[|es| - 1]).crashed {
          FollowsKeepsOutside(cfg, c, es[|es| - 1].p, es[|es| - 1].a, Step(cfg, c, es[|es| - 1]));
        }
      }
    }
  }

  lemma AttackerDecides(cfg: Config, c: Conn, p: Pkt, a: Advice)
    requires Outside(c) && !c.crashed && p.origin.Ext?
    ensures AttackerMoves(cfg, c.state, a, Handled(cfg, c, p, a).state)
  {
    DispatchedState(cfg, c, p, a, Begun(c.eng), Heard(c.eng, p), Answer(c.eng, p));
  }

  /** A honeypot's packet on a connection it began: what the rule of its destination makes of it. */
  lemma ControlDecides(cfg: Config, c: Conn, p: Pkt, a: Advice)
    requires c.eng.next <= |c.eng.buffer| && c.state.Control? && (p.origin.Hih? || p.origin.Lih?)
    ensures ControlMoves(c.destination, a.verdict, Handled(cfg, c, p, a).state)
    ensures Handled(cfg, c, p, a).out == if ControlPasses(c.destination, a.verdict) then c.out + [ToExt(p, 0)]
            else c.out
  {
    DispatchedState(cfg, c, p, a, Begun(c.eng), Heard(c.eng, p), Answer(c.eng, p));
  }

  /** The first packet of a connection a high-interaction honeypot begins. */
  lemma FirstCallDecides(cfg: Config, c: Conn, p: Pkt, a: Advice)
    requires c.eng.next <= |c.eng.buffer| && c.state.Init? && c.hih && p.origin.Hih?
             && (c.destination.Ext? || c.destination.Intra?)
    ensures var d := Handled(cfg, c, p, a);
            && (cfg.denyHihInit ==> d.state.Drop? && d.out == if p.proto.Tcp? then c.out + [ResetHih(p)] else c.out)
            && (!cfg.denyHihInit ==>
                && ControlMoves(c.destination, a.verdict, d.state)
                && d.out == if !ControlPasses(c.destination, a.verdict) then c.out
                            else c.out + [if c.destination.Ext? then ToExt(p, 0) else ToIntra(p)])
  {
    DispatchedState(cfg, c, p, a, Begun(c.eng), Heard(c.eng, p), Answer(c.eng, p));
  }

  /** A packet that ends a connection from outside in DROP. */
  predicate Drops(cfg: Config, c: Conn, p: Pkt, a: Advice) {
    || (p.origin.Ext? && c.state.Init? && (a.verdict.Defer? || a.verdict.Reject? || a.verdict.DropIt?))
    || (p.origin.Ext? && c.state.Deciding? && a.verdict.DropIt?)
    || (p.origin.Hih? && (c.state.Init? || c.state.Deciding?) && cfg.denyHihInit && p.proto.Udp?)
  }

  /** A packet after which a connection from outside is proxied for good. */
  predicate Proxies(cfg: Config, c: Conn, p: Pkt, a: Advice) {
    || (p.origin.Ext? && c.state.Init? && cfg.backends == 0
        && (a.verdict.NoRule? || (a.verdict.Accept? && !cfg.picker)))
    || (p.origin.Ext? && c.state.Deciding? && a.verdict.Reject?)
    || (p.origin.Hih? && (c.state.Init? || c.state.Deciding?) && !cfg.denyHihInit)
  }

  lemma FateStep(cfg: Config, c: Conn, p: Pkt, a: Advice, d: Conn)
    requires Outside(c) && !c.crashed && !d.crashed && Follows(cfg, c, p, a, d)
    ensures d.state.Drop? <==> c.state.Drop? || Drops(cfg, c, p, a)
    ensures d.state.Proxy? <==> c.state.Proxy? || Proxies(cfg, c, p, a)
  {
  }

  /** Some event of the run dropped the connection, or had it proxied. */
  predicate WasDropped(cfg: Config, proto: Proto, es: seq<Event>) {
    es != [] && (WasDropped(cfg, proto, es[..|es| - 1])
                 || Drops(cfg, Run(cfg, Born(Ext, Lih, proto), es[..|es| - 1]), es[|es| - 1].p, es[|es| - 1].a))
  }

  predicate WasProxied(cfg: Config, proto: Proto, es: seq<Event>) {
    es != [] && (WasProxied(cfg, proto, es[..|es| - 1])
                 || Proxies(cfg, Run(cfg, Born(Ext, Lih, proto), es[..|es| - 1]), es[|es| - 1].p, es[|es| - 1].a))
  }

  /** Exactly when a connection from outside is dropped, and exactly when it is proxied, over every run. */
  lemma {:induction false} FateIff(cfg: Config, proto: Proto, es: seq<Event>)
    requires !Run(cfg, Born(Ext, Lih, proto), es).crashed
    ensures Run(cfg, Born(Ext, Lih, proto), es).state.Drop? <==> WasDropped(cfg, proto, es)
    ensures Run(cfg, Born(Ext, Lih, proto), es).state.Proxy? <==> WasProxied(cfg, proto, es)
  {
    if es != [] {
      var c, ev := Run(cfg, Born(Ext, Lih, proto), es[..|es| - 1]), es[|es| - 1];
      FateIff(cfg, proto, es[..|es| - 1]);
      AlwaysOutside(cfg, proto, es[..|es| - 1]);
      StepFollows(cfg, c, ev);
      FateStep(cfg, c, ev.p, ev.a, Run(cfg, Born(Ext, Lih, proto), es));
    }
  }

  // ----- what one packet adds on a connection from outside -----

  predicate HasLih(b: seq<Pkt>) {
    exists p | p in b :: p.origin.Lih?
  }

  /** What is sent, apart from the replay, for one packet on a connection from outside. */
  function Adds(cfg: Config, c: Conn, p: Pkt, a: Advice): seq<Out> {
    match p.origin
    case Lih =>
      if c.state.Init? || c.state.Deciding? || c.state.Proxy? then [ToExt(p, 0)]
      else if p.proto.Tcp? && !c.state.Drop? then [ResetLih(p)]
      else []
    case Hih => if c.state.Forwarding? then [ToExt(p, c.eng.delta)] else []
    case Ext =>
      if AttackerPasses(c.state, a.verdict) then [ToLih(p)]
      else if Triggers(c, p, a) && c.proto.Tcp? && HasLih(c.eng.buffer)
           then [ResetLih(c.eng.buffer[|c.eng.buffer| - 1])]
      else if c.state.Drop? && p.proto.Tcp? && cfg.resetExt then [ResetExt(p)]
      else []
    case Intra => []
  }

  lemma HasLihIff(b: seq<Pkt>)
    ensures AnyLih(b) <==> HasLih(b)
  {
    if AnyLih(b) {
      var i :| 0 <= i < |b| && b[i].origin.Lih?;
      assert b[i] in b;
    }
    if HasLih(b) {
      var p :| p in b && p.origin.Lih?;
      var i :| 0 <= i < |b| && b[i] == p;
      assert b[i].origin.Lih?;
    }
  }

  lemma AddsOfExt(cfg: Config, c: Conn, p: Pkt, a: Advice, begun: Engine)
    requires Outside(c) && p.origin.Ext? && !c.state.Drop?
    ensures FromExt(cfg, c, p, a, begun).out == c.out + Adds(cfg, c, p, a)
  {
    HasLihIff(c.eng.buffer);
    if c.state.Init? || c.state.Deciding? {
      var d := Decided(cfg, c, a, begun);
      var sent := if Passes(c, a.verdict) then ProxiedIn(d, p) else d;
      assert FromExt(cfg, c, p, a, begun) == Keep(cfg, sent, p);
      assert Keep(cfg, sent, p).out == sent.out;
    }
  }

  lemma AddsOfHih(cfg: Config, c: Conn, p: Pkt, a: Advice, heard: Engine, answer: Outcome)
    requires Outside(c) && p.origin.Hih? && !c.state.Drop?
    ensures FromHih(cfg, c, p, a, heard, answer).out == c.out + Adds(cfg, c, p, a)
  {
  }

  lemma AddsOfLih(cfg: Config, c: Conn, p: Pkt, a: Advice)
    requires Outside(c) && p.origin.Lih? && !c.state.Drop?
    ensures FromLih(cfg, c, p, a).out == c.out + Adds(cfg, c, p, a)
  {
  }

  lemma StepAdds(cfg: Config, c: Conn, ev: Event)
    requires Outside(c) && !c.crashed
    ensures Step(cfg, c, ev).out == c.out + Adds(cfg, c, ev.p, ev.a)
  {
    if !c.state.Drop? {
      match ev.p.origin {
        case Lih => AddsOfLih(cfg, c, ev.p, ev.a);
        case Hih => AddsOfHih(cfg, c, ev.p, ev.a, Heard(c.eng, ev.p), Answer(c.eng, ev.p));
        case Ext => AddsOfExt(cfg, c, ev.p, ev.a, Begun(c.eng));
        case Intra =>
      }
    }
  }

  // ----- what each side hears -----

  /** A packet as the attacker sees it: with this added to its sequence number. */
  datatype Shown = Shown(p: Pkt, shift: U32)

  function ToAttackerOf(out: seq<Out>): seq<Shown> {
    if out == [] then []
    else
      ToAttackerOf(out[..|out| - 1]) + match out[|out| - 1] case ToExt(p, shift) => [Shown(p, shift)] case _ => []
  }

  function ToFrontOf(out: seq<Out>): seq<Pkt> {
    if out == [] then []
    else ToFrontOf(out[..|out| - 1]) + match out[|out| - 1] case ToLih(p) => [p] case _ => []
  }

  function ToBackOf(out: seq<Out>): seq<Pkt> {
    if out == [] then []
    else ToBackOf(out[..|out| - 1]) + match out[|out| - 1] case ToHih(p) => [p] case _ => []
  }

  lemma HeardAppend(out: seq<Out>, o: Out)
    ensures ToAttackerOf(out + [o]) == ToAttackerOf(out) + match o case ToExt(p, shift) => [Shown(p, shift)] case _ =>
            []
    ensures ToFrontOf(out + [o]) == ToFrontOf(out) + match o case ToLih(p) => [p] case _ => []
    ensures ToBackOf(out + [o]) == ToBackOf(out) + match o case ToHih(p) => [p] case _ => []
  {
    assert (out + [o])[..|out|] == out;
  }

  /** The packets of one origin among the events, in order. */
  function Said(es: seq<Event>, origin: Role): seq<Pkt> {
    if es == [] then []
    else Said(es[..|es| - 1], origin) + if es[|es| - 1].p.origin == origin then [es[|es| - 1].p] else []
  }

  function Shifted(s: seq<Pkt>, shift: U32): seq<Shown> {
    if s == [] then [] else Shifted(s[..|s| - 1], shift) + [Shown(s[|s| - 1], shift)]
  }

  /** The events of a run up to where its connection was redirected or dropped, if it was. */
  function OnFront(cfg: Config, proto: Proto, es: seq<Event>): seq<Event> {
    if es == [] then []
    else
      var s := Run(cfg, Born(Ext, Lih, proto), es).state;
      if s.Init? || s.Deciding? || s.Proxy? then es else OnFront(cfg, proto, es[..|es| - 1])
  }

  /** The events since forwarding began. */
  function OnBack(cfg: Config, proto: Proto, es: seq<Event>): seq<Event> {
    if es == [] || !Run(cfg, Born(Ext, Lih, proto), es[..|es| - 1]).state.Forwarding? then []
    else OnBack(cfg, proto, es[..|es| - 1]) + [es[|es| - 1]]
  }

  /** The events of the replay: after the trigger, up to and with the completing answer. */
  function InReplay(cfg: Config, proto: Proto, es: seq<Event>): seq<Event> {
    if es == [] then []
    else
      InReplay(cfg, proto, es[..|es| - 1])
      + if Run(cfg, Born(Ext, Lih, proto), es[..|es| - 1]).state.Replaying? then [es[|es| - 1]] else []
  }

  lemma SaidAppend(es: seq<Event>, ev: Event, origin: Role)
    ensures Said(es + [ev], origin) == Said(es, origin) + if ev.p.origin == origin then [ev.p] else []
  {
    assert (es + [ev])[..|es|] == es;
  }

  lemma ShiftedAppend(s: seq<Pkt>, p: Pkt, shift: U32)
    ensures Shifted(s + [p], shift) == Shifted(s, shift) + [Shown(p, shift)]
  {
    assert (s + [p])[..|s|] == s;
  }

  predicate AtFront(s: State) {
    s.Init? || s.Deciding? || s.Proxy?
  }

  /** How a connection can leave the low-interaction honeypot, and that it does not come back. */
  lemma LeavesFront(cfg: Config, c: Conn, p: Pkt, a: Advice, d: Conn)
    requires Outside(c) && !c.crashed && !d.crashed && Follows(cfg, c, p, a, d)
    ensures AtFront(d.state) ==> AtFront(c.state)
    ensures AtFront(c.state) && p.origin.Lih? ==> AtFront(d.state)
    ensures c.state.Forwarding? ==> d.state.Forwarding? && d.eng.delta == c.eng.delta
  {
  }

  lemma ForwardsOn(cfg: Config, c: Conn, p: Pkt, a: Advice, d: Conn)
    requires Outside(c) && !c.crashed && Follows(cfg, c, p, a, d) && c.state.Forwarding?
    ensures Packets(d.eng.sent) == Packets(c.eng.sent) + (if p.origin.Ext? then [p] else [])
            && d.eng.buffer == c.eng.buffer
  {
    PacketsAppend(c.eng.sent, Forwarded(p, AckTo(p, c.eng.delta)));
  }

  /** One step of a run of a connection from outside, in parts. */
  lemma LastStep(cfg: Config, proto: Proto, es: seq<Event>) returns (c: Conn, d: Conn, ev: Event)
    requires es != [] && !Run(cfg, Born(Ext, Lih, proto), es).crashed
    ensures ev == es[|es| - 1] && c == Run(cfg, Born(Ext, Lih, proto), es[..|es| - 1])
    ensures d == Run(cfg, Born(Ext, Lih, proto), es) && !c.crashed && !d.crashed
    ensures Outside(c) && Outside(d) && d.out == c.out + Adds(cfg, c, ev.p, ev.a)
    ensures AtFront(d.state) ==> AtFront(c.state)
    ensures AtFront(c.state) && ev.p.origin.Lih? ==> AtFront(d.state)
    ensures c.state.Forwarding? ==>
            && d.state.Forwarding? && d.eng.delta == c.eng.delta && d.eng.buffer == c.eng.buffer
            && Packets(d.eng.sent) == Packets(c.eng.sent) + if ev.p.origin.Ext? then [ev.p] else []
  {
    ev := es[|es| - 1];
    c, d := Run(cfg, Born(Ext, Lih, proto), es[..|es| - 1]), Run(cfg, Born(Ext, Lih, proto), es);
    AlwaysOutside(cfg, proto, es[..|es| - 1]);
    AlwaysOutside(cfg, proto, es);
    StepFollows(cfg, c, ev);
    StepAdds(cfg, c, ev);
    LeavesFront(cfg, c, ev.p, ev.a, d);
    if c.state.Forwarding? {
      ForwardsOn(cfg, c, ev.p, ev.a, d);
    }
  }

  lemma {:induction false} OnlyForwardingHasBack(cfg: Config, proto: Proto, es: seq<Event>)
    requires !Run(cfg, Born(Ext, Lih, proto), es).crashed && !Run(cfg, Born(Ext, Lih, proto), es).state.Forwarding?
    ensures OnBack(cfg, proto, es) == []
  {
    if es != [] {
      var c, d, ev := LastStep(cfg, proto, es);
    }
  }

  /** What one packet makes the attacker hear. */
  function Tells(c: Conn, p: Pkt): seq<Shown> {
    if p.origin.Lih? && (c.state.Init? || c.state.Deciding? || c.state.Proxy?) then [Shown(p, 0)]
    else if p.origin.Hih? && c.state.Forwarding? then [Shown(p, c.eng.delta)]
    else []
  }

  lemma AddsTells(cfg: Config, c: Conn, p: Pkt, a: Advice)
    requires Outside(c)
    ensures ToAttackerOf(c.out + Adds(cfg, c, p, a)) == ToAttackerOf(c.out) + Tells(c, p)
    ensures ToFrontOf(c.out + Adds(cfg, c, p, a))
            == ToFrontOf(c.out) + if p.origin.Ext? && AttackerPasses(c.state, a.verdict) then [p] else []
  {
    var adds := Adds(cfg, c, p, a);
    if adds == [] {
      assert c.out + adds == c.out;
    } else {
      assert adds == [adds[0]];
      HeardAppend(c.out, adds[0]);
    }
  }

  /** The parts of a run after one more event. */
  lemma PartsAfter(cfg: Config, proto: Proto, es: seq<Event>, c: Conn, d: Conn)
    requires es != [] && !c.crashed && !d.crashed && (AtFront(d.state) ==> AtFront(c.state))
    requires c == Run(cfg, Born(Ext, Lih, proto), es[..|es| - 1]) && d == Run(cfg, Born(Ext, Lih, proto), es)
    ensures OnFront(cfg, proto, es) == if AtFront(d.state) then es else OnFront(cfg, proto, es[..|es| - 1])
    ensures AtFront(c.state) ==> OnFront(cfg, proto, es[..|es| - 1]) == es[..|es| - 1]
    ensures OnBack(cfg, proto, es) == if c.state.Forwarding? then OnBack(cfg, proto, es[..|es| - 1]) + [es[|es| - 1]]
            else []
    ensures !c.state.Forwarding? ==> OnBack(cfg, proto, es[..|es| - 1]) == []
  {
    if !c.state.Forwarding? {
      OnlyForwardingHasBack(cfg, proto, es[..|es| - 1]);
    }
  }

  /**
   * Everything the low-interaction honeypot said in `front`, unchanged, and then everything the high-interaction
   * honeypot said in `back`, its sequence numbers shifted.
   */
  predicate HeardIs(out: seq<Out>, front: seq<Event>, back: seq<Event>, delta: U32) {
    ToAttackerOf(out) == Shifted(Said(front, Lih), 0) + Shifted(Said(back, Hih), delta)
  }

  lemma Grouped<T>(a: seq<T>, b: seq<T>, c: seq<T>)
    ensures (a + b) + c == a + (b + c)
  {
  }

  lemma Nothing<T>(a: seq<T>)
    ensures a + [] == a
  {
  }

  lemma ShiftedSaid(es: seq<Event>, ev: Event, origin: Role, shift: U32)
    ensures Shifted(Said(es + [ev], origin), shift)
            == Shifted(Said(es, origin), shift) + if ev.p.origin == origin then [Shown(ev.p, shift)] else []
  {
    SaidAppend(es, ev, origin);
    if ev.p.origin == origin {
      ShiftedAppend(Said(es, origin), ev.p, shift);
    } else {
      Nothing(Said(es, origin));
      Nothing(Shifted(Said(es, origin), shift));
    }
  }

  lemma FrontSaid(c: Conn, p: Pkt, front: seq<Event>, front': seq<Event>)
    requires !c.state.Forwarding?
    requires Said(front', Lih) == Said(front, Lih) + if AtFront(c.state) && p.origin.Lih? then [p] else []
    ensures Shifted(Said(front', Lih), 0) == Shifted(Said(front, Lih), 0) + Tells(c, p)
  {
    if AtFront(c.state) && p.origin.Lih? {
      ShiftedAppend(Said(front, Lih), p, 0);
    } else {
      Nothing(Said(front, Lih));
      Nothing(Shifted(Said(front, Lih), 0));
    }
  }

  lemma HearsFront(c: Conn, d: Conn, ev: Event, front: seq<Event>, front': seq<Event>)
    requires HeardIs(c.out, front, [], c.eng.delta) && !c.state.Forwarding?
    requires ToAttackerOf(d.out) == ToAttackerOf(c.out) + Tells(c, ev.p)
    requires Said(front', Lih) == Said(front, Lih) + if AtFront(c.state) && ev.p.origin.Lih? then [ev.p] else []
    ensures HeardIs(d.out, front', [], d.eng.delta)
  {
    FrontSaid(c, ev.p, front, front');
    Nothing(Shifted(Said(front, Lih), 0));
    Nothing(Shifted(Said(front', Lih), 0));
  }

  lemma HearsBack(c: Conn, d: Conn, ev: Event, front: seq<Event>, back: seq<Event>)
    requires HeardIs(c.out, front, back, c.eng.delta) && c.state.Forwarding? && d.eng.delta == c.eng.delta
    requires ToAttackerOf(d.out) == ToAttackerOf(c.out) + Tells(c, ev.p)
    ensures HeardIs(d.out, front, back + [ev], d.eng.delta)
  {
    ShiftedSaid(back, ev, Hih, c.eng.delta);
    Grouped(Shifted(Said(front, Lih), 0), Shifted(Said(back, Hih), c.eng.delta), Tells(c, ev.p));
  }

  lemma HearsNext(c: Conn, d: Conn, ev: Event, es: seq<Event>, front: seq<Event>, back: seq<Event>,
                  front': seq<Event>, back': seq<Event>)
    requires es != [] && ev == es[|es| - 1]
    requires HeardIs(c.out, front, back, c.eng.delta) && ToAttackerOf(d.out) == ToAttackerOf(c.out) + Tells(c, ev.p)
    requires AtFront(d.state) ==> AtFront(c.state)
    requires AtFront(c.state) && ev.p.origin.Lih? ==> AtFront(d.state)
    requires c.state.Forwarding? ==> d.state.Forwarding? && d.eng.delta == c.eng.delta
    requires AtFront(c.state) ==> front == es[..|es| - 1]
    requires front' == if AtFront(d.state) then es else front
    requires back' == if c.state.Forwarding? then back + [ev] else []
    requires !c.state.Forwarding? ==> back == []
    ensures HeardIs(d.out, front', back', d.eng.delta)
  {
    if c.state.Forwarding? {
      HearsBack(c, d, ev, front, back);
    } else {
      HearsFront(c, d, ev, front, front');
    }
  }

  /**
   * What the attacker hears, over every run of a connection from outside: everything the low-interaction honeypot says
   * until the connection is redirected or dropped, unchanged, and then everything the high-interaction honeypot says
   * once forwarding has begun, its sequence numbers shifted by one difference. In order, each packet once, and nothing
   * else.
   */
  lemma {:induction false} AttackerHears(cfg: Config, proto: Proto, es: seq<Event>)
    requires !Run(cfg, Born(Ext, Lih, proto), es).crashed
    ensures var d := Run(cfg, Born(Ext, Lih, proto), es);
            HeardIs(d.out, OnFront(cfg, proto, es), OnBack(cfg, proto, es), d.eng.delta)
  {
    if es != [] {
      var before := es[..|es| - 1];
      var c, d, ev := LastStep(cfg, proto, es);
      AttackerHears(cfg, proto, before);
      AddsTells(cfg, c, ev.p, ev.a);
      PartsAfter(cfg, proto, es, c, d);
      HearsNext(c, d, ev, es, OnFront(cfg, proto, before), OnBack(cfg, proto, before), OnFront(cfg, proto, es),
                OnBack(cfg, proto, es));
    }
  }

  /** The attacker's packets the gateway passes on to the low-interaction honeypot. */
  function PassedOn(cfg: Config, proto: Proto, es: seq<Event>): seq<Pkt> {
    if es == [] then []
    else
      var c, ev := Run(cfg, Born(Ext, Lih, proto), es[..|es| - 1]), es[|es| - 1];
      PassedOn(cfg, proto, es[..|es| - 1])
      + if ev.p.origin.Ext? && AttackerPasses(c.state, ev.a.verdict) then [ev.p] else []
  }

  /**
   * What the low-interaction honeypot hears: the attacker's packets that pass, all of them once the connection is
   * proxied.
   */
  lemma {:induction false} FrontHears(cfg: Config, proto: Proto, es: seq<Event>)
    requires !Run(cfg, Born(Ext, Lih, proto), es).crashed
    ensures ToFrontOf(Run(cfg, Born(Ext, Lih, proto), es).out) == PassedOn(cfg, proto, es)
  {
    if es != [] {
      var c, d, ev := LastStep(cfg, proto, es);
      FrontHears(cfg, proto, es[..|es| - 1]);
      AddsTells(cfg, c, ev.p, ev.a);
    }
  }

  /** The recording's part of the attacker, and what the attacker said in `back`. */
  predicate GivenIs(e: Engine, back: seq<Event>) {
    Packets(e.sent) == ExtOf(e.buffer) + Said(back, Ext)
  }

  lemma GivenOn(e: Engine, f: Engine, ev: Event, back: seq<Event>)
    requires GivenIs(e, back) && f.buffer == e.buffer
    requires Packets(f.sent) == Packets(e.sent) + if ev.p.origin.Ext? then [ev.p] else []
    ensures GivenIs(f, back + [ev])
  {
    SaidAppend(back, ev, Ext);
    if !ev.p.origin.Ext? {
      assert Said(back + [ev], Ext) == Said(back, Ext);
    }
  }

  /**
   * What the high-interaction honeypot hears: the attacker's part of the recording, and what the attacker says from
   * then on.
   */
  lemma {:induction false} BackHears(cfg: Config, proto: Proto, es: seq<Event>)
    requires !Run(cfg, Born(Ext, Lih, proto), es).crashed && Run(cfg, Born(Ext, Lih, proto), es).state.Forwarding?
    ensures GivenIs(Run(cfg, Born(Ext, Lih, proto), es).eng, OnBack(cfg, proto, es))
  {
    var c, d, ev := LastStep(cfg, proto, es);
    PartsAfter(cfg, proto, es, c, d);
    if c.state.Forwarding? {
      BackHears(cfg, proto, es[..|es| - 1]);
      GivenOn(c.eng, d.eng, ev, OnBack(cfg, proto, es[..|es| - 1]));
    } else {
      BackBegins(cfg, proto, es, c, d);
    }
  }

  lemma BackBegins(cfg: Config, proto: Proto, es: seq<Event>, c: Conn, d: Conn)
    requires es != [] && c == Run(cfg, Born(Ext, Lih, proto), es[..|es| - 1])
             && d == Run(cfg, Born(Ext, Lih, proto), es)
    requires !c.state.Forwarding? && d.state.Forwarding? && !c.crashed
    ensures GivenIs(d.eng, [])
  {
    var ev := es[|es| - 1];
    AlwaysSound(cfg, proto, es[..|es| - 1]);
    StepFollows(cfg, c, ev);
    BecomesForwarding(cfg, c, ev.p, ev.a, d);
    assert ExtOf(d.eng.buffer) + [] == ExtOf(d.eng.buffer);
  }
}

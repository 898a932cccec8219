/**
 * What the dispatcher does to the frame of each single packet, over whole runs: the series `Frame.DispatchKeepsLayout`
 * assumes.
 */
module FrameRuns {
  import opened Words
  import opened Replay
  import opened Gateway
  import opened GatewayRuns
  import opened ReplayRuns
  import Checksum
  import Frame

  /** Work on a frame: proxied inwards or outwards, forwarded to the high-interaction honeypot, or back from it. */
  datatype Work = ProxyIn | ProxyOut | ReplayIn | ReturnOut

  predicate Does(op: Frame.Op, w: Work) {
    match w
    case ProxyIn => op.NatIn?
    case ProxyOut => op.NatOut?
    case ReplayIn => op.ForwardIn?
    case ReturnOut => op.ForwardOut?
  }

  /** The work a packet sent in state `s` had done to it; resets are built in frames of their own. */
  function WorkOf(s: State, o: Out, p: Pkt): seq<Work> {
    match o
    case ToLih(q) => if q == p then [ProxyIn] else []
    case ToHih(q) => if q != p then [] else if q.origin.Ext? then [ProxyIn] else [ProxyOut]
    case ToExt(q, _) => if q != p then [] else if s.Forwarding? then [ReturnOut] else [ProxyOut]
    case ToIntra(q) => if q == p then [ProxyOut] else []
    case _ => []
  }

  function Times(n: int): seq<Work> {
    if n <= 0 then [] else [ReplayIn] + Times(n - 1)
  }

  function CountOf(s: seq<Pkt>, p: Pkt): nat {
    if s == [] then 0 else CountOf(s[..|s| - 1], p) + if s[|s| - 1] == p then 1 else 0
  }

  function NewReplays(s: seq<Pkt>, t: seq<Pkt>, p: Pkt): seq<Work> {
    Times(CountOf(t, p) - CountOf(s, p))
  }

  /** The sending part of one event's work on a packet. */
  function SendingWork(c: Conn, d: Conn, p: Pkt): seq<Work> {
    if |d.out| > |c.out| then WorkOf(c.state, d.out[|c.out|], p) else []
  }

  /** The work one event does on the frame of `p`, whichever packet the event brings. */
  function StepWork(c: Conn, d: Conn, p: Pkt): seq<Work> {
    SendingWork(c, d, p) + NewReplays(Packets(c.eng.sent), Packets(d.eng.sent), p)
  }

  /** All the work a run does on the frame of `p`, in order. */
  function WorkOn(cfg: Config, c: Conn, es: seq<Event>, p: Pkt): seq<Work>
    requires c.eng.next <= |c.eng.buffer|
  {
    if es == [] then []
    else WorkOn(cfg, c, es[..|es| - 1], p) + StepWork(Run(cfg, c, es[..|es| - 1]), Run(cfg, c, es), p)
  }

  // What one event sends

  /** Who is sent where, besides the replay: always the event's own packet. */
  predicate Sends(c: Conn, p: Pkt, o: Out) {
    match o
    case ToLih(q) => q == p && p.origin.Ext? && !InRedirection(c)
    case ToHih(q) => q == p && ((p.origin.Ext? && !InRedirection(c)) || p.origin.Intra?)
    case ToExt(q, _) => q == p && (p.origin.Lih? || p.origin.Hih?)
    case ToIntra(q) => q == p && p.origin.Hih?
    case _ => true
  }

  predicate SendsAtMostOne(c: Conn, p: Pkt, d: Conn) {
    d.out == c.out || (|d.out| == |c.out| + 1 && d.out[..|c.out|] == c.out && Sends(c, p, d.out[|c.out|]))
  }

  lemma DecidedOut(cfg: Config, c: Conn, a: Advice, begun: Engine)
    requires Asks(c.state)
    ensures var d := Decided(cfg, c, a, begun);
            d.out == c.out
              || (!Passes(c, a.verdict) && |d.out| == |c.out| + 1 && d.out[..|c.out|] == c.out
                  && d.out[|c.out|].ResetLih?)
  {
  }

  lemma ProxiedIfPassing(cfg: Config, c: Conn, p: Pkt, d: Conn, passes: bool)
    requires p.origin.Ext? && !InRedirection(c)
    requires d.out == c.out
             || (!passes && |d.out| == |c.out| + 1 && d.out[..|c.out|] == c.out && d.out[|c.out|].ResetLih?)
    ensures SendsAtMostOne(c, p, Keep(cfg, if passes then ProxiedIn(d, p) else d, p))
  {
  }

  lemma SentFromExt(cfg: Config, c: Conn, p: Pkt, a: Advice, begun: Engine)
    requires p.origin.Ext?
    ensures SendsAtMostOne(c, p, FromExt(cfg, c, p, a, begun))
  {
    if c.state.Init? || c.state.Deciding? {
      var d := Decided(cfg, c, a, begun);
      DecidedOut(cfg, c, a, begun);
      ProxiedIfPassing(cfg, c, p, d, Passes(c, a.verdict));
      assert FromExt(cfg, c, p, a, begun) == Keep(cfg, if Passes(c, a.verdict) then ProxiedIn(d, p) else d, p);
    }
  }

  /** What is decided and, if it passes, sent on; storing sends nothing. */
  lemma SentIfPassing(c: Conn, p: Pkt, d: Conn, passes: bool)
    requires p.origin.Lih? || p.origin.Hih?
    requires d.out == c.out
             || (!passes && |d.out| == |c.out| + 1 && d.out[..|c.out|] == c.out && d.out[|c.out|].ResetLih?)
    ensures SendsAtMostOne(c, p, if passes then Send(d, ToExt(p, 0)) else d)
  {
  }

  lemma SentFromLih(cfg: Config, c: Conn, p: Pkt, a: Advice)
    requires p.origin.Lih?
    ensures SendsAtMostOne(c, p, FromLih(cfg, c, p, a))
  {
    if c.state.Control? {
      var n := c.(eng := NoteLihSyn(c.eng, p));
      var d := Decided(cfg, n, a, n.eng);
      DecidedOut(cfg, n, a, n.eng);
      SentIfPassing(c, p, d, Passes(n, a.verdict));
      assert FromLih(cfg, c, p, a).out == (if Passes(n, a.verdict) then Send(d, ToExt(p, 0)) else d).out;
    }
  }

  lemma SentFromUnasked(cfg: Config, c: Conn, p: Pkt, a: Advice)
    requires p.origin.Hih?
    ensures SendsAtMostOne(c, p, FromUnasked(cfg, c, p, a))
  {
    var n := Switch(c, Control);
    DecidedOut(cfg, n, a, n.eng);
  }

  lemma SentFromHih(cfg: Config, c: Conn, p: Pkt, a: Advice, heard: Engine, answer: Outcome)
    requires p.origin.Hih? && !c.state.Drop?
    ensures SendsAtMostOne(c, p, FromHih(cfg, c, p, a, heard, answer))
  {
    if c.state.Control? {
      DecidedOut(cfg, c, a, c.eng);
    } else if c.state.Init? || c.state.Deciding? {
      SentFromUnasked(cfg, c, p, a);
    }
  }

  /** One turn of the dispatcher sends at most one packet besides the replay, the one it was called for. */
  lemma DispatchedSends(cfg: Config, c: Conn, p: Pkt, a: Advice, begun: Engine, heard: Engine, answer: Outcome)
    ensures SendsAtMostOne(c, p, Dispatched(cfg, c, p, a, begun, heard, answer))
  {
    if !c.state.Drop? {
      match p.origin {
        case Lih => SentFromLih(cfg, c, p, a);
        case Hih => SentFromHih(cfg, c, p, a, heard, answer);
        case Ext => SentFromExt(cfg, c, p, a, begun);
        case Intra =>
      }
    }
  }

  lemma StepSends(cfg: Config, c: Conn, ev: Event)
    requires c.eng.next <= |c.eng.buffer|
    ensures SendsAtMostOne(c, ev.p, Step(cfg, c, ev))
  {
    DispatchedSends(cfg, c, ev.p, ev.a, Begun(c.eng), Heard(c.eng, ev.p), Answer(c.eng, ev.p));
  }

  // Packets are told apart by their number

  /** The packets of a run are numbered in the order of their arrival. */
  predicate Arrivals(es: seq<Event>) {
    forall i | 0 <= i < |es| :: es[i].p.id == i
  }

  /** Packets in order of arrival, all of them among the first `n`. */
  predicate Ordered(s: seq<Pkt>, n: nat) {
    && (forall i, j | 0 <= i < j < |s| :: s[i].id < s[j].id)
    && (forall i | 0 <= i < |s| :: s[i].id < n)
  }

  lemma OrderedPrefix(s: seq<Pkt>, m: nat, n: nat)
    requires m <= |s| && Ordered(s, n)
    ensures Ordered(s[..m], n)
  {
  }

  lemma OrderedAppend(s: seq<Pkt>, p: Pkt)
    requires Ordered(s, p.id)
    ensures Ordered(s + [p], p.id + 1)
  {
  }

  lemma {:induction false} ExtOfMembers(s: seq<Pkt>)
    ensures forall i | 0 <= i < |ExtOf(s)| :: ExtOf(s)[i] in s
  {
    if s != [] {
      ExtOfMembers(s[..|s| - 1]);
    }
  }

  lemma {:induction false} ExtOfOrdered(s: seq<Pkt>, n: nat)
    requires Ordered(s, n)
    ensures Ordered(ExtOf(s), n)
  {
    if s != [] {
      var before, last := s[..|s| - 1], s[|s| - 1];
      assert Ordered(before, last.id);
      ExtOfOrdered(before, last.id);
      OrderedAppend(ExtOf(before), last);
    }
  }

  lemma {:induction false} CountOfOrdered(s: seq<Pkt>, n: nat, p: Pkt)
    requires Ordered(s, n)
    ensures CountOf(s, p) == if p in s then 1 else 0
  {
    if s != [] {
      var before, last := s[..|s| - 1], s[|s| - 1];
      assert Ordered(before, last.id);
      CountOfOrdered(before, last.id, p);
      assert s == before + [last];
      if p in before {
        var i :| 0 <= i < |before| && before[i] == p;
        assert s[i].id < s[|s| - 1].id;
      }
    }
  }

  // The replay's part

  /** The packets one event forwards to the high-interaction honeypot. */
  function Added(c: Conn, p: Pkt, a: Advice): seq<Pkt>
    requires c.eng.next <= |c.eng.buffer|
  {
    if Triggers(c, p, a)
       || (p.origin.Hih? && c.state.Replaying? && Matches(c.eng.expected, p) && c.eng.next < |c.eng.buffer|)
    then c.eng.buffer[c.eng.next..NextGate(c.eng.buffer, c.eng.next)]
    else if p.origin.Ext? && c.state.Forwarding? && c.hih then [p]
    else []
  }

  lemma BegunAdds(e: Engine, max: nat, p: Pkt)
    requires e.next <= |e.buffer|
    ensures Packets(Stored(Begun(e), max, p).sent) == Packets(e.sent) + e.buffer[e.next..NextGate(e.buffer, e.next)]
  {
    PacketsSentUpTo(e, NextGate(e.buffer, e.next));
  }

  lemma HeardAdds(e: Engine, p: Pkt)
    requires e.next <= |e.buffer|
    ensures Packets(Heard(e, p).sent) == Packets(e.sent) + if Matches(e.expected, p) && e.next < |e.buffer|
                                                            then e.buffer[e.next..NextGate(e.buffer, e.next)] else []
  {
    PacketsSentUpTo(Tested(NoteHihSyn(e, p), p), NextGate(e.buffer, e.next));
  }

  lemma EngineAdds(cfg: Config, c: Conn, p: Pkt, a: Advice)
    requires c.eng.next <= |c.eng.buffer|
    ensures Packets(EngineAfter(cfg, c, p, a, Begun(c.eng), Heard(c.eng, p)).sent)
            == Packets(c.eng.sent) + Added(c, p, a)
  {
    if Triggers(c, p, a) {
      BegunAdds(c.eng, if HasBackends(cfg) then cfg.maxBuffer else 0, p);
    } else if p.origin.Hih? && c.state.Replaying? {
      HeardAdds(c.eng, p);
    } else if p.origin.Ext? && c.state.Forwarding? && c.hih {
      PacketsAppend(c.eng.sent, Forwarded(p, AckTo(p, c.eng.delta)));
    }
  }

  lemma EventAdds(cfg: Config, c: Conn, p: Pkt, a: Advice, d: Conn)
    requires c.eng.next <= |c.eng.buffer| && Follows(cfg, c, p, a, d)
    ensures Packets(d.eng.sent) == Packets(c.eng.sent) + Added(c, p, a)
  {
    EngineAdds(cfg, c, p, a);
  }

  /** They are packets of the attacker, recorded before or arriving now. */
  lemma AddedAreExt(cfg: Config, c: Conn, p: Pkt, a: Advice, q: Pkt)
    requires Sound(cfg, c) && q in Added(c, p, a)
    ensures q.origin.Ext? && (q in c.offered || (q == p && c.state.Forwarding?))
  {
    NextGateIsFirst(c.eng.buffer, c.eng.next);
    if !(p.origin.Ext? && c.state.Forwarding?) {
      assert q in c.eng.buffer;
    }
  }

  /** What the run has forwarded and offered so far, in order of arrival; only the attacker's packets are forwarded. */
  ghost predicate InOrder(c: Conn, n: nat) {
    SentInOrder(c, n) && Ordered(c.offered, n)
  }

  ghost predicate SentInOrder(c: Conn, n: nat) {
    Ordered(Packets(c.eng.sent), n) && forall q | q in Packets(c.eng.sent) :: q.origin.Ext?
  }

  lemma BufferOrdered(cfg: Config, c: Conn, n: nat)
    requires KeptInOrder(cfg, c) && Ordered(c.offered, n)
    ensures Ordered(c.eng.buffer, n)
  {
    if |c.offered| > cfg.maxBuffer {
      OrderedPrefix(c.offered, cfg.maxBuffer, n);
    }
  }

  lemma OfferedInOrder(cfg: Config, c: Conn, p: Pkt, a: Advice, d: Conn)
    requires c.eng.next <= |c.eng.buffer| && Follows(cfg, c, p, a, d) && Ordered(c.offered, p.id)
    ensures Ordered(d.offered, p.id + 1)
  {
    OrderedAppend(c.offered, p);
  }

  lemma RecordingOrdered(cfg: Config, d: Conn, n: nat)
    requires KeptInOrder(cfg, d) && Ordered(d.offered, n)
    ensures Faithful(d.eng) ==> Ordered(Packets(d.eng.sent), n)
    ensures Packets(d.eng.sent) == ExtOf(d.eng.buffer) ==> Ordered(Packets(d.eng.sent), n)
  {
    BufferOrdered(cfg, d, n);
    if Faithful(d.eng) {
      OrderedPrefix(d.eng.buffer, d.eng.next, n);
      ExtOfOrdered(d.eng.buffer[..d.eng.next], n);
    }
    ExtOfOrdered(d.eng.buffer, n);
  }

  lemma ForwardedOrdered(cfg: Config, c: Conn, p: Pkt, a: Advice, d: Conn)
    requires c.eng.next <= |c.eng.buffer| && Follows(cfg, c, p, a, d) && c.state.Forwarding? && InOrder(c, p.id)
    ensures Ordered(Packets(d.eng.sent), p.id + 1)
  {
    EventAdds(cfg, c, p, a, d);
    if Added(c, p, a) != [] {
      OrderedAppend(Packets(c.eng.sent), p);
    } else {
      assert Packets(d.eng.sent) == Packets(c.eng.sent);
    }
  }

  lemma AddingRedirects(cfg: Config, c: Conn, p: Pkt, a: Advice, d: Conn)
    requires c.eng.next <= |c.eng.buffer| && Follows(cfg, c, p, a, d) && !d.crashed && Added(c, p, a) != []
    ensures InRedirection(d)
  {
  }

  lemma RedirectedOrdered(cfg: Config, d: Conn, n: nat)
    requires Sound(cfg, d) && Ordered(d.offered, n) && InRedirection(d)
    requires d.state.Forwarding? ==> Packets(d.eng.sent) == ExtOf(d.eng.buffer)
    ensures Ordered(Packets(d.eng.sent), n)
  {
    RecordingOrdered(cfg, d, n);
  }

  lemma ReplayedInOrder(cfg: Config, c: Conn, p: Pkt, a: Advice, d: Conn)
    requires Sound(cfg, c) && Follows(cfg, c, p, a, d) && !d.crashed && InOrder(c, p.id) && Added(c, p, a) != []
    ensures Ordered(Packets(d.eng.sent), p.id + 1)
  {
    if c.state.Forwarding? {
      ForwardedOrdered(cfg, c, p, a, d);
    } else {
      AddingRedirects(cfg, c, p, a, d);
      FollowsKeepsSound(cfg, c, p, a, d);
      BecomesForwarding(cfg, c, p, a, d);
      OfferedInOrder(cfg, c, p, a, d);
      RedirectedOrdered(cfg, d, p.id + 1);
    }
  }

  lemma EventKeepsOrder(cfg: Config, c: Conn, p: Pkt, a: Advice, d: Conn)
    requires Sound(cfg, c) && !c.crashed && Follows(cfg, c, p, a, d) && InOrder(c, p.id)
    ensures InOrder(d, p.id + 1)
  {
    EventAdds(cfg, c, p, a, d);
    OfferedInOrder(cfg, c, p, a, d);
    if Added(c, p, a) == [] {
      assert Packets(d.eng.sent) == Packets(c.eng.sent);
    } else {
      ReplayedInOrder(cfg, c, p, a, d);
    }
    forall q | q in Packets(d.eng.sent) ensures q.origin.Ext? {
      if q !in Packets(c.eng.sent) {
        AddedAreExt(cfg, c, p, a, q);
      }
    }
  }

  /** A connection that did not come from outside replays nothing. */
  predicate Silent(c: Conn) {
    c.eng.sent == [] && !c.initiator.Ext?
  }

  lemma EventKeepsSilent(cfg: Config, c: Conn, p: Pkt, a: Advice, d: Conn)
    requires Silent(c) && c.eng.next <= |c.eng.buffer| && Follows(cfg, c, p, a, d)
    requires !c.state.Deciding? && !InRedirection(c)
    ensures Silent(d)
  {
  }

  lemma {:induction false} OthersSilent(cfg: Config, initiator: Role, destination: Role, proto: Proto, es: seq<Event>)
    requires Started(initiator, destination, es) && !initiator.Ext?
    ensures Silent(Run(cfg, Born(initiator, destination, proto), es))
  {
    if es != [] {
      var n := |es| - 1;
      var c := Run(cfg, Born(initiator, destination, proto), es[..n]);
      StartedPrefix(initiator, destination, es, n);
      OthersSilent(cfg, initiator, destination, proto, es[..n]);
      if n > 0 {
        AlwaysInPlace(cfg, initiator, destination, proto, es[..n]);
      }
      if !c.crashed {
        StepFollows(cfg, c, es[n]);
        EventKeepsSilent(cfg, c, es[n].p, es[n].a, Step(cfg, c, es[n]));
      }
    }
  }

  /** Over every run forwarded and offered packets are in order of arrival. */
  lemma {:induction false} AlwaysInOrder(cfg: Config, proto: Proto, es: seq<Event>)
    requires Arrivals(es)
    ensures InOrder(Run(cfg, Born(Ext, Lih, proto), es), |es|)
  {
    if es != [] {
      var n := |es| - 1;
      var c := Run(cfg, Born(Ext, Lih, proto), es[..n]);
      AlwaysInOrder(cfg, proto, es[..n]);
      AlwaysSound(cfg, proto, es[..n]);
      if !c.crashed {
        StepFollows(cfg, c, es[n]);
        EventKeepsOrder(cfg, c, es[n].p, es[n].a, Step(cfg, c, es[n]));
      }
    }
  }

  // All the work on one packet

  predicate WasReplayed(c: Conn, p: Pkt) {
    p in Packets(c.eng.sent)
  }

  lemma NewcomerIsNew(c: Conn, p: Pkt)
    requires InOrder(c, p.id)
    ensures p !in Packets(c.eng.sent) && p !in c.offered
  {
  }

  /** A packet that is sent otherwise when it comes is not forwarded then. */
  lemma SentIsNotAdded(cfg: Config, c: Conn, p: Pkt, a: Advice, o: Out)
    requires Sound(cfg, c) && InOrder(c, p.id) && Sends(c, p, o) && WorkOf(c.state, o, p) != []
    ensures p !in Added(c, p, a)
  {
    NewcomerIsNew(c, p);
    if p in Added(c, p, a) {
      AddedAreExt(cfg, c, p, a, p);
    }
  }

  /** One event leaves what was forwarded forwarded, and does not forward what it sends otherwise. */
  lemma EventForwards(cfg: Config, c: Conn, p: Pkt, a: Advice, d: Conn, n: nat)
    requires c.eng.next <= |c.eng.buffer| && Follows(cfg, c, p, a, d) && SendsAtMostOne(c, p, d) && n == p.id
    requires if c.initiator.Ext? then Sound(cfg, c) && InOrder(c, n) else Silent(c) && Silent(d)
    ensures forall q | WasReplayed(c, q) :: WasReplayed(d, q)
    ensures |d.out| > |c.out| && WorkOf(c.state, d.out[|c.out|], p) != [] ==> !WasReplayed(d, p)
  {
    if c.initiator.Ext? {
      EventAdds(cfg, c, p, a, d);
      NewcomerIsNew(c, p);
      if |d.out| > |c.out| && WorkOf(c.state, d.out[|c.out|], p) != [] {
        SentIsNotAdded(cfg, c, p, a, d.out[|c.out|]);
      }
    }
  }

  function ReplayWork(replayed: bool): seq<Work> {
    if replayed then [ReplayIn] else []
  }

  lemma MemberBelow(s: seq<Pkt>, n: nat, p: Pkt)
    requires Ordered(s, n) && p in s
    ensures p.id < n
  {
  }

  /** In order of arrival nothing is replayed twice. */
  lemma ReplayedOnce(s: seq<Pkt>, t: seq<Pkt>, n: nat, p: Pkt)
    requires Ordered(s, n) && Ordered(t, n + 1) && (p in s ==> p in t)
    ensures NewReplays(s, t, p) == ReplayWork(p in t && p !in s)
  {
    CountOfOrdered(s, n, p);
    CountOfOrdered(t, n + 1, p);
    assert Times(1) == [ReplayIn] + Times(0);
  }

  /** What is done on a frame other than replaying it: nothing, or one thing, by who sent the packet. */
  predicate Single(origin: Role, w: seq<Work>) {
    w == [] || (origin.Ext? && w == [ProxyIn]) || (!origin.Ext? && (w == [ProxyOut] || w == [ReturnOut]))
  }

  lemma SentIsSingle(c: Conn, p: Pkt, o: Out)
    requires Sends(c, p, o)
    ensures Single(p.origin, WorkOf(c.state, o, p))
  {
  }

  /**
   * The work on a packet among the first `n` to arrive: none before; then at most one sending, and at most one replay
   * after that.
   */
  ghost predicate WorkByNow(p: Pkt, n: nat, w: seq<Work>, replayed: bool) {
    if p.id >= n then w == [] && !replayed
    else exists s :: Single(p.origin, s) && w == s + ReplayWork(replayed) && (replayed ==> p.origin.Ext?)
  }

  lemma WorkGoesOn(p: Pkt, n: nat, w: seq<Work>, sent: seq<Work>, before: bool, after: bool)
    requires WorkByNow(p, n, w, before) && (before ==> after) && (p.id > n ==> !after) && (after ==> p.origin.Ext?)
    requires if p.id == n then Single(p.origin, sent) else sent == []
    ensures WorkByNow(p, n + 1, w + (sent + ReplayWork(after && !before)), after)
  {
    if p.id == n {
      assert w + (sent + ReplayWork(after && !before)) == sent + ReplayWork(after);
    } else if p.id < n {
      var s :| Single(p.origin, s) && w == s + ReplayWork(before);
      assert w + (sent + ReplayWork(after && !before)) == s + ReplayWork(after);
    }
  }

  lemma RunInOrder(cfg: Config, initiator: Role, destination: Role, proto: Proto, es: seq<Event>)
    requires Started(initiator, destination, es) && Arrivals(es)
    ensures SentInOrder(Run(cfg, Born(initiator, destination, proto), es), |es|)
  {
    if initiator.Ext? {
      AlwaysInOrder(cfg, proto, es);
    } else {
      OthersSilent(cfg, initiator, destination, proto, es);
    }
  }

  lemma SendingIsSingle(c: Conn, ev: Event, d: Conn, p: Pkt)
    requires SendsAtMostOne(c, ev.p, d)
    ensures if p == ev.p then Single(p.origin, SendingWork(c, d, p)) else SendingWork(c, d, p) == []
  {
    if |d.out| > |c.out| {
      SentIsSingle(c, ev.p, d.out[|c.out|]);
    }
  }

  /** What was forwarded stays forwarded, and a packet is not sent and forwarded by one event. */
  lemma LastForwards(cfg: Config, initiator: Role, destination: Role, proto: Proto, es: seq<Event>, c: Conn, d: Conn,
                     q: Pkt)
    requires Started(initiator, destination, es) && Arrivals(es) && es != []
    requires c == Run(cfg, Born(initiator, destination, proto), es[..|es| - 1]) && d == Step(cfg, c, es[|es| - 1])
    ensures WasReplayed(c, q) ==> WasReplayed(d, q)
    ensures SendingWork(c, d, es[|es| - 1].p) != [] ==> !WasReplayed(d, es[|es| - 1].p)
  {
    var n, ev := |es| - 1, es[|es| - 1];
    StartedPrefix(initiator, destination, es, n);
    ArrivalsPrefix(es, n);
    if !c.crashed {
      StepFollows(cfg, c, ev);
      StepSends(cfg, c, ev);
      if initiator.Ext? {
        AlwaysInOrder(cfg, proto, es[..n]);
        AlwaysSound(cfg, proto, es[..n]);
      } else {
        SilentStep(cfg, initiator, destination, proto, es, c, d);
      }
      EventForwards(cfg, c, ev.p, ev.a, d, n);
    }
  }

  lemma SilentStep(cfg: Config, initiator: Role, destination: Role, proto: Proto, es: seq<Event>, c: Conn, d: Conn)
    requires Started(initiator, destination, es) && !initiator.Ext? && es != []
    requires c == Run(cfg, Born(initiator, destination, proto), es[..|es| - 1]) && d == Step(cfg, c, es[|es| - 1])
    ensures Silent(c) && Silent(d)
  {
    StartedPrefix(initiator, destination, es, |es| - 1);
    OthersSilent(cfg, initiator, destination, proto, es[..|es| - 1]);
    OthersSilent(cfg, initiator, destination, proto, es);
  }

  lemma ArrivalsPrefix(es: seq<Event>, n: nat)
    requires Arrivals(es) && n <= |es|
    ensures Arrivals(es[..n])
  {
  }

  lemma StepWorkIs(c: Conn, d: Conn, p: Pkt, n: nat)
    requires SentInOrder(c, n) && SentInOrder(d, n + 1) && (WasReplayed(c, p) ==> WasReplayed(d, p))
    ensures StepWork(c, d, p) == SendingWork(c, d, p) + ReplayWork(WasReplayed(d, p) && !WasReplayed(c, p))
  {
    var s, t := Packets(c.eng.sent), Packets(d.eng.sent);
    ReplayedOnce(s, t, n, p);
    assert WasReplayed(d, p) == (p in t) && WasReplayed(c, p) == (p in s);
  }

  lemma ReplayedIsExt(d: Conn, p: Pkt, n: nat)
    requires SentInOrder(d, n + 1) && WasReplayed(d, p)
    ensures p.id <= n && p.origin.Ext?
  {
    MemberBelow(Packets(d.eng.sent), n + 1, p);
  }

  lemma WorkAfterEvent(c: Conn, d: Conn, ev: Event, p: Pkt, n: nat, w: seq<Work>, step: seq<Work>)
    requires SendsAtMostOne(c, ev.p, d) && (p.id == n <==> p == ev.p) && (WasReplayed(c, p) ==> WasReplayed(d, p))
    requires WasReplayed(d, p) ==> p.id <= n && p.origin.Ext?
    requires step == SendingWork(c, d, p) + ReplayWork(WasReplayed(d, p) && !WasReplayed(c, p))
    requires WorkByNow(p, n, w, WasReplayed(c, p))
    ensures WorkByNow(p, n + 1, w + step, WasReplayed(d, p))
  {
    SendingIsSingle(c, ev, d, p);
    WorkGoesOn(p, n, w, SendingWork(c, d, p), WasReplayed(c, p), WasReplayed(d, p));
  }

  lemma LastInOrder(cfg: Config, initiator: Role, destination: Role, proto: Proto, es: seq<Event>, c: Conn, d: Conn)
    requires Started(initiator, destination, es) && Arrivals(es) && es != []
    requires c == Run(cfg, Born(initiator, destination, proto), es[..|es| - 1])
             && d == Run(cfg, Born(initiator, destination, proto), es)
    ensures SentInOrder(c, |es| - 1) && SentInOrder(d, |es|)
  {
    StartedPrefix(initiator, destination, es, |es| - 1);
    ArrivalsPrefix(es, |es| - 1);
    RunInOrder(cfg, initiator, destination, proto, es[..|es| - 1]);
    RunInOrder(cfg, initiator, destination, proto, es);
  }

  /** Over every run: the work on each packet so far. */
  lemma {:induction false} AlwaysWorkByNow(cfg: Config, initiator: Role, destination: Role, proto: Proto,
                                           es: seq<Event>, p: Pkt)
    requires Started(initiator, destination, es) && Arrivals(es) && (p.id < |es| ==> es[p.id].p == p)
    ensures WorkByNow(p, |es|, WorkOn(cfg, Born(initiator, destination, proto), es, p),
                      WasReplayed(Run(cfg, Born(initiator, destination, proto), es), p))
  {
    if es != [] {
      var n := |es| - 1;
      var c, d := Run(cfg, Born(initiator, destination, proto), es[..n]),
          Run(cfg, Born(initiator, destination, proto), es);
      StartedPrefix(initiator, destination, es, n);
      ArrivalsPrefix(es, n);
      AlwaysWorkByNow(cfg, initiator, destination, proto, es[..n], p);
      LastInOrder(cfg, initiator, destination, proto, es, c, d);
      LastForwards(cfg, initiator, destination, proto, es, c, d, p);
      StepSends(cfg, c, es[n]);
      StepWorkIs(c, d, p, n);
      if WasReplayed(d, p) {
        ReplayedIsExt(d, p, n);
      }
      WorkAfterEvent(c, d, es[n], p, n, WorkOn(cfg, Born(initiator, destination, proto), es[..n], p),
                     StepWork(c, d, p));
    }
  }

  /** The series of work there are. */
  predicate Series(origin: Role, w: seq<Work>) {
    if origin.Ext? then w == [] || w == [ProxyIn] || w == [ReplayIn] || w == [ProxyIn, ReplayIn]
    else w == [] || w == [ProxyOut] || w == [ReturnOut]
  }

  /**
   * Over every run, whatever packets come: each packet is proxied at most once and replayed at most once, and proxied
   * first.
   */
  lemma PacketWork(cfg: Config, initiator: Role, destination: Role, proto: Proto, es: seq<Event>, i: nat)
    requires Started(initiator, destination, es) && Arrivals(es) && i < |es|
    ensures Series(es[i].p.origin, WorkOn(cfg, Born(initiator, destination, proto), es, es[i].p))
  {
    var p := es[i].p;
    AlwaysWorkByNow(cfg, initiator, destination, proto, es, p);
    var replayed := WasReplayed(Run(cfg, Born(initiator, destination, proto), es), p);
    var w := WorkOn(cfg, Born(initiator, destination, proto), es, p);
    var s :| Single(p.origin, s) && w == s + ReplayWork(replayed) && (replayed ==> p.origin.Ext?);
  }

  /** The operations on a frame carry out this work. */
  predicate CarriesOut(ops: seq<Frame.Op>, w: seq<Work>) {
    |ops| == |w| && forall i | 0 <= i < |ops| :: Frame.Allowed(ops[i]) && Does(ops[i], w[i])
  }

  /**
   * The frame of every packet of every run: outside packets arrive untagged, and then whatever routes the work is done
   * with, what is injected is the encoding of the packet and, if it was captured whole, lies inside FRAME.
   */
  lemma FrameStaysWhole(cfg: Config, initiator: Role, destination: Role, proto: Proto, es: seq<Event>, i: nat,
                        e: Checksum.Endian, l: Frame.Layout, ops: seq<Frame.Op>)
    requires Started(initiator, destination, es) && Arrivals(es) && i < |es|
    requires Frame.Shaped(l) && Frame.Excess(l) == 0 && (es[i].p.origin.Ext? ==> !Frame.Tagged(l))
    requires CarriesOut(ops, WorkOn(cfg, Born(initiator, destination, proto), es, es[i].p))
    ensures Frame.Excess(Frame.After(e, l, ops)) == 0
    ensures Frame.Complete(l) ==> Frame.Injectable(Frame.After(e, l, ops))
  {
    PacketWork(cfg, initiator, destination, proto, es, i);
    SeriesIsDispatched(es[i].p.origin, Frame.Tagged(l), ops,
                       WorkOn(cfg, Born(initiator, destination, proto), es, es[i].p));
    Frame.DispatchKeepsLayout(e, l, ops);
  }

  lemma SeriesIsDispatched(origin: Role, tagged: bool, ops: seq<Frame.Op>, w: seq<Work>)
    requires Series(origin, w) && CarriesOut(ops, w) && (origin.Ext? ==> !tagged)
    ensures Frame.Dispatched(tagged, ops)
  {
  }
}

/** What holds of the replay over every run of a connection from outside. */
module ReplayRuns {
  import opened Words
  import opened Sequence
  import opened Replay
  import opened Gateway
  import opened GatewayRuns

  predicate Recorded(b: seq<Pkt>) {
    forall i | 0 <= i < |b| :: b[i].origin.Ext? || b[i].origin.Lih?
  }

  /** The buffer is what was offered to it, as far as there was room. */
  predicate KeptInOrder(cfg: Config, c: Conn) {
    c.eng.buffer == if |c.offered| <= cfg.maxBuffer then c.offered else c.offered[..cfg.maxBuffer]
  }

  /** Nothing has been replayed yet. */
  predicate Untouched(e: Engine) {
    e.next == 0 && e.sent == [] && e.expected.proto.None? && e.delta == 0 && e.hihSyn.None?
  }

  predicate IsPrefix(s: seq<Pkt>, t: seq<Pkt>) {
    |s| <= |t| && t[..|s|] == s
  }

  /** What the engine of a connection from outside looks like in each state. */
  ghost predicate Situation(cfg: Config, s: State, hih: bool, e: Engine) {
    match s
    case Init => Untouched(e)
    case Deciding => Untouched(e) && HasBackends(cfg) && (cfg.maxBuffer > 0 ==> e.buffer != [])
    case Replaying => hih && AtGate(e) && Faithful(e) && HasBackends(cfg) && (cfg.maxBuffer > 0 ==> e.buffer != [])
                      && (e.expected.proto.Some? <==> Gates(e.buffer) > 0)
    case Forwarding => hih && IsPrefix(ExtOf(e.buffer), Packets(e.sent))
    case _ => true
  }

  lemma {:induction false} GatesOfSum(s: seq<Pkt>, t: seq<Pkt>)
    ensures Gates(s + t) == Gates(s) + Gates(t)
  {
    if s == [] {
      assert s + t == t;
    } else {
      GatesOfSum(s[1..], t);
      assert (s + t)[1..] == s[1..] + t;
    }
  }

  lemma FaithfulWhenStored(e: Engine, max: nat, p: Pkt)
    requires Faithful(e)
    ensures Faithful(Stored(e, max, p))
  {
    if |e.buffer| < max {
      assert (e.buffer + [p])[..e.next] == e.buffer[..e.next];
    }
  }

  lemma AtGateWhenStored(e: Engine, max: nat, p: Pkt)
    requires AtGate(e)
    ensures AtGate(Stored(e, max, p))
  {
  }

  /** The step that starts a redirection. */
  lemma TriggerSituation(cfg: Config, e: Engine, p: Pkt)
    requires Untouched(e) && HasBackends(cfg) && p.origin.Ext? && (cfg.maxBuffer > 0 ==> e.buffer != [])
    ensures Situation(cfg, Replaying, true, Stored(Begun(e), cfg.maxBuffer, p))
  {
    assert e.buffer[0..] == e.buffer;
    assert Packets(e.sent) == ExtOf(e.buffer[..0]);
    BegunIsFaithful(e);
    BegunIsAtGate(e);
    WaitsIffGates(e);
    FaithfulWhenStored(Begun(e), cfg.maxBuffer, p);
    AtGateWhenStored(Begun(e), cfg.maxBuffer, p);
    GatesOfSum(e.buffer, [p]);
  }

  /** Hearing an answer while replaying. */
  lemma HeardSituation(cfg: Config, e: Engine, p: Pkt)
    requires Situation(cfg, Replaying, true, e)
    ensures Answer(e, p).Completed? ==> Packets(Heard(e, p).sent) == ExtOf(Heard(e, p).buffer)
    ensures !Answer(e, p).Completed? ==> Situation(cfg, Replaying, true, Heard(e, p))
    ensures Heard(e, p).buffer == e.buffer
  {
    var t := Tested(NoteHihSyn(e, p), p);
    if Matches(e.expected, p) && e.next < |e.buffer| {
      AdvancedIsFaithful(t);
    }
    if !Answer(e, p).Completed? {
      HeardKeeps(e, p);
    }
  }

  lemma ForwardedSituation(cfg: Config, e: Engine, p: Pkt)
    requires Situation(cfg, Forwarding, true, e)
    ensures Situation(cfg, Forwarding, true, Forward(e, p))
  {
    PacketsAppend(e.sent, Forwarded(p, e.delta));
  }

  /** A connection from outside, between packets. */
  ghost predicate Sound(cfg: Config, c: Conn) {
    && c.initiator.Ext? && Place(c) && c.eng.next <= |c.eng.buffer|
    && Situation(cfg, c.state, c.hih, c.eng)
    && KeptInOrder(cfg, c) && Recorded(c.eng.buffer)
    && (c.state.Init? || c.state.Deciding? ==> !c.hih)
    && (c.state.Replaying? ==> EndsInExt(c.offered))
  }

  lemma RecordingSituation(cfg: Config, c: Conn, p: Pkt, a: Advice, d: Conn)
    requires Sound(cfg, c) && Follows(cfg, c, p, a, d) && !d.crashed && (c.state.Init? || c.state.Deciding?)
    ensures Situation(cfg, d.state, d.hih, d.eng)
  {
    if Triggers(c, p, a) {
      TriggerSituation(cfg, c.eng, p);
    }
  }

  lemma ReplayingSituation(cfg: Config, c: Conn, p: Pkt, a: Advice, d: Conn)
    requires Sound(cfg, c) && Follows(cfg, c, p, a, d) && !d.crashed && c.state.Replaying?
    ensures Situation(cfg, d.state, d.hih, d.eng)
  {
    HeardSituation(cfg, c.eng, p);
    SituationOfResult(cfg, c, p, a, d, Begun(c.eng), Heard(c.eng, p), Answer(c.eng, p));
  }

  lemma SituationOfResult(cfg: Config, c: Conn, p: Pkt, a: Advice, d: Conn, begun: Engine, heard: Engine,
                          answer: Outcome)
    requires c.state.Replaying? && Situation(cfg, Replaying, c.hih, c.eng) && !d.crashed
    requires Leads(cfg, c, p, a, answer, d) && d.eng == EngineAfter(cfg, c, p, a, begun, heard)
    requires if answer.Completed? then Packets(heard.sent) == ExtOf(heard.buffer)
             else Situation(cfg, Replaying, true, heard)
    ensures Situation(cfg, d.state, d.hih, d.eng)
  {
  }

  lemma FollowsKeepsSituation(cfg: Config, c: Conn, p: Pkt, a: Advice, d: Conn)
    requires Sound(cfg, c) && Follows(cfg, c, p, a, d) && !d.crashed
    ensures Situation(cfg, d.state, d.hih, d.eng)
  {
    if c.state.Init? || c.state.Deciding? {
      RecordingSituation(cfg, c, p, a, d);
    } else if c.state.Replaying? {
      ReplayingSituation(cfg, c, p, a, d);
    } else if c.state.Forwarding? {
      ForwardedSituation(cfg, c.eng, p);
    }
  }

  lemma FollowsKeepsOrder(cfg: Config, c: Conn, p: Pkt, a: Advice, d: Conn)
    requires Sound(cfg, c) && Follows(cfg, c, p, a, d)
    ensures KeptInOrder(cfg, d) && Recorded(d.eng.buffer) && d.eng.next <= |d.eng.buffer|
  {
    ResultsInBounds(c.eng, p);
  }

  lemma FollowsKeepsSound(cfg: Config, c: Conn, p: Pkt, a: Advice, d: Conn)
    requires Sound(cfg, c) && Follows(cfg, c, p, a, d) && !d.crashed
    ensures Sound(cfg, d)
  {
    FollowsKeepsSituation(cfg, c, p, a, d);
    FollowsKeepsOrder(cfg, c, p, a, d);
  }

  /** Every run of a connection from outside is sound, up to a step that crashes. */
  lemma {:induction false} AlwaysSound(cfg: Config, proto: Proto, es: seq<Event>)
    ensures var d := Run(cfg, Born(Ext, Lih, proto), es); !d.crashed ==> Sound(cfg, d)
  {
    if es != [] {
      var b := Run(cfg, Born(Ext, Lih, proto), es[..|es| - 1]);
      var ev := es[|es| - 1];
      AlwaysSound(cfg, proto, es[..|es| - 1]);
      if !b.crashed {
        StepFollows(cfg, b, ev);
        if !Step(cfg, b, ev).crashed {
          FollowsKeepsSound(cfg, b, ev.p, ev.a, Step(cfg, b, ev));
        }
      }
    }
  }

  /**
   * Faithful replay: at any time the honeypot has been sent exactly the attacker's packets of the buffer up to the
   * replay's position; when forwarding begins, exactly all of the buffer's; afterwards they remain the beginning of
   * what it was sent.
   */
  lemma ReplayIsFaithful(cfg: Config, proto: Proto, es: seq<Event>, ev: Event)
    ensures var c := Run(cfg, Born(Ext, Lih, proto), es);
            var d := Run(cfg, Born(Ext, Lih, proto), es + [ev]);
            && (c.state.Replaying? && !c.crashed ==>
                Packets(c.eng.sent) == ExtOf(c.eng.buffer[..c.eng.next]) && d.eng.buffer == c.eng.buffer)
            && (d.state.Forwarding? && !c.state.Forwarding? ==>
                c.state.Replaying? && Packets(d.eng.sent) == ExtOf(d.eng.buffer))
            && (c.state.Forwarding? && !c.crashed ==> IsPrefix(ExtOf(c.eng.buffer), Packets(c.eng.sent)))
  {
    var c := Run(cfg, Born(Ext, Lih, proto), es);
    assert (es + [ev])[..|es|] == es;
    AlwaysSound(cfg, proto, es);
    if !c.crashed {
      var d := Step(cfg, c, ev);
      StepFollows(cfg, c, ev);
      BecomesForwarding(cfg, c, ev.p, ev.a, d);
    }
  }

  lemma {:induction false} ExtOfAtLeast(s: seq<Pkt>, n: nat)
    requires n <= |s|
    ensures |ExtOf(s[..n])| <= |ExtOf(s)|
  {
    if n < |s| {
      assert s[..|s| - 1][..n] == s[..n];
      ExtOfAtLeast(s[..|s| - 1], n);
    } else {
      assert s[..n] == s;
    }
  }

  /** A recording cut off before a last packet of the attacker lacks it. */
  lemma CutLosesLast(offered: seq<Pkt>, max: nat)
    requires EndsInExt(offered) && max < |offered|
    ensures |ExtOf(offered[..max])| < |ExtOf(offered)|
  {
    var n := |offered| - 1;
    assert offered[..n][..max] == offered[..max];
    ExtOfAtLeast(offered[..n], max);
  }

  /** The event that started the redirection: a packet of the attacker the rules accepted. */
  predicate Triggered(cfg: Config, proto: Proto, es: seq<Event>, i: nat)
    requires i < |es|
  {
    var c := Run(cfg, Born(Ext, Lih, proto), es[..i]);
    !c.crashed && Triggers(c, es[i].p, es[i].a)
  }

  /** What one event does to the end of what was offered, and to whether a redirection is on. */
  lemma OfferedAfter(cfg: Config, c: Conn, p: Pkt, a: Advice, d: Conn)
    requires Sound(cfg, c) && Follows(cfg, c, p, a, d)
    ensures Triggers(c, p, a) ==> d.state.Replaying? && d.offered == c.offered + [p]
    ensures !Triggers(c, p, a) && (d.state.Replaying? || d.state.Forwarding?) ==>
            (c.state.Replaying? || c.state.Forwarding?) && d.offered == c.offered
  {
  }

  predicate EndsWith(s: seq<Pkt>, p: Pkt) {
    s != [] && s[|s| - 1] == p
  }

  predicate InRedirection(c: Conn) {
    c.state.Replaying? || c.state.Forwarding?
  }

  lemma TriggeredInLonger(cfg: Config, proto: Proto, es: seq<Event>, n: nat, i: nat)
    requires i < n <= |es| && Triggered(cfg, proto, es[..n], i)
    ensures Triggered(cfg, proto, es, i)
  {
    assert es[..n][..i] == es[..i];
  }

  /**
   * What the buffer of a redirected connection was offered is what it had been when the trigger came, and then the
   * trigger.
   */
  lemma {:induction false} TriggerIsLast(cfg: Config, proto: Proto, es: seq<Event>) returns (i: nat)
    requires InRedirection(Run(cfg, Born(Ext, Lih, proto), es))
    ensures i < |es| && Triggered(cfg, proto, es, i)
    ensures Run(cfg, Born(Ext, Lih, proto), es).offered == Run(cfg, Born(Ext, Lih, proto), es[..i]).offered + [es[i].p]
  {
    var n := |es| - 1;
    var c, d := Run(cfg, Born(Ext, Lih, proto), es[..n]), Run(cfg, Born(Ext, Lih, proto), es);
    TriggerStep(cfg, proto, es, c, d);
    if Triggered(cfg, proto, es, n) {
      i := n;
    } else {
      i := TriggerIsLast(cfg, proto, es[..n]);
      assert es[..n][..i] == es[..i];
      TriggeredInLonger(cfg, proto, es, n, i);
    }
  }

  lemma TriggerStep(cfg: Config, proto: Proto, es: seq<Event>, c: Conn, d: Conn)
    requires es != [] && c == Run(cfg, Born(Ext, Lih, proto), es[..|es| - 1])
             && d == Run(cfg, Born(Ext, Lih, proto), es)
    ensures Triggered(cfg, proto, es, |es| - 1) ==> d.offered == c.offered + [es[|es| - 1].p]
    ensures !Triggered(cfg, proto, es, |es| - 1) && InRedirection(d) ==> InRedirection(c) && d.offered == c.offered
  {
    var ev := es[|es| - 1];
    assert d == Step(cfg, c, ev);
    AlwaysSound(cfg, proto, es[..|es| - 1]);
    if !c.crashed {
      StepFollows(cfg, c, ev);
      OfferedAfter(cfg, c, ev.p, ev.a, d);
    }
  }

  /** The packets of the events, in order of arrival. */
  function Received(es: seq<Event>): seq<Pkt> {
    if es == [] then [] else Received(es[..|es| - 1]) + [es[|es| - 1].p]
  }

  lemma ExtOfAppend(s: seq<Pkt>, p: Pkt)
    ensures ExtOf(s + [p]) == ExtOf(s) + if p.origin.Ext? then [p] else []
  {
    assert (s + [p])[..|s|] == s;
  }

  /**
   * While nothing is decided every packet of the attacker is offered, and of the others only those that are not the
   * attacker's.
   */
  lemma OfferedWhileUndecided(cfg: Config, c: Conn, p: Pkt, a: Advice, d: Conn)
    requires Sound(cfg, c) && Follows(cfg, c, p, a, d) && HasBackends(cfg) && (d.state.Init? || d.state.Deciding?)
    ensures c.state.Init? || c.state.Deciding?
    ensures d.offered == c.offered + [p] || (d.offered == c.offered && !p.origin.Ext?)
  {
  }

  /**
   * The recording is complete: until a connection is decided it has been offered exactly what the attacker has sent, in
   * order.
   */
  lemma {:induction false} OfferedIsReceived(cfg: Config, proto: Proto, es: seq<Event>)
    requires HasBackends(cfg)
    ensures var c := Run(cfg, Born(Ext, Lih, proto), es);
            !c.crashed && (c.state.Init? || c.state.Deciding?) ==> ExtOf(c.offered) == ExtOf(Received(es))
  {
    if es != [] {
      var n := |es| - 1;
      var c, ev := Run(cfg, Born(Ext, Lih, proto), es[..n]), es[n];
      var d := Step(cfg, c, ev);
      OfferedIsReceived(cfg, proto, es[..n]);
      AlwaysSound(cfg, proto, es[..n]);
      if !d.crashed && (d.state.Init? || d.state.Deciding?) {
        StepFollows(cfg, c, ev);
        OfferedWhileUndecided(cfg, c, ev.p, ev.a, d);
        ExtOfAppend(c.offered, ev.p);
        ExtOfAppend(Received(es[..n]), ev.p);
      }
    }
  }

  lemma OfferedAtTrigger(cfg: Config, proto: Proto, es: seq<Event>, i: nat)
    requires i < |es| && Triggered(cfg, proto, es, i)
    ensures ExtOf(Run(cfg, Born(Ext, Lih, proto), es[..i]).offered + [es[i].p]) == ExtOf(Received(es[..i + 1]))
  {
    var c := Run(cfg, Born(Ext, Lih, proto), es[..i]);
    AlwaysSound(cfg, proto, es[..i]);
    OfferedIsReceived(cfg, proto, es[..i]);
    assert es[..i + 1][..i] == es[..i];
    ExtOfAppend(c.offered, es[i].p);
    ExtOfAppend(Received(es[..i]), es[i].p);
  }

  /**
   * What reaches the honeypot by the time forwarding begins, over every run: everything the attacker sent from its
   * first packet to the trigger, iff the buffer had room for every packet offered. The trigger, which is last, is not
   * proxied either, so without room it is lost.
   */
  lemma NothingLostIff(cfg: Config, proto: Proto, es: seq<Event>, ev: Event) returns (trigger: nat)
    requires !Run(cfg, Born(Ext, Lih, proto), es).state.Forwarding?
             && Run(cfg, Born(Ext, Lih, proto), es + [ev]).state.Forwarding?
    ensures var d := Run(cfg, Born(Ext, Lih, proto), es + [ev]);
            && trigger < |es| && Triggered(cfg, proto, es, trigger) && EndsWith(d.offered, es[trigger].p)
            && (Packets(d.eng.sent) == ExtOf(Received(es[..trigger + 1])) <==> |d.offered| <= cfg.maxBuffer)
  {
    var c, d := Run(cfg, Born(Ext, Lih, proto), es), Run(cfg, Born(Ext, Lih, proto), es + [ev]);
    ReplayIsFaithful(cfg, proto, es, ev);
    trigger := TriggerIsLast(cfg, proto, es);
    CompletionKeeps(cfg, proto, es, ev, c, d);
    OfferedAtTrigger(cfg, proto, es, trigger);
    if |d.offered| > cfg.maxBuffer {
      CutLosesLast(d.offered, cfg.maxBuffer);
    }
  }

  lemma CompletionKeeps(cfg: Config, proto: Proto, es: seq<Event>, ev: Event, c: Conn, d: Conn)
    requires c == Run(cfg, Born(Ext, Lih, proto), es) && d == Run(cfg, Born(Ext, Lih, proto), es + [ev])
    requires !c.state.Forwarding? && d.state.Forwarding?
    ensures d.offered == c.offered && KeptInOrder(cfg, d) && EndsInExt(d.offered)
  {
    assert (es + [ev])[..|es|] == es;
    assert d == Step(cfg, c, ev);
    AlwaysSound(cfg, proto, es);
    if !c.crashed {
      StepFollows(cfg, c, ev);
      OfferedAfter(cfg, c, ev.p, ev.a, d);
      FollowsKeepsOrder(cfg, c, ev.p, ev.a, d);
    }
  }

  lemma BecomesForwarding(cfg: Config, c: Conn, p: Pkt, a: Advice, d: Conn)
    requires Sound(cfg, c) && Follows(cfg, c, p, a, d)
    ensures d.state.Forwarding? && !c.state.Forwarding? ==>
            c.state.Replaying? && Packets(d.eng.sent) == ExtOf(d.eng.buffer)
    ensures c.state.Replaying? ==> d.eng.buffer == c.eng.buffer
  {
    if c.state.Replaying? {
      HeardSituation(cfg, c.eng, p);
    }
  }

  /** The packets of the high-interaction honeypot among the events. */
  function HihPackets(es: seq<Event>): seq<Pkt> {
    if es == [] then []
    else (if es[0].p.origin.Hih? then [es[0].p] else []) + HihPackets(es[1..])
  }

  /** One event of a connection under replay. */
  lemma OneEvent(cfg: Config, c: Conn, p: Pkt, a: Advice, d: Conn)
    requires Sound(cfg, c) && c.state.Replaying? && !c.crashed && Follows(cfg, c, p, a, d)
    ensures if p.origin.Hih?
            then (d.crashed <==> Answer(c.eng, p).Crashed?) && (d.state.Forwarding? <==> Answer(c.eng, p).Completed?)
                               && d.eng == Heard(c.eng, p)
            else !d.crashed && d.state.Replaying? && d.eng == c.eng
    ensures d.state.Replaying? || d.state.Forwarding?
    ensures !d.crashed ==> Sound(cfg, d)
  {
    if !d.crashed {
      FollowsKeepsSound(cfg, c, p, a, d);
    }
  }

  lemma JourneyGoesOn(e: Engine, es: seq<Event>)
    requires AtGate(e) && es != []
    ensures var p, j := es[0].p, Journey(e, HihPackets(es));
            if !p.origin.Hih? then j == Journey(e, HihPackets(es[1..]))
            else if Answer(e, p).Completed? || Answer(e, p).Crashed? then j == Answer(e, p)
            else AtGate(Heard(e, p)) && j == Journey(Heard(e, p), HihPackets(es[1..]))
  {
    HeardFirst(e, es);
    if !Answer(e, es[0].p).Completed? {
      HeardKeeps(e, es[0].p);
    }
  }

  /**
   * While replaying, only the honeypot's packets count: whatever else arrives, the connection goes where the engine
   * goes.
   */
  lemma {:induction false} RunIsJourney(cfg: Config, c: Conn, es: seq<Event>)
    requires Sound(cfg, c) && c.state.Replaying? && !c.crashed
    ensures var j, d := Journey(c.eng, HihPackets(es)), Run(cfg, c, es);
            (d.state.Forwarding? <==> j.Completed?) && (d.crashed <==> j.Crashed?)
              && (d.state.Replaying? <==> !j.Completed?)
    decreases |es|, 0
  {
    if es != [] {
      var d := Step(cfg, c, es[0]);
      RunFromFront(cfg, c, es, d);
      StepFollows(cfg, c, es[0]);
      OneEvent(cfg, c, es[0].p, es[0].a, d);
      JourneyGoesOn(c.eng, es);
      RestOfJourney(cfg, d, es[1..]);
    }
  }

  lemma {:induction false} RestOfJourney(cfg: Config, d: Conn, es: seq<Event>)
    requires (d.state.Replaying? || d.state.Forwarding?) && d.eng.next <= |d.eng.buffer|
    requires if d.crashed then d.state.Replaying? else Sound(cfg, d)
    ensures d.crashed || d.state.Forwarding? ==>
            Run(cfg, d, es).state == d.state && Run(cfg, d, es).crashed == d.crashed
    ensures !d.crashed && d.state.Replaying? ==>
              var j, f := Journey(d.eng, HihPackets(es)), Run(cfg, d, es);
              (f.state.Forwarding? <==> j.Completed?) && (f.crashed <==> j.Crashed?)
                && (f.state.Replaying? <==> !j.Completed?)
    decreases |es|, 1
  {
    if d.crashed {
      CrashedStays(cfg, d, es);
    } else if d.state.Forwarding? {
      FinalStatesAbsorb(cfg, d, es);
    } else {
      RunIsJourney(cfg, d, es);
    }
  }

  lemma HeardFirst(e: Engine, es: seq<Event>)
    requires AtGate(e) && es != []
    ensures es[0].p.origin.Hih? ==> HihPackets(es)[0] == es[0].p && HihPackets(es)[1..] == HihPackets(es[1..])
    ensures !es[0].p.origin.Hih? ==> HihPackets(es) == HihPackets(es[1..])
  {
  }

  function ToEvents(ps: seq<Pkt>): seq<Event> {
    if ps == [] then [] else [Event(ps[0], Advice(NoRule, false))] + ToEvents(ps[1..])
  }

  lemma {:induction false} EventsOfPackets(ps: seq<Pkt>)
    requires forall i | 0 <= i < |ps| :: ps[i].origin.Hih?
    ensures HihPackets(ToEvents(ps)) == ps
  {
    if ps != [] {
      EventsOfPackets(ps[1..]);
      assert ToEvents(ps)[1..] == ToEvents(ps[1..]);
    }
  }

  lemma {:induction false} AnswersComeFromHih(e: Engine)
    requires AtGate(e) && e.expected.proto.Some?
    ensures forall i | 0 <= i < |Answers(e)| :: Answers(e)[i].origin.Hih?
    decreases Remaining(e)
  {
    var p := Passing(e);
    if Answer(e, p).Continued? {
      HeardKeeps(e, p);
      AnswersComeFromHih(Heard(e, p));
    }
  }

  /** What can still become of a connection under replay is decided by its recording alone. */
  lemma ReplayDecidedByRecording(cfg: Config, c: Conn)
    requires Sound(cfg, c) && c.state.Replaying? && !c.crashed && cfg.maxBuffer > 0
    ensures (exists more :: Run(cfg, c, more).state.Forwarding?) <==> Gates(c.eng.buffer) > 0 && EndsInExt(c.eng.buffer)
    ensures (exists more :: Run(cfg, c, more).crashed) <==> Gates(c.eng.buffer) > 0 && !EndsInExt(c.eng.buffer)
    ensures Gates(c.eng.buffer) == 0 ==> forall more :: Run(cfg, c, more).state.Replaying?
  {
    forall more ensures Run(cfg, c, more).state.Forwarding? ==> Gates(c.eng.buffer) > 0 && EndsInExt(c.eng.buffer)
                ensures Run(cfg, c, more).crashed ==> Gates(c.eng.buffer) > 0 && !EndsInExt(c.eng.buffer)
                ensures Gates(c.eng.buffer) == 0 ==> Run(cfg, c, more).state.Replaying?
    {
      RunIsJourney(cfg, c, more);
      if Run(cfg, c, more).state.Forwarding? {
        CompletionNeeds(c.eng, HihPackets(more));
      }
      if Run(cfg, c, more).crashed {
        CrashNeeds(c.eng, HihPackets(more));
      }
    }
    if Gates(c.eng.buffer) > 0 {
      var more := ToEvents(Answers(c.eng));
      AnswersComeFromHih(c.eng);
      EventsOfPackets(Answers(c.eng));
      AnswersDecide(c.eng);
      RunIsJourney(cfg, c, more);
    }
  }

  /**
   * Exactly when a redirection that has begun can be completed: a packet of the low-interaction honeypot was recorded,
   * and the recording ends in one of the attacker's. Without the first the connection waits for ever; without the
   * second it can only crash.
   */
  lemma RedirectionCompletesIff(cfg: Config, proto: Proto, es: seq<Event>)
    requires cfg.maxBuffer > 0
    requires var c := Run(cfg, Born(Ext, Lih, proto), es); c.state.Replaying? && !c.crashed
    ensures var c := Run(cfg, Born(Ext, Lih, proto), es);
            && ((exists more :: Run(cfg, c, more).state.Forwarding?) <==>
                Gates(c.eng.buffer) > 0 && EndsInExt(c.eng.buffer))
            && ((exists more :: Run(cfg, c, more).crashed) <==> Gates(c.eng.buffer) > 0 && !EndsInExt(c.eng.buffer))
            && (Gates(c.eng.buffer) == 0 ==> forall more :: Run(cfg, c, more).state.Replaying?)
            && (|c.offered| <= cfg.maxBuffer ==> EndsInExt(c.eng.buffer))
  {
    AlwaysSound(cfg, proto, es);
    ReplayDecidedByRecording(cfg, Run(cfg, Born(Ext, Lih, proto), es));
  }

  // Sequence spaces

  /**
   * delta is zero until the high-interaction honeypot's SYN is heard, and the distance between the two SYNs from then
   * on.
   */
  predicate InStep(e: Engine) {
    && e.delta == (if e.hihSyn.Some? then Delta(e.hihSyn.value, e.lihSyn) else 0)
    && (e.expected.proto.Some? ==> e.gateDelta == if e.gateSyn.Some? then Delta(e.gateSyn.value, e.lihSyn) else 0)
  }

  lemma BegunInStep(e: Engine)
    requires InStep(e) && e.next <= |e.buffer|
    ensures InStep(Begun(e))
  {
  }

  lemma HeardInStep(e: Engine, p: Pkt)
    requires InStep(e) && e.next <= |e.buffer|
    ensures InStep(Heard(e, p))
  {
    assert InStep(Tested(NoteHihSyn(e, p), p));
  }

  lemma FollowsKeepsInStep(cfg: Config, c: Conn, p: Pkt, a: Advice, d: Conn)
    requires Sound(cfg, c) && Follows(cfg, c, p, a, d) && (c.state.Replaying? || c.state.Forwarding? ==> InStep(c.eng))
    ensures d.state.Replaying? || d.state.Forwarding? ==> InStep(d.eng)
  {
    if c.state.Replaying? {
      HeardInStep(c.eng, p);
    } else if c.state.Deciding? {
      BegunInStep(c.eng);
    }
  }

  lemma {:induction false} AlwaysInStep(cfg: Config, proto: Proto, es: seq<Event>)
    ensures var d := Run(cfg, Born(Ext, Lih, proto), es);
            !d.crashed && (d.state.Replaying? || d.state.Forwarding?) ==> InStep(d.eng)
  {
    if es != [] {
      var c := Run(cfg, Born(Ext, Lih, proto), es[..|es| - 1]);
      AlwaysInStep(cfg, proto, es[..|es| - 1]);
      AlwaysSound(cfg, proto, es[..|es| - 1]);
      if !c.crashed {
        StepFollows(cfg, c, es[|es| - 1]);
        FollowsKeepsInStep(cfg, c, es[|es| - 1].p, es[|es| - 1].a, Step(cfg, c, es[|es| - 1]));
      }
    }
  }

  /**
   * The attacker sees one conversation: byte k of the high-interaction honeypot's stream reaches it as byte k of the
   * stream the low-interaction honeypot began, and what it acknowledges of that reaches the honeypot as its own number
   * again.
   */
  lemma OneConversation(cfg: Config, proto: Proto, es: seq<Event>, p: Pkt, a: Advice)
    requires var c := Run(cfg, Born(Ext, Lih, proto), es); !c.crashed && c.state.Forwarding? && c.eng.hihSyn.Some?
    ensures var c := Run(cfg, Born(Ext, Lih, proto), es);
            var d := Handled(cfg, c, p, a);
            && (p.origin.Hih? ==> d.out == c.out + [ToExt(p, c.eng.delta)]
                                  && Offset(ToAttacker(p.seqno, c.eng.delta), c.eng.lihSyn)
                                     == Offset(p.seqno, c.eng.hihSyn.value))
            && (p.origin.Ext? ==> d.eng.sent == c.eng.sent + [Forwarded(p, AckTo(p, c.eng.delta))])
            && (p.origin.Ext? && p.proto.Tcp? && p.acks ==>
                  Offset(AckTo(p, c.eng.delta), c.eng.hihSyn.value) == Offset(p.ackno, c.eng.lihSyn))
            && (p.origin.Ext? && !(p.proto.Tcp? && p.acks) ==> AckTo(p, c.eng.delta) == p.ackno)
  {
    var c := Run(cfg, Born(Ext, Lih, proto), es);
    AlwaysInStep(cfg, proto, es);
    AlwaysSound(cfg, proto, es);
    OffsetPreserved(c.eng.hihSyn.value, c.eng.lihSyn, p.seqno);
    OffsetPreserved(c.eng.hihSyn.value, c.eng.lihSyn, ToHoneypot(p.ackno, c.eng.delta));
    TranslationsInverse(p.ackno, c.eng.delta);
  }

  /**
   * The gate was set under the SYN `h` of the honeypot, or before any SYN and the honeypot happens to use the other's
   * number.
   */
  predicate SetUnder(e: Engine, h: U32) {
    e.gateSyn == Some(h) || (e.gateSyn.None? && h == e.lihSyn)
  }

  /**
   * In every replay whose honeypot has sent a SYN, the gate it waits at passes exactly the later TCP packets on which
   * the two conversations agree, iff it was set under that SYN. The first gate is set before any SYN.
   */
  lemma GateComparesIff(cfg: Config, proto: Proto, es: seq<Event>)
    requires var c := Run(cfg, Born(Ext, Lih, proto), es);
             !c.crashed && c.state.Replaying? && c.eng.hihSyn.Some? && c.eng.expected.proto == Some(Tcp)
    ensures var e := Run(cfg, Born(Ext, Lih, proto), es).eng;
            && 0 < e.next <= |e.buffer|
            && (ComparesConversations(e, e.hihSyn.value) <==> SetUnder(e, e.hihSyn.value))
  {
    AlwaysSound(cfg, proto, es);
    AlwaysInStep(cfg, proto, es);
    var e := Run(cfg, Born(Ext, Lih, proto), es).eng;
    var h := e.hihSyn.value;
    ComparesIff(e, h);
    if e.gateSyn.Some? {
      DeltaInjective(e.gateSyn.value, h, e.lihSyn);
    } else {
      DeltaInjective(h, h, e.lihSyn);
    }
  }

  /** The gate was set under the SYN that is in force now. */
  predicate UpToDate(e: Engine) {
    e.hihSyn.Some? && e.gateSyn == e.hihSyn
  }

  /**
   * An accepted answer sets the next gate under the SYN in force; an answer that is not keeps it so, unless it is
   * another SYN.
   */
  lemma HeardKeepsUpToDate(e: Engine, p: Pkt)
    requires e.next <= |e.buffer| && (Answer(e, p).Continued? || Answer(e, p).Waiting?)
    ensures Answer(e, p).Continued? ==> (UpToDate(Heard(e, p)) <==> NoteHihSyn(e, p).hihSyn.Some?)
    ensures Answer(e, p).Waiting? ==>
            (UpToDate(Heard(e, p)) <==> e.gateSyn.Some? && e.gateSyn == NoteHihSyn(e, p).hihSyn)
  {
  }

  /** All TCP SYNs among the packets carry this number. */
  predicate OneSyn(es: seq<Event>, h: U32) {
    forall i | 0 <= i < |es| && es[i].p.origin.Hih? && es[i].p.proto.Tcp? && es[i].p.syn :: es[i].p.seqno == h
  }

  /** Once up to date, the gates of a replay stay so for as long as the honeypot repeats no SYN with another number. */
  lemma {:induction false} UpToDateWhile(cfg: Config, c: Conn, es: seq<Event>, h: U32)
    requires Sound(cfg, c) && c.state.Replaying? && !c.crashed && UpToDate(c.eng) && c.eng.hihSyn == Some(h)
             && OneSyn(es, h)
    ensures var d := Run(cfg, c, es);
            d.state.Replaying? && !d.crashed ==> Sound(cfg, d) && UpToDate(d.eng) && d.eng.hihSyn == Some(h)
  {
    if es != [] {
      var n := |es| - 1;
      var b, ev := Run(cfg, c, es[..n]), es[n];
      assert OneSyn(es[..n], h);
      UpToDateWhile(cfg, c, es[..n], h);
      AttackerHearsOneHoneypot(cfg, c, es[..n]);
      if !b.crashed {
        StepFollows(cfg, b, ev);
        if b.state.Replaying? {
          OneEvent(cfg, b, ev.p, ev.a, Step(cfg, b, ev));
          if ev.p.origin.Hih? && (Answer(b.eng, ev.p).Continued? || Answer(b.eng, ev.p).Waiting?) {
            HeardKeepsUpToDate(b.eng, ev.p);
          }
        }
      }
    }
  }
}

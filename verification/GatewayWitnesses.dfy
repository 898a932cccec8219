/** Concrete runs of a connection that end where the design does not mean them to. */
module GatewayWitnesses {
  import opened Words
  import opened Replay
  import opened Gateway
  import opened GatewayRuns
  import opened ReplayRuns

  const EXT_SYN := Pkt(0, Ext, Tcp, true, false, 100, 0, None)
  const LIH_SYN_ACK := Pkt(1, Lih, Tcp, true, true, 500, 101, None)
  const EXT_ACK := Pkt(2, Ext, Tcp, false, true, 101, 501, None)
  const EXT_DATA := Pkt(3, Ext, Tcp, false, true, 101, 501, None)
  const HIH_SYN_ACK := Pkt(4, Hih, Tcp, true, true, 900, 101, None)

  const YES := Advice(Accept, true)
  const LATER := Advice(Verdict.Defer, false)
  const NO_MATTER := Advice(Verdict.NoRule, false)

  function Room(maxBuffer: nat): Config {
    Config(1, false, maxBuffer, false, false)
  }

  const STARTED := [Event(EXT_SYN, YES)] + [Event(LIH_SYN_ACK, NO_MATTER)]

  /** Appending an event takes the step it stands for. */
  lemma Next(cfg: Config, first: Conn, es: seq<Event>, c: Conn, ev: Event)
    requires first.eng.next <= |first.eng.buffer| && Run(cfg, first, es) == c
    ensures c.eng.next <= |c.eng.buffer| && Run(cfg, first, es + [ev]) == Step(cfg, c, ev)
  {
    var all := es + [ev];
    assert all[..|all| - 1] == es && all[|all| - 1] == ev;
    assert Run(cfg, first, all) == Step(cfg, Run(cfg, first, all[..|all| - 1]), all[|all| - 1]);
  }

  /** The attacker's SYN alone, recorded and proxied. */
  function Greeted(): Conn {
    Conn(Deciding, Ext, Lih, Tcp, false, FRESH.(buffer := [EXT_SYN]), [ToLih(EXT_SYN)], [Init, Deciding], [EXT_SYN],
         false)
  }

  lemma GreetingRuns(cfg: Config)
    requires cfg.backends > 0 && cfg.maxBuffer > 0
    ensures Run(cfg, Born(Ext, Lih, Tcp), [Event(EXT_SYN, YES)]) == Greeted()
  {
    RunOfOne(cfg, Born(Ext, Lih, Tcp), Event(EXT_SYN, YES));
  }

  /** The handshake with the low-interaction honeypot: both packets are recorded. */
  function Shaken(): Conn {
    Conn(Deciding, Ext, Lih, Tcp, false, FRESH.(buffer := [EXT_SYN, LIH_SYN_ACK], lihSyn := 500),
         [ToLih(EXT_SYN), ToExt(LIH_SYN_ACK, 0)], [Init, Deciding], [EXT_SYN, LIH_SYN_ACK], false)
  }

  lemma AnswerRecorded(cfg: Config)
    requires cfg.backends > 0 && cfg.maxBuffer >= 2
    ensures Step(cfg, Greeted(), Event(LIH_SYN_ACK, NO_MATTER)) == Shaken()
  {
    assert [EXT_SYN] + [LIH_SYN_ACK] == [EXT_SYN, LIH_SYN_ACK];
    assert [ToLih(EXT_SYN)] + [ToExt(LIH_SYN_ACK, 0)] == [ToLih(EXT_SYN), ToExt(LIH_SYN_ACK, 0)];
  }

  lemma HandshakeRuns(cfg: Config)
    requires cfg.backends > 0 && cfg.maxBuffer >= 2
    ensures Run(cfg, Born(Ext, Lih, Tcp), STARTED) == Shaken()
  {
    GreetingRuns(cfg);
    AnswerRecorded(cfg);
    Next(cfg, Born(Ext, Lih, Tcp), [Event(EXT_SYN, YES)], Greeted(), Event(LIH_SYN_ACK, NO_MATTER));
  }

  /**
   * The engine once a redirection has begun: the SYN has been sent again, the low-interaction honeypot's answer is the
   * gate.
   */
  function AtFirstGate(buffer: seq<Pkt>): Engine {
    FRESH.(buffer := buffer, next := 2, expected := Expected(Some(Tcp), 500, 101, None), lihSyn := 500,
           sent := [Forwarded(EXT_SYN, 0)])
  }

  lemma ReplayBegins(e: Engine)
    requires |e.buffer| >= 2 && e == FRESH.(buffer := e.buffer, lihSyn := 500)
             && e.buffer[..2] == [EXT_SYN, LIH_SYN_ACK]
    ensures Begun(e) == AtFirstGate(e.buffer)
  {
    assert e.buffer[0] == e.buffer[..2][0] && e.buffer[1] == e.buffer[..2][1];
    assert NextGate(e.buffer, 1) == 1;
    assert NextGate(e.buffer, 0) == 1;
    assert SentUpTo(e, 0) == [];
    assert SentUpTo(e, 1) == [Forwarded(EXT_SYN, 0)];
  }

  /** The trigger begins the replay; it is stored if there is room, and never proxied. */
  lemma TriggerRuns(cfg: Config, c: Conn, b: Engine)
    requires HasBackends(cfg) && c.state.Deciding? && !c.crashed && c.eng.next <= |c.eng.buffer| && b == Begun(c.eng)
    ensures var d := Step(cfg, c, Event(EXT_DATA, YES));
            && d.state.Replaying? && d.hih && !d.crashed && d.offered == c.offered + [EXT_DATA]
            && d.eng == Stored(b, cfg.maxBuffer, EXT_DATA)
  {
  }

  /** The high-interaction honeypot's answer to the first gate, where nothing is left to look at. */
  lemma AnswerCrashes(cfg: Config, c: Conn)
    requires c.state.Replaying? && !c.crashed && c.eng == AtFirstGate([EXT_SYN, LIH_SYN_ACK])
    ensures Step(cfg, c, Event(HIH_SYN_ACK, NO_MATTER)).crashed
  {
  }

  /** The same answer where one packet of the attacker is left: it is sent, and the replay is complete. */
  lemma AnswerCompletes(cfg: Config, c: Conn)
    requires c.state.Replaying? && !c.crashed && c.eng == AtFirstGate([EXT_SYN, LIH_SYN_ACK, EXT_ACK])
    ensures var d := Step(cfg, c, Event(HIH_SYN_ACK, NO_MATTER));
            && d.state.Forwarding? && !d.crashed && d.offered == c.offered
            && d.eng.buffer == c.eng.buffer && Packets(d.eng.sent) == [EXT_SYN, EXT_ACK]
  {
    var t := Tested(NoteHihSyn(c.eng, HIH_SYN_ACK), HIH_SYN_ACK);
    assert NextGate(t.buffer, 3) == 3;
    assert NextGate(t.buffer, 2) == 3;
    assert SentUpTo(t, 2) == [Forwarded(EXT_SYN, 0)];
    var f := Forwarded(EXT_ACK, AckTo(EXT_ACK, t.delta));
    assert SentUpTo(t, 3) == [Forwarded(EXT_SYN, 0)] + [f];
    PacketsAppend([], Forwarded(EXT_SYN, 0));
    PacketsAppend([Forwarded(EXT_SYN, 0)], f);
  }

  /**
   * The reachable crash: the buffer has room for the handshake only, so the recording ends in a packet of the low-
   * interaction honeypot.
   */
  lemma ReplayCrashes() returns (es: seq<Event>)
    ensures |es| == 4 && !Run(Room(2), Born(Ext, Lih, Tcp), es[..3]).crashed
            && Run(Room(2), Born(Ext, Lih, Tcp), es).crashed
  {
    var cfg, c0 := Room(2), Born(Ext, Lih, Tcp);
    HandshakeRuns(cfg);
    ReplayBegins(Shaken().eng);
    TriggerRuns(cfg, Shaken(), AtFirstGate([EXT_SYN, LIH_SYN_ACK]));
    Next(cfg, c0, STARTED, Shaken(), Event(EXT_DATA, YES));
    es := STARTED + [Event(EXT_DATA, YES)];
    var c := Run(cfg, c0, es);
    AnswerCrashes(cfg, c);
    Next(cfg, c0, es, c, Event(HIH_SYN_ACK, NO_MATTER));
    assert (es + [Event(HIH_SYN_ACK, NO_MATTER)])[..3] == es;
    es := es + [Event(HIH_SYN_ACK, NO_MATTER)];
  }

  /**
   * The other reachable crash: uninvited honeypots are denied, and the second packet of a connection from outside comes
   * in on an interface that makes it the high-interaction honeypot's.
   */
  lemma DenialCrashes() returns (es: seq<Event>)
    ensures |es| == 2 && Run(Room(10).(denyHihInit := true), Born(Ext, Lih, Tcp), es).crashed
  {
    var cfg, c0 := Room(10).(denyHihInit := true), Born(Ext, Lih, Tcp);
    GreetingRuns(cfg);
    Next(cfg, c0, [Event(EXT_SYN, YES)], Greeted(), Event(HIH_SYN_ACK, NO_MATTER));
    StepFollows(cfg, Greeted(), Event(HIH_SYN_ACK, NO_MATTER));
    es := [Event(EXT_SYN, YES)] + [Event(HIH_SYN_ACK, NO_MATTER)];
  }

  /** After a handshake and one packet the rules had no answer to. */
  function Undecided(): Conn {
    Shaken().(eng := FRESH.(buffer := [EXT_SYN, LIH_SYN_ACK, EXT_ACK], lihSyn := 500),
              offered := [EXT_SYN, LIH_SYN_ACK, EXT_ACK],
              out := [ToLih(EXT_SYN), ToExt(LIH_SYN_ACK, 0), ToLih(EXT_ACK)])
  }

  lemma DeferRuns(cfg: Config)
    requires cfg.backends > 0 && cfg.maxBuffer >= 3
    ensures Step(cfg, Shaken(), Event(EXT_ACK, LATER)) == Undecided()
  {
    assert [EXT_SYN, LIH_SYN_ACK] + [EXT_ACK] == [EXT_SYN, LIH_SYN_ACK, EXT_ACK];
  }

  lemma UndecidedRuns(cfg: Config)
    requires cfg.backends > 0 && cfg.maxBuffer >= 3
    ensures Run(cfg, Born(Ext, Lih, Tcp), STARTED + [Event(EXT_ACK, LATER)]) == Undecided()
  {
    HandshakeRuns(cfg);
    DeferRuns(cfg);
    Next(cfg, Born(Ext, Lih, Tcp), STARTED, Shaken(), Event(EXT_ACK, LATER));
  }

  lemma LostFromThere(cfg: Config, c: Conn)
    requires cfg.backends > 0 && cfg.maxBuffer == 3 && c == Step(cfg, Undecided(), Event(EXT_DATA, YES))
    ensures var d := Step(cfg, c, Event(HIH_SYN_ACK, NO_MATTER));
            && d.state.Forwarding? && !d.crashed && EndsWith(d.offered, EXT_DATA)
            && EXT_DATA !in d.eng.buffer && EXT_DATA !in Packets(d.eng.sent)
  {
    ReplayBegins(Undecided().eng);
    TriggerRuns(cfg, Undecided(), AtFirstGate(Undecided().eng.buffer));
    AnswerCompletes(cfg, c);
  }

  /** The silent loss: the buffer is full when the trigger comes, and the replay completes without it. */
  lemma TriggerLost() returns (es: seq<Event>)
    ensures |es| == 5 && es[3] == Event(EXT_DATA, YES)
    ensures var d := Run(Room(3), Born(Ext, Lih, Tcp), es);
            && d.state.Forwarding? && !d.crashed && EndsWith(d.offered, EXT_DATA)
            && EXT_DATA !in d.eng.buffer && EXT_DATA !in Packets(d.eng.sent)
  {
    var cfg, c0, c := Room(3), Born(Ext, Lih, Tcp), Step(Room(3), Undecided(), Event(EXT_DATA, YES));
    es := STARTED + [Event(EXT_ACK, LATER)];
    UndecidedRuns(cfg);
    Next(cfg, c0, es, Undecided(), Event(EXT_DATA, YES));
    es := es + [Event(EXT_DATA, YES)];
    LostFromThere(cfg, c);
    Next(cfg, c0, es, c, Event(HIH_SYN_ACK, NO_MATTER));
    es := es + [Event(HIH_SYN_ACK, NO_MATTER)];
  }

  lemma NoGates()
    ensures Begun(Greeted().eng).buffer == [EXT_SYN] && Gates([EXT_SYN, EXT_DATA]) == 0
  {
    var b := [EXT_SYN];
    assert NextGate(b, 1) == 1;
    assert NextGate(b, 0) == 1;
    assert [EXT_SYN, EXT_DATA][1..] == [EXT_DATA];
    assert [EXT_DATA][1..] == [];
    assert Gates([EXT_DATA]) == 0;
  }

  /** The redirection that never ends: the trigger comes before the low-interaction honeypot has said anything. */
  lemma ReplayWaitsForEver() returns (es: seq<Event>)
    ensures |es| == 2 && forall more :: Run(Room(2), Born(Ext, Lih, Tcp), es + more).state.Replaying?
  {
    var cfg, c0 := Room(2), Born(Ext, Lih, Tcp);
    GreetingRuns(cfg);
    NoGates();
    TriggerRuns(cfg, Greeted(), Begun(Greeted().eng));
    Next(cfg, c0, [Event(EXT_SYN, YES)], Greeted(), Event(EXT_DATA, YES));
    es := [Event(EXT_SYN, YES)] + [Event(EXT_DATA, YES)];
    assert [EXT_SYN] + [EXT_DATA] == [EXT_SYN, EXT_DATA];
    RedirectionCompletesIff(cfg, Tcp, es);
    forall more ensures Run(cfg, c0, es + more).state.Replaying? {
      RunConcat(cfg, c0, es, more);
    }
  }

  const HIH_SYN := Pkt(5, Hih, Tcp, true, false, 700, 0, None)
  const HIH_ACK := Pkt(6, Hih, Tcp, false, true, 701, 300, None)

  lemma CallRuns(cfg: Config)
    requires !cfg.denyHihInit
    ensures var d := Step(cfg, Born(Hih, Intra, Tcp), Event(HIH_SYN, YES));
            d.state.Control? && !d.crashed && d.destination.Intra? && d.out == [ToIntra(HIH_SYN)]
  {
  }

  /**
   * A honeypot's connection to an internal target: its first packet goes there, its second out to the external link.
   */
  lemma InternalPacketGoesOut()
    ensures var es := [Event(HIH_SYN, YES), Event(HIH_ACK, YES)];
            Run(Room(2), Born(Hih, Intra, Tcp), es).out == [ToIntra(HIH_SYN), ToExt(HIH_ACK, 0)]
  {
    var cfg, c0, first, second := Room(2), Born(Hih, Intra, Tcp), Event(HIH_SYN, YES), Event(HIH_ACK, YES);
    RunOfOne(cfg, c0, first);
    CallRuns(cfg);
    Next(cfg, c0, [first], Run(cfg, c0, [first]), second);
    assert [first] + [second] == [first, second];
    ControlledLink(cfg, Run(cfg, c0, [first]), HIH_ACK, YES);
  }
}

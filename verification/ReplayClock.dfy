/**
 * The timestamps of a redirected connection: what the replay reports about them, and what the attacker is shown for it.
 */
module ReplayClock {
  import opened Words
  import opened Replay
  import opened Gateway
  import opened GatewayRuns
  import opened ReplayRuns
  import TcpOptions

  /** The recorded packet of the low-interaction honeypot the replay waits to see answered. */
  function Gate(c: Conn): Pkt
    requires 0 < c.eng.next <= |c.eng.buffer|
  {
    c.eng.buffer[c.eng.next - 1]
  }

  /** A TCP packet of the high-interaction honeypot that the gate lets pass. */
  predicate Answers(c: Conn, p: Pkt) {
    && c.state.Replaying? && p.origin.Hih? && p.proto.Tcp?
    && 0 < c.eng.next <= |c.eng.buffer| && !Answer(c.eng, p).Waiting?
  }

  /** It carries another timestamp than the packet recorded. */
  predicate Skews(c: Conn, p: Pkt) {
    Answers(c, p) && Gate(c).ts.Some? && p.ts.Some? && Gate(c).ts != p.ts
  }

  /** It carries a timestamp where the packet recorded has none. */
  predicate Surprises(c: Conn, p: Pkt) {
    Answers(c, p) && Gate(c).ts.None? && p.ts.Some?
  }

  /** It carries none where the packet recorded has one. */
  predicate Disappoints(c: Conn, p: Pkt) {
    Answers(c, p) && Gate(c).ts.Some? && p.ts.None?
  }

  /** A 32-bit clock some ticks later. */
  function Later(clock: U32, ticks: U32): U32 {
    (clock + ticks) % 0x1_0000_0000
  }

  /** With `diff` the honeypot's clock is shown as the recorded one: where it said `live` the recording said `gate`. */
  ghost predicate Corrects(diff: int, gate: U32, live: U32) {
    forall ticks: U32 :: TcpOptions.Shift(Later(live, ticks), diff) == Later(gate, ticks)
  }

  lemma DifferenceCorrects(gate: U32, live: U32)
    ensures Corrects(gate - live, gate, live)
  {
    forall ticks: U32 ensures TcpOptions.Shift(Later(live, ticks), gate - live) == Later(gate, ticks) {
      TcpOptions.ShiftFollowsRecordedClock(gate, live, ticks);
    }
  }

  /** What one packet of the honeypot adds to the reports about timestamps, and when it sets the difference. */
  lemma HeardReports(c: Conn, p: Pkt)
    requires c.eng.next <= |c.eng.buffer| && AtGate(c.eng) && c.state.Replaying? && p.origin.Hih?
    ensures var e, f := c.eng, Heard(c.eng, p);
            && (TsOutOfSync in f.problems <==> TsOutOfSync in e.problems || Skews(c, p))
            && (UnexpectedTs in f.problems <==> UnexpectedTs in e.problems || Surprises(c, p))
            && (ExpectedTs in f.problems <==> ExpectedTs in e.problems || Disappoints(c, p))
            && f.tsDiff == if Skews(c, p) then Gate(c).ts.value - p.ts.value else e.tsDiff
  {
    var t := Tested(NoteHihSyn(c.eng, p), p);
    assert Heard(c.eng, p).problems == t.problems && Heard(c.eng, p).tsDiff == t.tsDiff;
  }

  /** Any other event leaves the reports alone. */
  lemma OthersReportNothing(cfg: Config, c: Conn, p: Pkt, a: Advice, d: Conn)
    requires c.eng.next <= |c.eng.buffer| && Follows(cfg, c, p, a, d) && !(c.state.Replaying? && p.origin.Hih?)
    ensures d.eng.problems == c.eng.problems && d.eng.tsDiff == c.eng.tsDiff
  {
  }

  lemma StepReports(cfg: Config, proto: Proto, es: seq<Event>, c: Conn, d: Conn)
    requires es != [] && c == Run(cfg, Born(Ext, Lih, proto), es[..|es| - 1])
    requires d == Run(cfg, Born(Ext, Lih, proto), es) && !c.crashed
    ensures var p := es[|es| - 1].p;
            && (TsOutOfSync in d.eng.problems <==> TsOutOfSync in c.eng.problems || Skews(c, p))
            && (UnexpectedTs in d.eng.problems <==> UnexpectedTs in c.eng.problems || Surprises(c, p))
            && (ExpectedTs in d.eng.problems <==> ExpectedTs in c.eng.problems || Disappoints(c, p))
            && d.eng.tsDiff == if Skews(c, p) then Gate(c).ts.value - p.ts.value else c.eng.tsDiff
  {
    var ev := es[|es| - 1];
    AlwaysSound(cfg, proto, es[..|es| - 1]);
    StepFollows(cfg, c, ev);
    if c.state.Replaying? && ev.p.origin.Hih? {
      HeardReports(c, ev.p);
    } else {
      OthersReportNothing(cfg, c, ev.p, ev.a, d);
    }
  }

  /** Two packets: one recorded, and the answer to it. */
  datatype Pair = Pair(gate: Pkt, answer: Pkt)

  /** The last accepted answer of the run that was out of step with the packet recorded, and that packet. */
  function LastSkew(cfg: Config, proto: Proto, es: seq<Event>): Option<Pair> {
    if es == [] then None
    else
      var c, p := Run(cfg, Born(Ext, Lih, proto), es[..|es| - 1]), es[|es| - 1].p;
      if Skews(c, p) then Some(Pair(Gate(c), p)) else LastSkew(cfg, proto, es[..|es| - 1])
  }

  /** Some accepted answer of the run carried a timestamp where the packet recorded has none. */
  predicate Surprised(cfg: Config, proto: Proto, es: seq<Event>) {
    es != [] && (Surprised(cfg, proto, es[..|es| - 1])
                 || Surprises(Run(cfg, Born(Ext, Lih, proto), es[..|es| - 1]), es[|es| - 1].p))
  }

  /** What is kept about the clock agrees with the last answer out of step. */
  ghost predicate Kept(e: Engine, skew: Option<Pair>) {
    && (TsOutOfSync in e.problems <==> skew.Some?)
    && (skew.Some? ==> skew.value.gate.ts.Some? && skew.value.answer.ts.Some?
                       && Corrects(e.tsDiff, skew.value.gate.ts.value, skew.value.answer.ts.value))
  }

  lemma KeptAfter(c: Conn, p: Pkt, d: Conn, skew: Option<Pair>)
    requires Kept(c.eng, skew)
    requires TsOutOfSync in d.eng.problems <==> TsOutOfSync in c.eng.problems || Skews(c, p)
    requires d.eng.tsDiff == if Skews(c, p) then Gate(c).ts.value - p.ts.value else c.eng.tsDiff
    ensures Kept(d.eng, if Skews(c, p) then Some(Pair(Gate(c), p)) else skew)
  {
    if Skews(c, p) {
      DifferenceCorrects(Gate(c).ts.value, p.ts.value);
    }
  }

  /**
   * The clock of every redirection, over every run: a difference is reported iff some accepted answer was out of step
   * with the packet recorded, and then the difference kept is that of the last such answer. From that answer on, in
   * replay and in forwarding, it carries every later timestamp of the honeypot's clock onto the recorded one.
   */
  lemma {:induction false} ClockFollowsRecording(cfg: Config, proto: Proto, es: seq<Event>)
    requires !Run(cfg, Born(Ext, Lih, proto), es).crashed
    ensures Kept(Run(cfg, Born(Ext, Lih, proto), es).eng, LastSkew(cfg, proto, es))
  {
    if es != [] {
      var c, d := Run(cfg, Born(Ext, Lih, proto), es[..|es| - 1]), Run(cfg, Born(Ext, Lih, proto), es);
      StepReports(cfg, proto, es, c, d);
      ClockFollowsRecording(cfg, proto, es[..|es| - 1]);
      KeptAfter(c, es[|es| - 1].p, d, LastSkew(cfg, proto, es[..|es| - 1]));
    }
  }

  /**
   * Over every run timestamps are to be taken out iff some accepted answer carried one where the packet recorded had
   * none.
   */
  lemma {:induction false} StripsIff(cfg: Config, proto: Proto, es: seq<Event>)
    requires !Run(cfg, Born(Ext, Lih, proto), es).crashed
    ensures UnexpectedTs in Run(cfg, Born(Ext, Lih, proto), es).eng.problems <==> Surprised(cfg, proto, es)
  {
    if es != [] {
      StepReports(cfg, proto, es, Run(cfg, Born(Ext, Lih, proto), es[..|es| - 1]), Run(cfg, Born(Ext, Lih, proto), es));
      StripsIff(cfg, proto, es[..|es| - 1]);
    }
  }

  /**
   * What the attacker is shown, over every run: once an answer was out of step, and unless timestamps are to be taken
   * out, a segment on which the honeypot's clock stands `ticks` after that answer leaves with the recorded clock
   * `ticks` after the packet recorded, and its echo as it was.
   */
  lemma ClockShown(cfg: Config, proto: Proto, es: seq<Event>, e: Engine, pair: Pair, gate: U32, live: U32,
                   s: seq<U8>, n: nat, ticks: U32, echo: U32)
    requires !Run(cfg, Born(Ext, Lih, proto), es).crashed && e == Run(cfg, Born(Ext, Lih, proto), es).eng
    requires LastSkew(cfg, proto, es) == Some(pair) && pair.gate.ts == Some(gate) && pair.answer.ts == Some(live)
    requires !Surprised(cfg, proto, es)
    requires TcpOptions.WellFormed(s, n)
             && TcpOptions.Fixable(s, n, UnexpectedTs in e.problems, TsOutOfSync in e.problems)
    requires TcpOptions.Timestamps(s, n) == Some((Later(live, ticks), echo))
    ensures var f := TcpOptions.Fixed(s, n, UnexpectedTs in e.problems, TsOutOfSync in e.problems, e.tsDiff);
            TcpOptions.WellFormed(f, n) && TcpOptions.Timestamps(f, n) == Some((Later(gate, ticks), echo))
  {
    ClockFollowsRecording(cfg, proto, es);
    StripsIff(cfg, proto, es);
    TcpOptions.FixedShows(s, n, UnexpectedTs in e.problems, TsOutOfSync in e.problems, e.tsDiff);
    assert TcpOptions.Shift(Later(live, ticks), e.tsDiff) == Later(gate, ticks);
  }
}

/**
 * A connection's life in the gateway: what every packet does to it, by the packet's origin and the connection's state.
 */
module Gateway {
  import opened Words
  import opened Sequence
  import opened Replay

  datatype State = Init | Deciding | Replaying | Forwarding | Proxy | Drop | Control

  /** Results of the decision engine; rule modules are any function that returns one. */
  datatype Verdict = NoRule | Defer | Accept | Reject | DropIt

  datatype Config = Config(backends: nat, picker: bool, maxBuffer: nat, denyHihInit: bool, resetExt: bool)

  /**
   * What rules say about a packet, and whether `setup_redirection` finds the honeypot they chose free and configured.
   */
  datatype Advice = Advice(verdict: Verdict, ready: bool)

  /** Packets leaving the gateway; `shift` is what was added to the sequence number. */
  datatype Out =
    | ToLih(p: Pkt)
    | ToHih(p: Pkt)
    | ToExt(p: Pkt, shift: U32)
    | ToIntra(p: Pkt)
    | ResetLih(p: Pkt)
    | ResetHih(p: Pkt)
    | ResetExt(p: Pkt)

  /**
   * A connection. `hih` says that back_handler is set. History: `out` is what was sent apart from what the replay
   * engine forwarded, `trail` the states in order, `offered` what was handed to store_pkt. `crashed` is a null
   * dereference.
   */
  datatype Conn = Conn(state: State, initiator: Role, destination: Role, proto: Proto, hih: bool, eng: Engine,
                       out: seq<Out>, trail: seq<State>, offered: seq<Pkt>, crashed: bool)

  /** A new connection, as `create_conn` leaves it. */
  function Born(initiator: Role, destination: Role, proto: Proto): Conn {
    var state := if initiator.Lih? then Control else Init;
    Conn(state, initiator, destination, proto, initiator.Hih?, FRESH, [], [state], [], false)
  }

  function Switch(c: Conn, s: State): Conn {
    c.(state := s, trail := c.trail + [s])
  }

  function Send(c: Conn, o: Out): Conn {
    c.(out := c.out + [o])
  }

  predicate HasBackends(cfg: Config) {
    cfg.backends > 0 || cfg.picker
  }

  /** Packets are stored only if there are backends. */
  function Keep(cfg: Config, c: Conn, p: Pkt): Conn {
    if HasBackends(cfg) then c.(eng := Stored(c.eng, cfg.maxBuffer, p), offered := c.offered + [p]) else c
  }

  predicate AnyLih(b: seq<Pkt>) {
    exists i | 0 <= i < |b| :: b[i].origin.Lih?
  }

  /**
   * `reset_lih`: a reset made from the last recorded packet, if the recording holds one of the low-interaction
   * honeypot.
   */
  function FrontReset(c: Conn): Conn {
    if c.proto.Tcp? && AnyLih(c.eng.buffer) then Send(c, ResetLih(c.eng.buffer[|c.eng.buffer| - 1])) else c
  }

  /** `setup_redirection`, once nothing stands against it; `begun` is the engine after the first stretch. */
  function Redirected(c: Conn, begun: Engine): Conn {
    FrontReset(Switch(c.(hih := true), Replaying)).(eng := begun)
  }

  /** The verdict `DE_process_packet` acts on. */
  function Ruling(c: Conn, v: Verdict): Verdict {
    match c.state
    case Init => if v.Defer? then Reject else v
    case Control =>
      if c.destination.Ext? then v
      else if c.destination.Intra? then (if v.Defer? || v.NoRule? then DropIt else v)
      else NoRule
    case _ => v
  }

  predicate Asks(s: State) {
    s.Init? || s.Deciding? || s.Control?
  }

  /** Whether `DE_process_packet` lets the packet pass. */
  predicate Passes(c: Conn, v: Verdict) {
    var r := Ruling(c, v);
    r.NoRule? || r.Defer? || (r.Accept? && !c.state.Deciding?)
  }

  /** The connection after `DE_process_packet`. */
  function Decided(cfg: Config, c: Conn, a: Advice, begun: Engine): Conn
    requires Asks(c.state)
  {
    match Ruling(c, a.verdict)
    case NoRule =>
      if c.state.Control? then Switch(c, Proxy)
      else if c.state.Init? then Switch(c, if cfg.backends == 0 then Proxy else Deciding)
      else c
    case Defer => c
    case Accept =>
      if c.state.Init? then Switch(c, if HasBackends(cfg) then Deciding else Proxy)
      else if c.state.Deciding? && a.ready then Redirected(c, begun)
      else c
    case Reject => Switch(c, if c.state.Deciding? then Proxy else Drop)
    case DropIt => Switch(c, Drop)
  }

  /** `proxy_ext2int`. */
  function ProxiedIn(c: Conn, p: Pkt): Conn {
    if c.initiator.Hih? then Send(c, ToHih(p)) else if c.initiator.Intra? then c else Send(c, ToLih(p))
  }

  function FromLih(cfg: Config, c: Conn, p: Pkt, a: Advice): Conn
  {
    if c.state.Init? || c.state.Deciding? then
      Keep(cfg, Send(c.(eng := NoteLihSyn(c.eng, p)), ToExt(p, 0)), p)
    else if c.state.Proxy? then Send(c, ToExt(p, 0))
    else if c.state.Control? then
      var n := c.(eng := NoteLihSyn(c.eng, p));
      var d := Decided(cfg, n, a, n.eng);
      Keep(cfg, if Passes(n, a.verdict) then Send(d, ToExt(p, 0)) else d, p)
    else if p.proto.Tcp? then Send(c, ResetLih(p))
    else c
  }

  /** A packet of the high-interaction honeypot that is not expected in this state: refused, or put under control. */
  function FromUnasked(cfg: Config, c: Conn, p: Pkt, a: Advice): Conn
  {
    if cfg.denyHihInit then
      if p.proto.Tcp? && !c.hih then c.(crashed := true)
      else Switch(if p.proto.Tcp? then Send(c, ResetHih(p)) else c, Drop)
    else
      var n := Switch(c, Control);
      var d := Decided(cfg, n, a, n.eng);
      if !Passes(n, a.verdict) then d
      else if c.destination.Ext? then Send(d, ToExt(p, 0))
      else if c.destination.Intra? then Send(d, ToIntra(p))
      else d
  }

  function FromHih(cfg: Config, c: Conn, p: Pkt, a: Advice, heard: Engine, answer: Outcome): Conn
  {
    if c.state.Replaying? then
      var r := c.(eng := heard);
      if answer.Crashed? then r.(crashed := true)
      else if answer.Completed? then Switch(r, Forwarding)
      else r
    else if c.state.Forwarding? then Send(c, ToExt(p, c.eng.delta))
    else if c.state.Proxy? then
      if c.destination.Ext? then Send(c, ToExt(p, 0))
      else if c.destination.Intra? then Send(c, ToIntra(p))
      else c
    else if c.state.Control? then
      var d := Decided(cfg, c, a, c.eng);
      if Passes(c, a.verdict) then Send(d, ToExt(p, 0)) else d
    else FromUnasked(cfg, c, p, a)
  }

  function FromIntra(c: Conn, p: Pkt): Conn {
    if c.state.Proxy? && c.hih then Send(c, ToHih(p)) else c
  }

  function FromExt(cfg: Config, c: Conn, p: Pkt, a: Advice, begun: Engine): Conn
  {
    if c.state.Init? || c.state.Deciding? then
      var d := Decided(cfg, c, a, begun);
      Keep(cfg, if Passes(c, a.verdict) then ProxiedIn(d, p) else d, p)
    else if c.state.Forwarding? then (if c.hih then c.(eng := Forward(c.eng, p)) else c)
    else if c.state.Proxy? || c.state.Control? then ProxiedIn(c, p)
    else c
  }

  /** The dispatch of `de_thread`, given what the replay engine makes of the connection and the packet. */
  function Dispatched(cfg: Config, c: Conn, p: Pkt, a: Advice, begun: Engine, heard: Engine, answer: Outcome): Conn {
    if c.state.Drop? then (if p.origin.Ext? && p.proto.Tcp? && cfg.resetExt then Send(c, ResetExt(p)) else c)
    else
      match p.origin
      case Lih => FromLih(cfg, c, p, a)
      case Hih => FromHih(cfg, c, p, a, heard, answer)
      case Intra => FromIntra(c, p)
      case Ext => FromExt(cfg, c, p, a, begun)
  }

  /** One turn of `de_thread`. */
  function Handled(cfg: Config, c: Conn, p: Pkt, a: Advice): Conn
    requires c.eng.next <= |c.eng.buffer|
  {
    Dispatched(cfg, c, p, a, Begun(c.eng), Heard(c.eng, p), Answer(c.eng, p))
  }

  /** `struct conn_struct`, as far as the dispatcher and the replay work on it. */
  class Connection {
    var state: State
    const initiator: Role
    const destination: Role
    const proto: Proto
    var hih: bool
    var buffer: seq<Pkt>
    var replayId: nat
    var expected: Expected
    var lihSynSeq: U32
    var delta: U32
    var tsDiff: int
    var problems: set<Problem>
    var crashed: bool
    ghost var sent: seq<Forwarded>
    ghost var hihSyn: Option<U32>
    ghost var gateDelta: U32
    ghost var gateSyn: Option<U32>
    ghost var out: seq<Out>
    ghost var trail: seq<State>
    ghost var offered: seq<Pkt>

    ghost function Eng(): Engine
      reads this
    {
      Engine(buffer, replayId, expected, lihSynSeq, delta, tsDiff, problems, sent, hihSyn, gateDelta, gateSyn)
    }

    ghost function Abs(): Conn
      reads this
    {
      Conn(state, initiator, destination, proto, hih, Eng(), out, trail, offered, crashed)
    }

    constructor (first: Role, last: Role, protocol: Proto)
      ensures Abs() == Born(first, last, protocol)
    {
      initiator, destination, proto := first, last, protocol;
      state := if first.Lih? then Control else Init;
      hih := first.Hih?;
      buffer, replayId, expected := [], 0, Expected(None, 0, 0, Some(0));
      lihSynSeq, delta, tsDiff, problems, crashed := 0, 0, 0, {}, false;
      sent, hihSyn, gateDelta, gateSyn, out, offered := [], None, 0, None, [], [];
      trail := [if first.Lih? then Control else Init];
    }

    method SwitchState(s: State)
      modifies this`state, this`trail
      ensures Abs() == Switch(old(Abs()), s)
    {
      state := s;
      trail := trail + [s];
    }

    method StorePkt(cfg: Config, p: Pkt)
      modifies this`buffer, this`offered
      ensures Abs() == Keep(cfg, old(Abs()), p)
    {
      if cfg.backends > 0 || cfg.picker {
        offered := offered + [p];
        var length := |buffer|;
        if length < cfg.maxBuffer {
          buffer := buffer + [p];
        }
      }
    }

    method ForwardToHih(p: Pkt)
      modifies this`sent
      ensures Abs() == if old(hih) then old(Abs()).(eng := Forward(old(Eng()), p)) else old(Abs())
    {
      if hih {
        var ackno := p.ackno;
        if p.proto.Tcp? && p.acks {
          ackno := Add(Add(p.ackno, Not(delta)), 1);
        }
        sent := sent + [Forwarded(p, ackno)];
      }
    }

    method DefineExpected(gate: Pkt)
      modifies this`expected, this`gateDelta, this`gateSyn
      ensures Abs() == old(Abs()).(eng := Gated(old(Eng()), gate))
    {
      if gate.proto.Tcp? {
        expected := Expected(Some(Tcp), Add(Add(gate.seqno, Not(delta)), 1), gate.ackno, gate.ts);
      } else {
        expected := expected.(proto := Some(Udp));
      }
      gateDelta, gateSyn := delta, hihSyn;
    }

    method TestExpected(p: Pkt) returns (ok: bool)
      modifies this`problems, this`tsDiff
      ensures ok == Matches(old(expected), p)
      ensures Abs() == old(Abs()).(eng := Tested(old(Eng()), p))
    {
      if expected.proto != Some(p.proto) {
        problems := problems + {UnexpectedProtocol};
        return false;
      }
      if p.proto.Tcp? {
        if !p.syn && p.seqno != expected.seqno {
          problems := problems + {UnexpectedSeq};
          return false;
        }
        if p.ackno != expected.ackno {
          problems := problems + {UnexpectedAck};
          return false;
        }
        if expected.ts.None? && p.ts.Some? {
          problems := problems + {UnexpectedTs};
        } else if expected.ts.Some? && p.ts.Some? && p.ts != expected.ts {
          tsDiff := expected.ts.value - p.ts.value;
          problems := problems + {TsOutOfSync};
        } else if expected.ts.Some? && p.ts.None? {
          problems := problems + {ExpectedTs};
        }
      }
      return true;
    }

    /** The loop of `reset_lih` walks the whole recording and sends one reset, built on the last packet it saw. */
    method ResetFront()
      modifies this`out
      ensures Abs() == FrontReset(old(Abs()))
    {
      if proto.Udp? {
        return;
      }
      var found, i := false, 0;
      while i < |buffer|
        invariant i <= |buffer|
        invariant found <==> AnyLih(buffer[..i])
      {
        assert buffer[..i + 1] == buffer[..i] + [buffer[i]];
        if buffer[i].origin.Lih? {
          found := true;
        }
        i := i + 1;
      }
      assert buffer[..i] == buffer;
      if found {
        out := out + [ResetLih(buffer[|buffer| - 1])];
      }
    }

    /** The forwarding loop of `setup_redirection`, which may run off the end of the recording. */
    method ForwardToGate()
      requires replayId <= |buffer| && hih
      modifies this`replayId, this`sent
      ensures replayId == NextGate(buffer, old(replayId)) && sent == SentUpTo(old(Eng()), replayId)
    {
      ghost var e := Eng();
      while replayId < |buffer| && buffer[replayId].origin.Ext?
        invariant e.next <= replayId <= |buffer|
        invariant NextGate(buffer, replayId) == NextGate(buffer, e.next)
        invariant sent == SentUpTo(e, replayId)
      {
        ForwardToHih(buffer[replayId]);
        replayId := replayId + 1;
      }
    }

    method BeginReplay()
      requires replayId <= |buffer| && hih
      modifies this`replayId, this`sent, this`expected, this`gateDelta, this`gateSyn
      ensures Eng() == Begun(old(Eng()))
    {
      ForwardToGate();
      if replayId < |buffer| {
        DefineExpected(buffer[replayId]);
        replayId := replayId + 1;
      }
    }

    method SetupRedirection()
      requires replayId <= |buffer|
      modifies this
      ensures Abs() == Redirected(old(Abs()), Begun(old(Eng())))
    {
      hih := true;
      SwitchState(Replaying);
      ResetFront();
      BeginReplay();
    }

    /** The forwarding loop of `replay`, which stops at a gate or at the last packet of the recording. */
    method ForwardToGateOrEnd() returns (ended: bool)
      requires replayId < |buffer| && hih
      modifies this`replayId, this`sent
      ensures var g := NextGate(buffer, old(replayId));
              ended == (g == |buffer|) && replayId == (if ended then |buffer| - 1 else g)
                && sent == SentUpTo(old(Eng()), g)
    {
      ghost var e := Eng();
      while buffer[replayId].origin.Ext?
        invariant e.next <= replayId < |buffer|
        invariant NextGate(buffer, replayId) == NextGate(buffer, e.next)
        invariant sent == SentUpTo(e, replayId)
        decreases |buffer| - replayId
      {
        ForwardToHih(buffer[replayId]);
        if replayId + 1 == |buffer| {
          return true;
        }
        replayId := replayId + 1;
      }
      return false;
    }

    method AdvanceReplay() returns (ended: bool)
      requires replayId < |buffer| && hih
      modifies this`replayId, this`sent, this`expected, this`gateDelta, this`gateSyn
      ensures Eng() == Advanced(old(Eng())) && ended == LastLap(old(Eng()))
    {
      ended := ForwardToGateOrEnd();
      if !ended {
        DefineExpected(buffer[replayId]);
        replayId := replayId + 1;
      }
    }

    method ReplayPkt(p: Pkt)
      requires replayId <= |buffer| && hih
      modifies this
      ensures var r := old(Abs()).(eng := Replayed(old(Eng()), p));
              Abs() == match Answer(old(Eng()), p)
                       case Crashed => r.(crashed := true)
                       case Completed => Switch(r, Forwarding)
                       case _ => r
    {
      var ok := TestExpected(p);
      if !ok {
        return;
      }
      if replayId >= |buffer| {
        crashed := true;
        return;
      }
      var ended := AdvanceReplay();
      if ended {
        SwitchState(Forwarding);
      }
    }

    method HandleAnswer(p: Pkt)
      requires replayId <= |buffer| && hih
      modifies this
      ensures var r := old(Abs()).(eng := Heard(old(Eng()), p));
              Abs() == match Answer(old(Eng()), p)
                       case Crashed => r.(crashed := true)
                       case Completed => Switch(r, Forwarding)
                       case _ => r
    {
      if p.proto.Tcp? && p.syn {
        delta := Add(Add(Not(p.seqno), 1), lihSynSeq);
        hihSyn := Some(p.seqno);
      }
      ReplayPkt(p);
    }

    method ProcessPacket(cfg: Config, a: Advice) returns (ok: bool)
      requires Asks(state) && replayId <= |buffer|
      modifies this
      ensures ok == Passes(old(Abs()), a.verdict)
      ensures Abs() == Decided(cfg, old(Abs()), a, Begun(old(Eng())))
    {
      var result := NoRule;
      if state.Init? {
        result := a.verdict;
        if result.Defer? {
          result := Reject;
        }
      } else if state.Deciding? {
        result := a.verdict;
      } else if destination.Ext? {
        result := a.verdict;
      } else if destination.Intra? {
        result := a.verdict;
        if result.Defer? || result.NoRule? {
          result := DropIt;
        }
      }
      ok := false;
      match result {
        case NoRule =>
          if state.Control? {
            SwitchState(Proxy);
          } else if state.Init? {
            if cfg.backends == 0 {
              SwitchState(Proxy);
            } else {
              SwitchState(Deciding);
            }
          }
          ok := true;
        case Defer =>
          ok := true;
        case Accept =>
          if state.Init? {
            if cfg.backends == 0 && !cfg.picker {
              SwitchState(Proxy);
            } else {
              SwitchState(Deciding);
            }
            ok := true;
          } else if state.Deciding? {
            if a.ready {
              SetupRedirection();
            }
          } else {
            ok := true;
          }
        case Reject =>
          if state.Deciding? {
            SwitchState(Proxy);
          } else {
            SwitchState(Drop);
          }
        case DropIt =>
          SwitchState(Drop);
      }
    }

    method ProxyIn(p: Pkt)
      modifies this`out
      ensures Abs() == ProxiedIn(old(Abs()), p)
    {
      match initiator {
        case Lih => out := out + [ToLih(p)];
        case Ext => out := out + [ToLih(p)];
        case Hih => out := out + [ToHih(p)];
        case Intra =>
      }
    }

    method RecordLihSyn(p: Pkt)
      modifies this`lihSynSeq
      ensures Abs() == old(Abs()).(eng := NoteLihSyn(old(Eng()), p))
    {
      if p.proto.Tcp? && p.syn {
        lihSynSeq := p.seqno;
      }
    }

    method HandleLih(cfg: Config, p: Pkt, a: Advice)
      requires replayId <= |buffer| && !state.Drop?
      modifies this
      ensures Abs() == FromLih(cfg, old(Abs()), p, a)
    {
      if state.Init? || state.Deciding? {
        RecordLihSyn(p);
        out := out + [ToExt(p, 0)];
        StorePkt(cfg, p);
      } else if state.Proxy? {
        out := out + [ToExt(p, 0)];
      } else if state.Control? {
        RecordLihSyn(p);
        var ok := ProcessPacket(cfg, a);
        if ok {
          out := out + [ToExt(p, 0)];
        }
        StorePkt(cfg, p);
      } else if p.proto.Tcp? {
        out := out + [ResetLih(p)];
      }
    }

    method HandleHih(cfg: Config, p: Pkt, a: Advice)
      requires replayId <= |buffer| && !state.Drop? && (state.Replaying? ==> hih)
      modifies this
      ensures Abs() == FromHih(cfg, old(Abs()), p, a, Heard(old(Eng()), p), Answer(old(Eng()), p))
    {
      if state.Replaying? {
        HandleAnswer(p);
      } else if state.Forwarding? {
        out := out + [ToExt(p, delta)];
      } else if state.Proxy? {
        if destination.Ext? {
          out := out + [ToExt(p, 0)];
        } else if destination.Intra? {
          out := out + [ToIntra(p)];
        }
      } else if state.Control? {
        var ok := ProcessPacket(cfg, a);
        if ok {
          out := out + [ToExt(p, 0)];
        }
      } else {
        HandleUnasked(cfg, p, a);
      }
    }

    method HandleUnasked(cfg: Config, p: Pkt, a: Advice)
      requires replayId <= |buffer|
      modifies this
      ensures Abs() == FromUnasked(cfg, old(Abs()), p, a)
    {
      if cfg.denyHihInit {
        if p.proto.Tcp? {
          if !hih {
            crashed := true;
            return;
          }
          out := out + [ResetHih(p)];
        }
        SwitchState(Drop);
      } else {
        SwitchState(Control);
        var ok := ProcessPacket(cfg, a);
        if ok {
          if destination.Ext? {
            out := out + [ToExt(p, 0)];
          } else if destination.Intra? {
            out := out + [ToIntra(p)];
          }
        }
      }
    }

    method HandleExt(cfg: Config, p: Pkt, a: Advice)
      requires replayId <= |buffer| && !state.Drop?
      modifies this
      ensures Abs() == FromExt(cfg, old(Abs()), p, a, Begun(old(Eng())))
    {
      if state.Init? || state.Deciding? {
        var ok := ProcessPacket(cfg, a);
        if ok {
          ProxyIn(p);
        }
        StorePkt(cfg, p);
      } else if state.Forwarding? {
        ForwardToHih(p);
      } else if state.Proxy? || state.Control? {
        ProxyIn(p);
      }
    }

    /** The dispatcher; `Handled` says what it does. */
    method Handle(cfg: Config, p: Pkt, a: Advice)
      requires replayId <= |buffer| && !crashed && (state.Replaying? ==> hih)
      modifies this
      ensures Abs() == Handled(cfg, old(Abs()), p, a)
    {
      if state.Drop? {
        if p.origin.Ext? && p.proto.Tcp? && cfg.resetExt {
          out := out + [ResetExt(p)];
        }
        return;
      }
      match p.origin {
        case Lih => HandleLih(cfg, p, a);
        case Hih => HandleHih(cfg, p, a);
        case Intra =>
          if state.Proxy? && hih {
            out := out + [ToHih(p)];
          }
        case Ext => HandleExt(cfg, p, a);
      }
    }
  }
}

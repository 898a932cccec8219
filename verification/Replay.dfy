/**
 * The replay engine: recorded packets of the attacker are sent again to the high-interaction honeypot, and every
 * recorded packet of the low-interaction honeypot is a gate that waits for the matching answer.
 */
module Replay {
  import opened Words
  import opened Sequence

  /** EXT, LIH, HIH and INTRA. */
  datatype Role = Ext | Lih | Hih | Intra

  datatype Proto = Tcp | Udp

  /**
   * What the engine reads of a packet: for TCP the SYN and ACK flags, both numbers and the timestamp, if there is one.
   * `id` tells packets apart that say the same; nothing looks at it.
   */
  datatype Pkt = Pkt(id: nat, origin: Role, proto: Proto, syn: bool, acks: bool, seqno: U32, ackno: U32,
                     ts: Option<U32>)

  /** `expected_data`; no protocol until the first gate is set. */
  datatype Expected = Expected(proto: Option<Proto>, seqno: U32, ackno: U32, ts: Option<U32>)

  /** The reporting bits of `replay_problem`. */
  datatype Problem = UnexpectedProtocol | UnexpectedSeq | UnexpectedAck | UnexpectedTs | ExpectedTs | TsOutOfSync

  /** A packet handed to `forward_ext2hih` and the acknowledgement number it left with. */
  datatype Forwarded = Forwarded(pkt: Pkt, ackno: U32)

  /** Acknowledgements are shifted back, if the ACK flag says that there is one. */
  function AckTo(p: Pkt, delta: U32): U32 {
    if p.proto.Tcp? && p.acks then ToHoneypot(p.ackno, delta) else p.ackno
  }

  /**
   * The part of a connection the engine works on. The last three are history: the sequence number of the last SYN of
   * the high-interaction honeypot, and the delta and SYN that were in force when the current expectation was computed.
   */
  datatype Engine = Engine(buffer: seq<Pkt>, next: nat, expected: Expected, lihSyn: U32, delta: U32, tsDiff: int,
                           problems: set<Problem>, sent: seq<Forwarded>, hihSyn: Option<U32>, gateDelta: U32,
                             gateSyn: Option<U32>)

  const FRESH := Engine([], 0, Expected(None, 0, 0, Some(0)), 0, 0, 0, {}, [], None, 0, None)

  /** `store_pkt`. */
  function Stored(e: Engine, max: nat, p: Pkt): Engine {
    if |e.buffer| < max then e.(buffer := e.buffer + [p]) else e
  }

  function NoteLihSyn(e: Engine, p: Pkt): Engine {
    if p.proto.Tcp? && p.syn then e.(lihSyn := p.seqno) else e
  }

  function NoteHihSyn(e: Engine, p: Pkt): Engine {
    if p.proto.Tcp? && p.syn then e.(delta := Delta(p.seqno, e.lihSyn), hihSyn := Some(p.seqno)) else e
  }

  function Forward(e: Engine, p: Pkt): Engine {
    e.(sent := e.sent + [Forwarded(p, AckTo(p, e.delta))])
  }

  /** `define_expected_data`. */
  function Gated(e: Engine, gate: Pkt): Engine {
    e.(expected := if gate.proto.Tcp? then Expected(Some(Tcp), ToHoneypot(gate.seqno, e.delta), gate.ackno, gate.ts)
                   else e.expected.(proto := Some(Udp)),
       gateDelta := e.delta, gateSyn := e.hihSyn)
  }

  /** When `test_expected` lets a packet pass. */
  predicate Matches(x: Expected, p: Pkt) {
    && x.proto == Some(p.proto)
    && (p.proto.Tcp? ==> (p.syn || p.seqno == x.seqno) && p.ackno == x.ackno)
  }

  predicate OutOfSync(x: Expected, p: Pkt) {
    Matches(x, p) && p.proto.Tcp? && x.ts.Some? && p.ts.Some? && x.ts != p.ts
  }

  /** What `test_expected` reports. */
  function ProblemOf(x: Expected, p: Pkt): set<Problem> {
    if x.proto != Some(p.proto) then {UnexpectedProtocol}
    else if p.proto.Udp? then {}
    else if !p.syn && p.seqno != x.seqno then {UnexpectedSeq}
    else if p.ackno != x.ackno then {UnexpectedAck}
    else if x.ts.None? && p.ts.Some? then {UnexpectedTs}
    else if OutOfSync(x, p) then {TsOutOfSync}
    else if x.ts.Some? && p.ts.None? then {ExpectedTs}
    else {}
  }

  function Tested(e: Engine, p: Pkt): Engine {
    e.(problems := e.problems + ProblemOf(e.expected, p),
       tsDiff := if OutOfSync(e.expected, p) then e.expected.ts.value - p.ts.value else e.tsDiff)
  }

  /** The first packet from position `i` on that is not the attacker's, or the end of the buffer. */
  function NextGate(b: seq<Pkt>, i: nat): (g: nat)
    requires i <= |b|
    ensures i <= g <= |b|
    decreases |b| - i
  {
    if i == |b| || !b[i].origin.Ext? then i else NextGate(b, i + 1)
  }

  lemma {:induction false} NextGateIsFirst(b: seq<Pkt>, i: nat)
    requires i <= |b|
    ensures forall j | i <= j < NextGate(b, i) :: b[j].origin.Ext?
    ensures NextGate(b, i) < |b| ==> !b[NextGate(b, i)].origin.Ext?
    decreases |b| - i
  {
    if i < |b| && b[i].origin.Ext? {
      NextGateIsFirst(b, i + 1);
    }
  }

  /** What has been forwarded when a forwarding loop that started at `e.next` has come to position `j`. */
  function SentUpTo(e: Engine, j: nat): seq<Forwarded>
    requires e.next <= j <= |e.buffer|
  {
    if j == e.next then e.sent else SentUpTo(e, j - 1) + [Forwarded(e.buffer[j - 1], AckTo(e.buffer[j - 1], e.delta))]
  }

  lemma {:induction false} PacketsSentUpTo(e: Engine, j: nat)
    requires e.next <= j <= |e.buffer|
    ensures Packets(SentUpTo(e, j)) == Packets(e.sent) + e.buffer[e.next..j]
  {
    if j > e.next {
      var p, before := e.buffer[j - 1], SentUpTo(e, j - 1);
      PacketsSentUpTo(e, j - 1);
      PacketsAppend(before, Forwarded(p, AckTo(p, e.delta)));
      assert SentUpTo(e, j) == before + [Forwarded(p, AckTo(p, e.delta))];
      assert e.buffer[e.next..j] == e.buffer[e.next..j - 1] + [p];
    }
  }

  /** The beginning of a replay in `setup_redirection`: everything up to the first gate, which is then set. */
  function Begun(e: Engine): Engine
    requires e.next <= |e.buffer|
  {
    var g := NextGate(e.buffer, e.next);
    var f := e.(sent := SentUpTo(e, g));
    if g < |e.buffer| then Gated(f, e.buffer[g]).(next := g + 1) else f.(next := g)
  }

  /** The gate is passed with nothing left but packets of the attacker. */
  predicate LastLap(e: Engine)
    requires e.next <= |e.buffer|
  {
    e.next < |e.buffer| && NextGate(e.buffer, e.next) == |e.buffer|
  }

  /** The body of `replay` once the packet passed the test; past the end of the buffer there is nothing to look at. */
  function Advanced(e: Engine): Engine
    requires e.next < |e.buffer|
  {
    var g := NextGate(e.buffer, e.next);
    var f := e.(sent := SentUpTo(e, g));
    if g < |e.buffer| then Gated(f, e.buffer[g]).(next := g + 1) else f.(next := |e.buffer| - 1)
  }

  /** What a packet of the high-interaction honeypot leads to. */
  datatype Outcome = Waiting | Continued | Completed | Crashed

  function Answer(e: Engine, p: Pkt): Outcome
    requires e.next <= |e.buffer|
  {
    if !Matches(e.expected, p) then Waiting
    else if e.next == |e.buffer| then Crashed
    else if LastLap(e) then Completed
    else Continued
  }

  function Replayed(e: Engine, p: Pkt): Engine
    requires e.next <= |e.buffer|
  {
    var t := Tested(e, p);
    if Matches(e.expected, p) && e.next < |e.buffer| then Advanced(t) else t
  }

  /** The attacker's packets of a recording, in order. */
  function ExtOf(s: seq<Pkt>): seq<Pkt> {
    if s == [] then []
    else ExtOf(s[..|s| - 1]) + if s[|s| - 1].origin.Ext? then [s[|s| - 1]] else []
  }

  /** How many packets of a recording are gates. */
  function Gates(s: seq<Pkt>): nat {
    if s == [] then 0 else (if s[0].origin.Ext? then 0 else 1) + Gates(s[1..])
  }

  function Packets(s: seq<Forwarded>): seq<Pkt> {
    if s == [] then [] else Packets(s[..|s| - 1]) + [s[|s| - 1].pkt]
  }

  lemma PacketsAppend(s: seq<Forwarded>, f: Forwarded)
    ensures Packets(s + [f]) == Packets(s) + [f.pkt]
  {
    assert (s + [f])[..|s|] == s;
  }

  /** Going on to a later position of the recording adds a stretch that holds only the attacker's packets. */
  lemma {:induction false} ExtOfStretch(b: seq<Pkt>, i: nat, j: nat)
    requires i <= j <= |b| && forall k | i <= k < j :: b[k].origin.Ext?
    ensures ExtOf(b[..j]) == ExtOf(b[..i]) + b[i..j]
  {
    if i < j {
      ExtOfStretch(b, i, j - 1);
      assert b[..j][..j - 1] == b[..j - 1];
      assert b[i..j] == b[i..j - 1] + [b[j - 1]];
    }
  }

  /** Exactly the attacker's packets before the current position have been forwarded, in order and each once. */
  ghost predicate Faithful(e: Engine) {
    e.next <= |e.buffer| && Packets(e.sent) == ExtOf(e.buffer[..e.next])
  }

  lemma GateAddsNothing(b: seq<Pkt>, g: nat)
    requires g < |b| && !b[g].origin.Ext?
    ensures ExtOf(b[..g + 1]) == ExtOf(b[..g])
  {
    assert b[..g + 1][..g] == b[..g];
  }

  lemma StretchForwarded(e: Engine)
    requires Faithful(e)
    ensures var g := NextGate(e.buffer, e.next);
            Packets(SentUpTo(e, g)) == ExtOf(e.buffer[..g])
  {
    var g := NextGate(e.buffer, e.next);
    NextGateIsFirst(e.buffer, e.next);
    PacketsSentUpTo(e, g);
    ExtOfStretch(e.buffer, e.next, g);
  }

  lemma BegunIsFaithful(e: Engine)
    requires Faithful(e)
    ensures Faithful(Begun(e)) && Begun(e).buffer == e.buffer
  {
    var g := NextGate(e.buffer, e.next);
    StretchForwarded(e);
    NextGateIsFirst(e.buffer, e.next);
    if g < |e.buffer| {
      GateAddsNothing(e.buffer, g);
    }
  }

  /** Passing a gate keeps the replay faithful; on the last lap everything the attacker sent has been forwarded. */
  lemma AdvancedIsFaithful(e: Engine)
    requires Faithful(e) && e.next < |e.buffer|
    ensures Advanced(e).buffer == e.buffer
    ensures if LastLap(e) then Packets(Advanced(e).sent) == ExtOf(e.buffer) else Faithful(Advanced(e))
  {
    var g := NextGate(e.buffer, e.next);
    StretchForwarded(e);
    NextGateIsFirst(e.buffer, e.next);
    if g < |e.buffer| {
      GateAddsNothing(e.buffer, g);
    } else {
      assert e.buffer[..g] == e.buffer;
    }
  }

  lemma {:induction false} GatesOfStretch(b: seq<Pkt>, i: nat)
    requires i <= |b|
    ensures var g := NextGate(b, i); Gates(b[i..]) == if g == |b| then 0 else 1 + Gates(b[g + 1..])
    decreases |b| - i
  {
    if i < |b| {
      assert b[i..][1..] == b[i + 1..];
      if b[i].origin.Ext? {
        GatesOfStretch(b, i + 1);
      }
    }
  }

  /** Answers the replay still waits for: the gate that is set, and those ahead. */
  function Remaining(e: Engine): nat
    requires e.next <= |e.buffer|
  {
    (if e.expected.proto.Some? then 1 else 0) + Gates(e.buffer[e.next..])
  }

  /**
   * An accepted answer lowers the number still missing by one, and the last one ends the replay, unless the recording
   * ends in a gate.
   */
  lemma AcceptedAnswerIsProgress(e: Engine, p: Pkt)
    requires e.next <= |e.buffer|
    ensures Replayed(e, p).buffer == e.buffer && Replayed(e, p).next <= |e.buffer|
    ensures Answer(e, p).Continued? ==> Remaining(e) >= 2 && Remaining(Replayed(e, p)) == Remaining(e) - 1
    ensures Answer(e, p).Completed? ==> Remaining(e) == 1
    ensures Matches(e.expected, p) && Remaining(e) == 1 ==> Answer(e, p).Completed? || Answer(e, p).Crashed?
    ensures Answer(e, p).Waiting? ==> Replayed(e, p).next == e.next && Remaining(Replayed(e, p)) == Remaining(e)
  {
    if Matches(e.expected, p) && e.next < |e.buffer| {
      GatesOfStretch(e.buffer, e.next);
    }
  }

  /** The replay stands right behind the gate it waits at. */
  ghost predicate AtGate(e: Engine) {
    e.next <= |e.buffer|
      && (e.expected.proto.Some? ==> e.next > 0 && !e.buffer[e.next - 1].origin.Ext? && IsExpectation(e))
  }

  /** The expectation is the gate's packet, its sequence number shifted by the delta of that moment. */
  predicate IsExpectation(e: Engine)
    requires 0 < e.next <= |e.buffer|
  {
    var gate := e.buffer[e.next - 1];
    e.expected.proto == Some(gate.proto) &&
    (gate.proto.Tcp? ==>
     e.expected.seqno == ToHoneypot(gate.seqno, e.gateDelta) && e.expected.ackno == gate.ackno
     && e.expected.ts == gate.ts)
  }

  lemma BegunIsAtGate(e: Engine)
    requires e.next <= |e.buffer| && e.expected.proto.None?
    ensures AtGate(Begun(e))
    ensures Begun(e).expected.proto.None? ==> Begun(e).next == |e.buffer|
  {
    NextGateIsFirst(e.buffer, e.next);
  }

  /** The replay begins to wait at a gate exactly when the recording holds one. */
  lemma WaitsIffGates(e: Engine)
    requires e.next <= |e.buffer| && e.expected.proto.None?
    ensures Begun(e).expected.proto.Some? <==> Gates(e.buffer[e.next..]) > 0
    ensures Begun(e).buffer == e.buffer && Begun(e).next <= |e.buffer|
    ensures Remaining(Begun(e)) == Gates(e.buffer[e.next..])
  {
    GatesOfStretch(e.buffer, e.next);
  }

  lemma ReplayedIsAtGate(e: Engine, p: Pkt)
    requires AtGate(e) && !Answer(e, p).Completed?
    ensures AtGate(Replayed(e, p))
  {
    NextGateIsFirst(e.buffer, e.next);
  }

  /** A packet of the high-interaction honeypot arrives: its SYN fixes delta before it is tested. */
  function Heard(e: Engine, p: Pkt): Engine
    requires e.next <= |e.buffer|
  {
    Replayed(NoteHihSyn(e, p), p)
  }

  lemma HeardKeeps(e: Engine, p: Pkt)
    requires AtGate(e) && !Answer(e, p).Completed?
    ensures AtGate(Heard(e, p)) && Heard(e, p).buffer == e.buffer
    ensures Remaining(Heard(e, p)) == Remaining(e) - if Answer(e, p).Continued? then 1 else 0
    ensures Heard(e, p).expected.proto.Some? <==> e.expected.proto.Some?
  {
    var h := NoteHihSyn(e, p);
    ReplayedIsAtGate(h, p);
    AcceptedAnswerIsProgress(h, p);
  }

  /** What becomes of a replay that hears the packets `ps`, whatever they are. */
  function Journey(e: Engine, ps: seq<Pkt>): Outcome
    requires AtGate(e)
    decreases |ps|
  {
    if ps == [] then Waiting
    else if Answer(e, ps[0]).Completed? || Answer(e, ps[0]).Crashed? then Answer(e, ps[0])
    else
      HeardKeeps(e, ps[0]);
      Journey(Heard(e, ps[0]), ps[1..])
  }

  predicate EndsInExt(b: seq<Pkt>) {
    b != [] && b[|b| - 1].origin.Ext?
  }

  /**
   * A replay that completes had a gate to wait at, was recorded up to a packet of the attacker, and heard at least one
   * packet for every gate.
   */
  lemma {:induction false} CompletionNeeds(e: Engine, ps: seq<Pkt>)
    requires AtGate(e) && Journey(e, ps).Completed?
    ensures e.expected.proto.Some? && EndsInExt(e.buffer) && |ps| >= Remaining(e)
    decreases |ps|
  {
    if Answer(e, ps[0]).Completed? {
      NextGateIsFirst(e.buffer, e.next);
      AcceptedAnswerIsProgress(e, ps[0]);
    } else {
      HeardKeeps(e, ps[0]);
      CompletionNeeds(Heard(e, ps[0]), ps[1..]);
    }
  }

  /** One that runs past its end waited at a gate and was recorded up to a gate. */
  lemma {:induction false} CrashNeeds(e: Engine, ps: seq<Pkt>)
    requires AtGate(e) && Journey(e, ps).Crashed?
    ensures e.expected.proto.Some? && e.buffer != [] && !EndsInExt(e.buffer)
    decreases |ps|
  {
    if !Answer(e, ps[0]).Crashed? {
      HeardKeeps(e, ps[0]);
      CrashNeeds(Heard(e, ps[0]), ps[1..]);
    }
  }

  /** An answer that passes the gate that is set. */
  function Passing(e: Engine): Pkt
    requires e.expected.proto.Some?
  {
    Pkt(0, Hih, e.expected.proto.value, false, true, e.expected.seqno, e.expected.ackno, e.expected.ts)
  }

  /** A honeypot that answers every gate as recorded. */
  function Answers(e: Engine): (ps: seq<Pkt>)
    requires AtGate(e) && e.expected.proto.Some?
    ensures ps != [] && ps[0] == Passing(e)
    decreases Remaining(e)
  {
    var p := Passing(e);
    if Answer(e, p).Continued? then
      HeardKeeps(e, p);
      [p] + Answers(Heard(e, p))
    else [p]
  }

  /**
   * Answered as recorded, the replay completes with one packet a gate, or runs past its end when nothing follows the
   * last gate.
   */
  lemma {:induction false} AnswersDecide(e: Engine)
    requires AtGate(e) && e.expected.proto.Some?
    ensures Journey(e, Answers(e)) == if EndsInExt(e.buffer) then Completed else Crashed
    ensures |Answers(e)| == Remaining(e)
    decreases Remaining(e)
  {
    var p := Passing(e);
    AcceptedAnswerIsProgress(e, p);
    NextGateIsFirst(e.buffer, e.next);
    if Answer(e, p).Continued? {
      HeardKeeps(e, p);
      AnswersDecide(Heard(e, p));
      assert Answers(e)[1..] == Answers(Heard(e, p));
    } else {
      assert Gates(e.buffer[e.next..]) == 0 by {
        GatesOfStretch(e.buffer, e.next);
      }
    }
  }

  /** Exactly which replays can complete, and which can run past the end of their recording. */
  lemma CompletesIff(e: Engine)
    requires AtGate(e)
    ensures (exists ps :: Journey(e, ps).Completed?) <==> e.expected.proto.Some? && EndsInExt(e.buffer)
    ensures (exists ps :: Journey(e, ps).Crashed?) <==> e.expected.proto.Some? && e.buffer != [] && !EndsInExt(e.buffer)
  {
    if e.expected.proto.Some? {
      AnswersDecide(e);
    }
    forall ps | Journey(e, ps).Completed? ensures e.expected.proto.Some? && EndsInExt(e.buffer) {
      CompletionNeeds(e, ps);
    }
    forall ps | Journey(e, ps).Crashed? ensures e.expected.proto.Some? && e.buffer != [] && !EndsInExt(e.buffer) {
      CrashNeeds(e, ps);
    }
  }

  /**
   * A later TCP packet stands at the recorded packet's offset from the other honeypot's SYN and acknowledges the same
   * byte.
   */
  predicate Agree(e: Engine, hihSyn: U32, p: Pkt)
    requires 0 < e.next <= |e.buffer|
  {
    var gate := e.buffer[e.next - 1];
    Offset(p.seqno, hihSyn) == Offset(gate.seqno, e.lihSyn) && p.ackno == gate.ackno
  }

  /** The gate passes exactly the later TCP packets on which the two conversations agree. */
  ghost predicate ComparesConversations(e: Engine, hihSyn: U32)
    requires 0 < e.next <= |e.buffer|
  {
    forall p: Pkt | p.proto.Tcp? && !p.syn :: Matches(e.expected, p) <==> Agree(e, hihSyn, p)
  }

  /** A gate compares the conversations iff it was set with the distance between the two SYNs. */
  lemma ComparesIff(e: Engine, hihSyn: U32)
    requires AtGate(e) && e.expected.proto == Some(Tcp)
    ensures ComparesConversations(e, hihSyn) <==> e.gateDelta == Delta(hihSyn, e.lihSyn)
  {
    var gate := e.buffer[e.next - 1];
    var d := Delta(hihSyn, e.lihSyn);
    if e.gateDelta == d {
      forall p: Pkt | p.proto.Tcp? && !p.syn ensures Matches(e.expected, p) <==> Agree(e, hihSyn, p) {
        GateComparesOffsets(hihSyn, e.lihSyn, p.seqno, gate.seqno);
      }
    } else {
      var p := Pkt(0, Hih, Tcp, false, true, ToHoneypot(gate.seqno, d), gate.ackno, None);
      GateComparesOffsets(hihSyn, e.lihSyn, p.seqno, gate.seqno);
      ShiftsDiffer(gate.seqno, e.gateDelta, d);
      assert Agree(e, hihSyn, p) && !Matches(e.expected, p);
    }
  }
}

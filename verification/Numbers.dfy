/**
 * The numbers two conversations are joined by: whose SYNs they are taken from, and what every replayed packet
 * acknowledges.
 */
module Numbers {
  import opened Words
  import opened Sequence
  import opened Replay
  import opened Gateway
  import opened GatewayRuns
  import opened ReplayRuns
  import opened Delivery

  /** The sequence number of the last TCP SYN among the packets. */
  function LastSyn(s: seq<Pkt>): Option<U32> {
    if s == [] then None
    else if s[|s| - 1].proto.Tcp? && s[|s| - 1].syn then Some(s[|s| - 1].seqno)
    else LastSyn(s[..|s| - 1])
  }

  lemma LastSynAppend(s: seq<Pkt>, p: Pkt)
    ensures LastSyn(s + [p]) == if p.proto.Tcp? && p.syn then Some(p.seqno) else LastSyn(s)
  {
    assert (s + [p])[..|s|] == s;
  }

  /** What one packet does to the two numbers. */
  lemma SynStep(cfg: Config, c: Conn, p: Pkt, a: Advice, d: Conn)
    requires Outside(c) && !c.crashed && Follows(cfg, c, p, a, d)
    ensures d.eng.lihSyn == if p.origin.Lih? && (c.state.Init? || c.state.Deciding?) && p.proto.Tcp? && p.syn
            then p.seqno
                            else c.eng.lihSyn
    ensures d.eng.hihSyn == if p.origin.Hih? && c.state.Replaying? && p.proto.Tcp? && p.syn then Some(p.seqno)
                            else c.eng.hihSyn
    ensures d.state.Init? || d.state.Deciding? ==> c.state.Init? || c.state.Deciding?
    ensures !AtFront(d.state) && !d.state.Drop? && AtFront(c.state) ==> c.state.Deciding? && p.origin.Ext?
    ensures d.state.Replaying? || d.state.Forwarding? ==> !c.state.Drop? && !c.state.Proxy?
  {
  }

  lemma SynOfSaid(es: seq<Event>, origin: Role)
    requires es != []
    ensures LastSyn(Said(es, origin))
            == if es[|es| - 1].p.origin == origin && es[|es| - 1].p.proto.Tcp? && es[|es| - 1].p.syn
               then Some(es[|es| - 1].p.seqno) else LastSyn(Said(es[..|es| - 1], origin))
  {
    var before := Said(es[..|es| - 1], origin);
    if es[|es| - 1].p.origin == origin {
      LastSynAppend(before, es[|es| - 1].p);
    } else {
      Nothing(before);
    }
  }

  function Or(n: Option<U32>, otherwise: U32): U32 {
    if n.Some? then n.value else otherwise
  }

  /**
   * Until a connection is decided, and in its redirection, the low-interaction honeypot's number is that of its last
   * SYN.
   */
  lemma {:induction false} FrontNumber(cfg: Config, proto: Proto, es: seq<Event>)
    requires !Run(cfg, Born(Ext, Lih, proto), es).crashed
    ensures var d := Run(cfg, Born(Ext, Lih, proto), es);
            !d.state.Proxy? && !d.state.Drop? ==>
            d.eng.lihSyn == Or(LastSyn(Said(OnFront(cfg, proto, es), Lih)), 0)
  {
    if es != [] {
      var c, d, ev := LastStep(cfg, proto, es);
      FrontNumber(cfg, proto, es[..|es| - 1]);
      StepFollows(cfg, c, ev);
      SynStep(cfg, c, ev.p, ev.a, d);
      PartsAfter(cfg, proto, es, c, d);
      SynOfSaid(es, Lih);
    }
  }

  lemma SynAppended(es: seq<Event>, ev: Event, origin: Role)
    ensures LastSyn(Said(es + [ev], origin))
            == if ev.p.origin == origin && ev.p.proto.Tcp? && ev.p.syn then Some(ev.p.seqno)
              else LastSyn(Said(es, origin))
  {
    SaidAppend(es, ev, origin);
    if ev.p.origin == origin {
      LastSynAppend(Said(es, origin), ev.p);
    } else {
      Nothing(Said(es, origin));
    }
  }

  /** The high-interaction honeypot's number is that of the last SYN it sent during the replay. */
  lemma {:induction false} BackNumber(cfg: Config, proto: Proto, es: seq<Event>)
    requires !Run(cfg, Born(Ext, Lih, proto), es).crashed
    ensures Run(cfg, Born(Ext, Lih, proto), es).eng.hihSyn == LastSyn(Said(InReplay(cfg, proto, es), Hih))
  {
    if es != [] {
      var c, d, ev := LastStep(cfg, proto, es);
      var replay := InReplay(cfg, proto, es[..|es| - 1]);
      BackNumber(cfg, proto, es[..|es| - 1]);
      StepFollows(cfg, c, ev);
      SynStep(cfg, c, ev.p, ev.a, d);
      if c.state.Replaying? {
        SynAppended(replay, ev, Hih);
      } else {
        Nothing(replay);
      }
    }
  }

  // ----- what replayed packets acknowledge -----

  /** From position `n` on, every packet left with the acknowledgement that `delta` gives it. */
  ghost predicate AckedUnder(sent: seq<Forwarded>, n: nat, delta: U32) {
    forall i | n <= i < |sent| :: sent[i].ackno == AckTo(sent[i].pkt, delta)
  }

  lemma {:induction false} StretchAcked(e: Engine, j: nat)
    requires e.next <= j <= |e.buffer|
    ensures |e.sent| <= |SentUpTo(e, j)| && SentUpTo(e, j)[..|e.sent|] == e.sent
    ensures AckedUnder(SentUpTo(e, j), |e.sent|, e.delta)
  {
    if j > e.next {
      StretchAcked(e, j - 1);
    }
  }

  lemma HeardAcked(e: Engine, p: Pkt)
    requires e.next <= |e.buffer|
    ensures |e.sent| <= |Heard(e, p).sent| && AckedUnder(Heard(e, p).sent, |e.sent|, Heard(e, p).delta)
  {
    var t := Tested(NoteHihSyn(e, p), p);
    StretchAcked(t, NextGate(t.buffer, t.next));
  }

  lemma EngineAcked(cfg: Config, c: Conn, p: Pkt, a: Advice, d: Conn)
    requires c.eng.next <= |c.eng.buffer| && Follows(cfg, c, p, a, d)
    ensures |c.eng.sent| <= |d.eng.sent| && AckedUnder(d.eng.sent, |c.eng.sent|, d.eng.delta)
  {
    StretchAcked(c.eng, NextGate(c.eng.buffer, c.eng.next));
    HeardAcked(c.eng, p);
  }

  /**
   * Whatever an event of a run forwards to the high-interaction honeypot, in replay or after, acknowledges there the
   * byte of its stream that the attacker acknowledged of the other's, once it has sent a SYN; packets without the flag
   * are left alone.
   */
  lemma EveryAckTranslated(cfg: Config, proto: Proto, es: seq<Event>, i: nat)
    requires es != [] && !Run(cfg, Born(Ext, Lih, proto), es).crashed
    requires var d := Run(cfg, Born(Ext, Lih, proto), es); d.state.Replaying? || d.state.Forwarding?
    requires |Run(cfg, Born(Ext, Lih, proto), es[..|es| - 1]).eng.sent|
             <= i < |Run(cfg, Born(Ext, Lih, proto), es).eng.sent|
    ensures var e := Run(cfg, Born(Ext, Lih, proto), es).eng;
            var f := e.sent[i];
            && (!(f.pkt.proto.Tcp? && f.pkt.acks) ==> f.ackno == f.pkt.ackno)
            && (f.pkt.proto.Tcp? && f.pkt.acks && e.hihSyn.None? ==> f.ackno == f.pkt.ackno)
            && (f.pkt.proto.Tcp? && f.pkt.acks && e.hihSyn.Some? ==>
                Offset(f.ackno, e.hihSyn.value) == Offset(f.pkt.ackno, e.lihSyn))
  {
    var c, d, ev := LastStep(cfg, proto, es);
    StepFollows(cfg, c, ev);
    EngineAcked(cfg, c, ev.p, ev.a, d);
    AlwaysInStep(cfg, proto, es);
    AckMeaning(d.eng, d.eng.sent[i].pkt);
  }

  lemma AckMeaning(e: Engine, p: Pkt)
    requires InStep(e)
    ensures !(p.proto.Tcp? && p.acks) || e.hihSyn.None? ==> AckTo(p, e.delta) == p.ackno
    ensures p.proto.Tcp? && p.acks && e.hihSyn.Some? ==>
            Offset(AckTo(p, e.delta), e.hihSyn.value) == Offset(p.ackno, e.lihSyn)
  {
    if e.hihSyn.Some? {
      OffsetPreserved(e.hihSyn.value, e.lihSyn, ToHoneypot(p.ackno, e.delta));
      TranslationsInverse(p.ackno, e.delta);
    }
  }
}

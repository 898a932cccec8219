/**
 * What opening a connection settles, over whole runs: who opened it, what address it shows, and which packets are its
 * own.
 */
module Openings {
  import opened Words
  import opened Keys
  import opened Tracking
  import opened TrackingRuns
  import opened TargetPins
  import Tracker

  // ----- the source address of an outgoing connection -----

  /** Comm pins are filed under the address they pin. */
  ghost predicate CommAddressed(pins: map<PinKey, Pin>) {
    forall k | k in pins :: pins[k].ip == k.targetIp
  }

  lemma OpenKeepsAddressed(t: Table, src: Source, p: Packet, exclusiveHih: bool, now: int)
    requires CommAddressed(t.commPins) && Targeted(t.commPins) && Possible(t, Open(src, p, now))
    ensures CommAddressed(Create(t, src, p, exclusiveHih, now).0.commPins)
  {
    var made := Opened(t, src, p, exclusiveHih, now);
    CreatedParts(t, src, p, exclusiveHih, now);
    if made.Some? {
      CommEffect(t, src, p, exclusiveHih, now);
    }
  }

  lemma ApplyKeepsAddressed(t: Table, ev: Event, exclusiveHih: bool)
    requires CommAddressed(t.commPins) && Targeted(t.commPins) && Possible(t, ev)
    ensures CommAddressed(Apply(t, ev, exclusiveHih).commPins)
  {
    match ev
    case Open(src, p, now) => OpenKeepsAddressed(t, src, p, exclusiveHih, now);
    case Divert(_, _) =>
    case Touch(_, _) =>
    case Expire(_) =>
  }

  lemma {:induction false} AlwaysCommAddressed(evs: seq<Event>, exclusiveHih: bool)
    requires Run(evs, exclusiveHih).Some?
    ensures CommAddressed(Run(evs, exclusiveHih).value.commPins)
  {
    if evs != [] {
      var before := evs[..|evs| - 1];
      AlwaysCommAddressed(before, exclusiveHih);
      AlwaysConserved(before, exclusiveHih);
      ApplyKeepsAddressed(Run(before, exclusiveHih).value, evs[|evs| - 1], exclusiveHih);
    }
  }

  /** A backend with connections redirected to it calls out under their target address. */
  lemma CallsOutAsTarget(evs: seq<Event>, src: Source, p: Packet, now: int, x: nat)
    requires Run(evs, true).Some? && src.FromHih?
    requires var t := Run(evs, true).value;
             && Opened(t, src, p, true, now).Some? && Opened(t, src, p, true, now).value.kind.Outbound?
             && x in t.conns && t.conns[x].redirect.Some?
             && t.conns[x].redirect.value.ip == src.back.ip && t.conns[x].redirect.value.vlan == src.back.vlan
    ensures var t := Run(evs, true).value;
            Opened(t, src, p, true, now).value.snatIp == t.conns[x].dstIp
  {
    AlwaysTargetsPinned(evs);
  }

  /**
   * With neither a redirected connection nor an earlier call on the pin, it calls out under the default route's
   * address.
   */
  lemma CallsOutAsDefault(evs: seq<Event>, src: Source, p: Packet, now: int)
    requires Run(evs, true).Some? && src.FromHih?
    requires var t, k := Run(evs, true).value, PinKey(0, src.back.ip, src.back.vlan);
             && Opened(t, src, p, true, now).Some? && Opened(t, src, p, true, now).value.kind.Outbound?
             && Redirected(t.conns, k) == {} && Borrowed(evs, k) == 0
    ensures Opened(Run(evs, true).value, src, p, true, now).value.snatIp == src.target.defaultIp
  {
    AlwaysExact(evs, PinKey(0, src.back.ip, src.back.vlan));
  }

  /**
   * Where comm pins decide, for the low-interaction honeypot and for shared backends: a pin is found by the address
   * that is called, not by the address the caller was reached under. So the connection shows that very address if some
   * live connection was opened to it from outside, or shares its pin, and the default route's address otherwise.
   */
  lemma CommPinDecides(evs: seq<Event>, src: Source, p: Packet, exclusiveHih: bool, now: int)
    requires Run(evs, exclusiveHih).Some? && (src.FromLih? || (src.FromHih? && !exclusiveHih))
    requires var t := Run(evs, exclusiveHih).value;
             Opened(t, src, p, exclusiveHih, now).Some? && Opened(t, src, p, exclusiveHih, now).value.kind.Outbound?
    ensures var t := Run(evs, exclusiveHih).value;
            var k := PinKey(p.dstIp, src.target.front.ip, src.target.front.vlan);
            Opened(t, src, p, exclusiveHih, now).value.snatIp
            == if p.dstIp != 0 && Holders(t.conns, k, false) != {} then p.dstIp else src.target.defaultIp
  {
    var t := Run(evs, exclusiveHih).value;
    var k := PinKey(p.dstIp, src.target.front.ip, src.target.front.vlan);
    AlwaysCommAddressed(evs, exclusiveHih);
    AlwaysConserved(evs, exclusiveHih);
    if p.dstIp != 0 {
      assert Counted(t.commPins, t.conns, k, false);
    } else {
      assert k !in t.commPins;
    }
  }

  // ----- who opened a connection -----

  /** The connection carries the headers of its first packet, and the source's handler at its inner end. */
  predicate Carries(c: Conn, src: Source, p: Packet) {
    && c.protocol == p.protocol && c.srcIp == p.srcIp && c.srcPort == p.srcPort
    && c.dstIp == p.dstIp && c.dstPort == p.dstPort
    && c.inner == (if src.FromHih? then src.back else src.target.front)
  }

  /** Honeypots are not connected to one another: whom a source may call. */
  predicate MayCall(src: Source, dstIp: U32) {
    match src
    case FromExt(_) => true
    case FromLih(t) => dstIp !in t.intras && dstIp !in t.backIps
    case FromHih(t, _) => dstIp in t.intras || (dstIp != t.front.ip && dstIp !in t.backIps)
  }

  /** What each kind of connection leads to. */
  predicate LeadsTo(c: Conn, src: Source) {
    match c.kind
    case Inbound => src.FromExt? && c.peer.None?
    case Outbound => !src.FromExt? && c.dstIp !in src.target.intras && c.peer.None?
    case Internal => src.FromHih? && c.dstIp in src.target.intras && c.peer == Some(src.target.intras[c.dstIp])
  }

  /** The event opened this connection. */
  predicate OpenedBy(c: Conn, ev: Event) {
    && ev.Open? && Carries(c, ev.src, ev.p) && LeadsTo(c, ev.src) && MayCall(ev.src, ev.p.dstIp)
    && (ev.p.protocol == 6 ==> ev.p.syn) && SourceFits(ev.src, ev.p)
  }

  lemma MadeIsOpenedBy(t: Table, src: Source, p: Packet, exclusiveHih: bool, now: int)
    requires Possible(t, Open(src, p, now)) && Opened(t, src, p, exclusiveHih, now).Some?
    ensures OpenedBy(Opened(t, src, p, exclusiveHih, now).value, Open(src, p, now))
  {
  }

  /** What an event changes of a connection it did not open: redirection and access time. */
  lemma IdentityStays(t: Table, ev: Event, exclusiveHih: bool, id: nat)
    requires Possible(t, ev) && Numbered(t.conns, t.lastId) && id in Apply(t, ev, exclusiveHih).conns
    ensures id in t.conns ==>
            var c, d := t.conns[id], Apply(t, ev, exclusiveHih).conns[id];
            d == c.(redirect := d.redirect, targetPin := d.targetPin, accessTime := d.accessTime)
    ensures id !in t.conns ==>
            ev.Open? && id == t.lastId + 1
              && Opened(t, ev.src, ev.p, exclusiveHih, ev.now) == Some(Apply(t, ev, exclusiveHih).conns[id])
  {
    if ev.Open? {
      CreatedParts(t, ev.src, ev.p, exclusiveHih, ev.now);
    }
  }

  /**
   * Every live connection of every run was opened by one of its events, on a SYN if TCP, and from no honeypot to
   * another.
   */
  lemma {:induction false} Opener(evs: seq<Event>, exclusiveHih: bool, id: nat) returns (i: nat)
    requires Run(evs, exclusiveHih).Some? && id in Run(evs, exclusiveHih).value.conns
    ensures i < |evs| && OpenedBy(Run(evs, exclusiveHih).value.conns[id], evs[i])
  {
    var n := |evs| - 1;
    var t := Run(evs[..n], exclusiveHih).value;
    AlwaysFormed(evs[..n], exclusiveHih);
    IdentityStays(t, evs[n], exclusiveHih, id);
    if id in t.conns {
      i := Opener(evs[..n], exclusiveHih, id);
      assert evs[..n][i] == evs[i];
    } else {
      i := n;
      MadeIsOpenedBy(t, evs[n].src, evs[n].p, exclusiveHih, evs[n].now);
    }
  }

  /**
   * When a packet of no known connection opens one, over every run: not a TCP packet without SYN, not from honeypot to
   * honeypot, and not to an exclusive internal handler while the same address is connected to another target through
   * it.
   */
  lemma OpensIff(evs: seq<Event>, src: Source, p: Packet, exclusiveHih: bool, now: int)
    requires Run(evs, exclusiveHih).Some?
    ensures var t := Run(evs, exclusiveHih).value;
            Create(t, src, p, exclusiveHih, now).1.Some? <==>
            && (p.protocol == 6 ==> p.syn)
            && MayCall(src, p.dstIp)
            && (src.FromHih? && p.dstIp in src.target.intras && src.target.intras[p.dstIp].exclusive ==>
                var h := src.target.intras[p.dstIp];
                forall x | x in Holders(t.conns, PinKey(p.srcIp, h.ip, h.vlan), true) :: t.conns[x].dstIp == p.dstIp)
  {
    var t := Run(evs, exclusiveHih).value;
    if src.FromHih? && p.dstIp in src.target.intras {
      IntraFreeIff(evs, p, src.target.intras[p.dstIp], exclusiveHih);
    }
  }

  lemma IntraFreeIff(evs: seq<Event>, p: Packet, h: Handler, exclusiveHih: bool)
    requires Run(evs, exclusiveHih).Some?
    ensures var t := Run(evs, exclusiveHih).value;
            IntraFree(t, p, h) <==>
            (h.exclusive ==>
             forall x | x in Holders(t.conns, PinKey(p.srcIp, h.ip, h.vlan), true) :: t.conns[x].dstIp == p.dstIp)
  {
    var t, k := Run(evs, exclusiveHih).value, PinKey(p.srcIp, h.ip, h.vlan);
    AlwaysConserved(evs, exclusiveHih);
    AlwaysIntrasPinned(evs, exclusiveHih);
    assert Counted(t.intraPins, t.conns, k, true);
    if k in t.intraPins && Holders(t.conns, k, true) != {} {
      var x :| x in Holders(t.conns, k, true);
      assert t.intraPins[k].ip == t.conns[x].dstIp;
    }
  }

  /**
   * When an exclusive backend is refused to a connection: it serves another target address, or calls are left from one.
   */
  lemma RefusedIff(evs: seq<Event>, id: nat, back: Handler)
    requires Run(evs, true).Some? && id in Run(evs, true).value.conns
    ensures var t, k := Run(evs, true).value, PinKey(0, back.ip, back.vlan);
            && (forall x | x in Redirected(t.conns, k) :: Refused(t, t.conns[id], back, true) <==>
                t.conns[x].dstIp != t.conns[id].dstIp)
            && (Redirected(t.conns, k) == {} && Borrowed(evs, k) == 0 ==> !Refused(t, t.conns[id], back, true))
  {
    var t, k := Run(evs, true).value, PinKey(0, back.ip, back.vlan);
    AlwaysTargetsPinned(evs);
    AlwaysFormed(evs, true);
    AlwaysExact(evs, k);
  }

  // ----- the packets of a connection -----

  predicate Headers(p: Packet, c: Conn, srcIp: U32, srcPort: U16, dstIp: U32, dstPort: U16, vlan: U12) {
    && p.protocol == c.protocol && p.vlan == vlan
    && p.srcIp == srcIp && p.srcPort == srcPort && p.dstIp == dstIp && p.dstPort == dstPort
  }

  /** A packet of the side that began the connection, as it arrives. */
  predicate FromInitiator(c: Conn, p: Packet) {
    && p.uplink == c.kind.Inbound?
    && Headers(p, c, c.srcIp, c.srcPort, c.dstIp, c.dstPort, if c.kind.Inbound? then 0 else c.inner.vlan)
  }

  /** An answer to it: of a handler of an inside address, or from outside to the address the connection shows. */
  predicate FromResponder(c: Conn, p: Packet) {
    match c.kind
    case Inbound =>
      !p.uplink && (AnswerOf(c, c.inner, p) || (c.redirect.Some? && AnswerOf(c, c.redirect.value, p)))
    case Outbound => p.uplink && Headers(p, c, c.dstIp, c.dstPort, c.snatIp, c.srcPort, 0)
    case Internal => !p.uplink && c.peer.Some? && AnswerOf(c, c.peer.value, p)
  }

  predicate AnswerOf(c: Conn, h: Handler, p: Packet) {
    Headers(p, c, h.ip, c.dstPort, c.srcIp, c.srcPort, h.vlan)
  }

  lemma OwnsIffOwn(conns: map<nat, Conn>, p: Packet, id: nat)
    requires id in conns && Formed(conns[id])
    ensures (exists tree | tree in Order(p) :: Owns(conns, (tree, PacketKey(p)), id)) <==>
            FromInitiator(conns[id], p) || FromResponder(conns[id], p)
  {
    var c := conns[id];
    var k := PacketKey(p);
    match c.kind {
      case Inbound =>
        assert Owns(conns, (Ext1, k), id) <==> k == OuterKey(c);
        assert Owns(conns, (Ext2, k), id) <==>
               k == IntKey(c) || (c.redirect.Some? && k == ReplyKey(c, c.redirect.value));
        assert forall tree | tree != Ext1 && tree != Ext2 :: !Owns(conns, (tree, k), id);
      case Outbound =>
        assert Owns(conns, (Int1, k), id) <==> k == IntKey(c);
        assert Owns(conns, (Int2, k), id) <==> k == OuterKey(c);
        assert forall tree | tree != Int1 && tree != Int2 :: !Owns(conns, (tree, k), id);
      case Internal =>
        assert Owns(conns, (Intra1, k), id) <==> k == IntKey(c);
        assert Owns(conns, (Intra2, k), id) <==> k == OuterKey(c);
        assert forall tree | tree != Intra1 && tree != Intra2 :: !Owns(conns, (tree, k), id);
    }
  }

  /** A packet is only ever taken for one of a connection it belongs to by its headers. */
  lemma FoundIsOwn(t: Table, p: Packet, id: nat)
    requires Indexed(t) && AllFormed(t.conns) && Lookup(t, p) == Some(id)
    ensures id in t.conns && (FromInitiator(t.conns[id], p) || FromResponder(t.conns[id], p))
  {
    LookupIsSearch(t, p, id);
    var i :| 0 <= i < |Order(p)| && Owns(t.conns, (Order(p)[i], PacketKey(p)), id);
    OwnsIffOwn(t.conns, p, id);
  }

  /** Every packet that belongs to a live connection by its headers finds it, if it belongs to no other. */
  lemma OwnIsFound(t: Table, p: Packet, id: nat)
    requires Indexed(t) && AllFormed(t.conns) && id in t.conns
    requires FromInitiator(t.conns[id], p) || FromResponder(t.conns[id], p)
    requires forall x | x in t.conns && x != id :: !FromInitiator(t.conns[x], p) && !FromResponder(t.conns[x], p)
    ensures Lookup(t, p) == Some(id)
  {
    OwnsIffOwn(t.conns, p, id);
    forall tree, x | tree in Order(p) && Owns(t.conns, (tree, PacketKey(p)), x) ensures x == id {
      if x != id {
        OwnsIffOwn(t.conns, p, x);
      }
    }
    var tree :| tree in Order(p) && Owns(t.conns, (tree, PacketKey(p)), id);
    FirstFound(t, p, Order(p), id, tree);
  }

  lemma {:induction false} FirstFound(t: Table, p: Packet, order: seq<Tree>, id: nat, tree: Tree)
    requires Index(t.trees, t.conns) && tree in order && Owns(t.conns, (tree, PacketKey(p)), id)
    requires forall other, x | other in order && Owns(t.conns, (other, PacketKey(p)), x) :: x == id
    ensures Find(t.trees, order, PacketKey(p)) == Some(id)
    decreases |order|
  {
    var s := (order[0], PacketKey(p));
    if s in t.trees {
      assert Holds(t.trees, s, t.trees[s]);
      assert Owns(t.conns, s, t.trees[s]);
    } else {
      assert Holds(t.trees, (tree, PacketKey(p)), id);
      FirstFound(t, p, order[1..], id, tree);
    }
  }

  /** An attacker's connection comes before one of the same headers that a honeypot began. */
  lemma InboundFirst(t: Table, p: Packet, id: nat)
    requires Indexed(t) && AllFormed(t.conns) && id in t.conns && t.conns[id].kind.Inbound?
    requires FromInitiator(t.conns[id], p) || FromResponder(t.conns[id], p)
    ensures Lookup(t, p) == Some(id)
  {
    var s := (if p.uplink then Ext1 else Ext2, PacketKey(p));
    assert Owns(t.conns, s, id);
    assert Holds(t.trees, s, id);
  }

  // ----- the time of the last packet -----

  /** When the connection was last opened or touched by an event of the run. */
  function LastSeen(evs: seq<Event>, exclusiveHih: bool, id: nat): Option<int>
    requires Run(evs, exclusiveHih).Some?
  {
    if evs == [] then None
    else
      var t, ev := Run(evs[..|evs| - 1], exclusiveHih).value, evs[|evs| - 1];
      match ev
      case Open(src, p, now) =>
        if id == t.lastId + 1 then Some(now) else LastSeen(evs[..|evs| - 1], exclusiveHih, id)
      case Touch(x, now) => if x == id then Some(now) else LastSeen(evs[..|evs| - 1], exclusiveHih, id)
      case _ => LastSeen(evs[..|evs| - 1], exclusiveHih, id)
  }

  /** The access time of every live connection of every run is the time of its last packet. */
  lemma {:induction false} AccessIsLastSeen(evs: seq<Event>, exclusiveHih: bool, id: nat)
    requires Run(evs, exclusiveHih).Some? && id in Run(evs, exclusiveHih).value.conns
    ensures LastSeen(evs, exclusiveHih, id) == Some(Run(evs, exclusiveHih).value.conns[id].accessTime)
  {
    var n := |evs| - 1;
    var t := Run(evs[..n], exclusiveHih).value;
    AlwaysFormed(evs[..n], exclusiveHih);
    IdentityStays(t, evs[n], exclusiveHih, id);
    if id in t.conns {
      AccessIsLastSeen(evs[..n], exclusiveHih, id);
    }
    if evs[n].Open? {
      CreatedParts(t, evs[n].src, evs[n].p, exclusiveHih, evs[n].now);
    }
  }

  /** So the cleaner collects a connection iff more than the delay has passed since its last packet, in every run. */
  lemma CollectedIff(evs: seq<Event>, exclusiveHih: bool, id: nat, now: int, delay: int)
    requires Run(evs, exclusiveHih).Some? && id in Run(evs, exclusiveHih).value.conns
    ensures LastSeen(evs, exclusiveHih, id).Some?
    ensures Tracker.Expired(Run(evs, exclusiveHih).value.conns[id], now, delay) <==>
            LastSeen(evs, exclusiveHih, id).value + delay < now
  {
    AccessIsLastSeen(evs, exclusiveHih, id);
  }
}

/** Laws of connection tracking that relate several of its operations. */
module TrackingLaws {
  import opened Words
  import opened Keys
  import opened Tracking
  import opened TrackingRuns
  import opened TargetPins
  import opened IntraPins

  // ----- when entries collide -----

  /** The entry a connection's replies are found under, as opposed to the one its own packets are. */
  function ReplySlot(c: Conn): Slot {
    match c.kind
    case Inbound => (Ext2, IntKey(c))
    case Outbound => (Int2, OuterKey(c))
    case Internal => (Intra2, OuterKey(c))
  }

  function OwnSlot(c: Conn): Slot {
    match c.kind
    case Inbound => (Ext1, OuterKey(c))
    case Outbound => (Int1, IntKey(c))
    case Internal => (Intra1, IntKey(c))
  }

  lemma MissedEverywhere(trees: map<Slot, nat>, order: seq<Tree>, k: ConnKey, i: nat)
    requires i < |order| && Find(trees, order, k).None?
    ensures (order[i], k) !in trees
    decreases i
  {
    if i > 0 {
      MissedEverywhere(trees, order[1..], k, i - 1);
    }
  }

  /**
   * The search for a low-interaction honeypot does not look at the VLAN, so its packet may carry another tag than its
   * key will.
   */
  predicate Mistagged(src: Source, p: Packet) {
    src.FromLih? && p.vlan != src.target.front.vlan
  }

  /**
   * After a failed lookup a connection's own entry is free, unless a low-interaction honeypot's packet came with
   * another VLAN tag; otherwise only its reply entry can be another's.
   */
  lemma ClashIsOnReply(t: Table, src: Source, p: Packet, exclusiveHih: bool, now: int)
    requires Indexed(t) && SourceFits(src, p) && Lookup(t, p).None?
    requires Opened(t, src, p, exclusiveHih, now).Some?
    ensures var c := Opened(t, src, p, exclusiveHih, now).value;
            NoClash(t.trees, c) <==> forall x | x in t.conns ::
              ReplySlot(c) !in Slots(t.conns[x]) && (Mistagged(src, p) ==> OwnSlot(c) !in Slots(t.conns[x]))
  {
    var c := Opened(t, src, p, exclusiveHih, now).value;
    OwnEntryFree(t, src, p, exclusiveHih, now);
    assert Slots(c) == [OwnSlot(c), ReplySlot(c)];
    TakenIff(t, ReplySlot(c));
    TakenIff(t, OwnSlot(c));
  }

  lemma TakenIff(t: Table, s: Slot)
    requires Indexed(t)
    ensures s in t.trees <==> exists x :: x in t.conns && s in Slots(t.conns[x])
  {
    if s in t.trees {
      assert Holds(t.trees, s, t.trees[s]) && Owns(t.conns, s, t.trees[s]);
    }
    forall x | x in t.conns && s in Slots(t.conns[x]) ensures s in t.trees {
      assert Owns(t.conns, s, x) && Holds(t.trees, s, x);
    }
  }

  lemma OwnEntryFree(t: Table, src: Source, p: Packet, exclusiveHih: bool, now: int)
    requires SourceFits(src, p) && Lookup(t, p).None? && Opened(t, src, p, exclusiveHih, now).Some?
    ensures var c := Opened(t, src, p, exclusiveHih, now).value;
            (Mistagged(src, p) || OwnSlot(c) !in t.trees) && Slots(c) == [OwnSlot(c), ReplySlot(c)]
  {
    var c := Opened(t, src, p, exclusiveHih, now).value;
    if !Mistagged(src, p) {
      match c.kind {
        case Inbound =>
          assert OwnSlot(c) == (Order(p)[0], PacketKey(p));
          MissedEverywhere(t.trees, Order(p), PacketKey(p), 0);
        case Outbound =>
          assert OwnSlot(c) == (Order(p)[1], PacketKey(p));
          MissedEverywhere(t.trees, Order(p), PacketKey(p), 1);
        case Internal =>
          assert OwnSlot(c) == (Order(p)[2], PacketKey(p));
          MissedEverywhere(t.trees, Order(p), PacketKey(p), 2);
      }
    }
  }

  /**
   * An attacker's new connection collides exactly with a live one of the same attacker address and ports,
   * served by a handler of the same address and VLAN; the two then differ only in the target address.
   */
  lemma InboundClash(t: Table, tg: Target, p: Packet, exclusiveHih: bool, now: int, x: nat)
    requires Indexed(t) && SourceFits(FromExt(tg), p) && Lookup(t, p).None? && x in t.conns
    requires Opened(t, FromExt(tg), p, exclusiveHih, now).Some?
    ensures var c := Opened(t, FromExt(tg), p, exclusiveHih, now).value;
            var d := t.conns[x];
            ReplySlot(c) in Slots(d) <==>
            && d.kind.Inbound?
            && (d.protocol, d.srcIp, d.srcPort, d.dstPort) == (c.protocol, c.srcIp, c.srcPort, c.dstPort)
            && (SameSpot(d.inner, c.inner) || (d.redirect.Some? && SameSpot(d.redirect.value, c.inner)))
            && d.dstIp != c.dstIp
  {
    var c, d := Opened(t, FromExt(tg), p, exclusiveHih, now).value, t.conns[x];
    OwnEntryFree(t, FromExt(tg), p, exclusiveHih, now);
    AllFiled(t, x);
    assert OwnSlot(c) !in Slots(d);
  }

  lemma AllFiled(t: Table, x: nat)
    requires Indexed(t) && x in t.conns
    ensures forall s | s in Slots(t.conns[x]) :: s in t.trees
  {
    forall s | s in Slots(t.conns[x]) ensures s in t.trees {
      assert Owns(t.conns, s, x) && Holds(t.trees, s, x);
    }
  }

  predicate SameSpot(h: Handler, i: Handler) {
    h.ip == i.ip && h.vlan == i.vlan
  }

  // ----- flow affinity -----

  /** `IP2QUEUEID`: the last octet of the outer address, modulo the number of decision threads. */
  function QueueId(p: Packet, threads: nat): nat
    requires threads > 0
  {
    (if p.uplink then p.srcIp else p.dstIp) / 0x100_0000 % threads
  }

  /** The address outside the honeynet that a connection talks to. */
  function RemoteIp(c: Conn): U32 {
    if c.kind.Inbound? then c.srcIp else c.dstIp
  }

  /** Every packet resolved to a connection that faces outside lands in the one queue of its remote address. */
  lemma FlowAffinity(t: Table, p: Packet, id: nat, threads: nat)
    requires Indexed(t) && Lookup(t, p) == Some(id) && threads > 0 && id in t.conns
    requires !t.conns[id].kind.Internal?
    ensures QueueId(p, threads) == RemoteIp(t.conns[id]) / 0x100_0000 % threads
  {
    LookupIsSearch(t, p, id);
    var i :| 0 <= i < |Order(p)| && Owns(t.conns, (Order(p)[i], PacketKey(p)), id);
    if p.uplink {
      assert Order(p)[i] == Ext1 || Order(p)[i] == Int2;
    } else {
      assert Order(p)[i] == Ext2 || Order(p)[i] == Int1;
    }
  }

  /** The label `conn_lookup` puts on an inside packet of an Inbound connection, whose front handler is `inner`. */
  predicate LabelledLih(c: Conn, p: Packet) {
    p.iface == c.inner.iface && p.srcIp == c.inner.ip && p.vlan == c.inner.vlan
  }

  /**
   * Before redirection, a packet from inside is taken for the high-interaction honeypot's iff it came in on a foreign
   * interface.
   */
  lemma EarlyLabel(t: Table, p: Packet, id: nat)
    requires Indexed(t) && Lookup(t, p) == Some(id) && id in t.conns && !p.uplink
    requires t.conns[id].kind.Inbound? && t.conns[id].redirect.None?
    ensures !LabelledLih(t.conns[id], p) <==> p.iface != t.conns[id].inner.iface
  {
    LookupIsSearch(t, p, id);
    var i :| 0 <= i < |Order(p)| && Owns(t.conns, (Order(p)[i], PacketKey(p)), id);
    assert Order(p)[i] == Ext2;
  }

  /**
   * After redirection a packet from inside is a reply of the front handler or of the backend, by its key. It is taken
   * for the low-interaction honeypot's iff it has the front handler's key and came in on that handler's interface.
   */
  lemma LateLabel(t: Table, p: Packet, id: nat, back: Handler)
    requires Indexed(t) && Lookup(t, p) == Some(id) && id in t.conns && !p.uplink
    requires t.conns[id].kind.Inbound? && t.conns[id].redirect == Some(back)
    ensures var c := t.conns[id];
            && (PacketKey(p) == IntKey(c) || PacketKey(p) == ReplyKey(c, back))
            && (LabelledLih(c, p) <==> PacketKey(p) == IntKey(c) && p.iface == c.inner.iface)
  {
    var c := t.conns[id];
    LookupIsSearch(t, p, id);
    var i :| 0 <= i < |Order(p)| && Owns(t.conns, (Order(p)[i], PacketKey(p)), id);
    assert Slots(c) == [(Ext1, OuterKey(c)), (Ext2, IntKey(c)), (Ext2, ReplyKey(c, back))];
    assert Order(p)[i] == Ext2;
  }

  /**
   * So a reply of the backend passes for the low-interaction honeypot's iff the backend shares its address, VLAN and
   * interface.
   */
  lemma BackendLabel(t: Table, p: Packet, id: nat, back: Handler)
    requires Indexed(t) && Lookup(t, p) == Some(id) && id in t.conns && !p.uplink
    requires t.conns[id].kind.Inbound? && t.conns[id].redirect == Some(back)
    requires PacketKey(p) == ReplyKey(t.conns[id], back) && p.iface == back.iface
    ensures LabelledLih(t.conns[id], p) <==> SameSpot(back, t.conns[id].inner) && back.iface == t.conns[id].inner.iface
  {
    LateLabel(t, p, id, back);
  }

  // ----- removing a redirected connection -----

  /** Filing a redirect key and unfiling the whole connection is the same as unfiling it without the redirect. */
  lemma UnfileRedirected(trees: map<Slot, nat>, conns: map<nat, Conn>, id: nat, added: Slot)
    requires Index(trees, conns) && id in conns && (added in trees ==> trees[added] == id)
    ensures Unfile(File(trees, [added], id), Slots(conns[id]) + [added]) == Unfile(trees, Slots(conns[id]))
  {
    var slots := Slots(conns[id]);
    FileEntries(trees, [added], id);
    UnfileEntries(File(trees, [added], id), slots + [added]);
    UnfileEntries(trees, slots);
    if added in trees {
      assert Holds(trees, added, id);
      assert Owns(conns, added, id);
    }
  }

  /**
   * Taking a target pin and giving it back under another key: a pin that was new has been freed, its entry has not
   * gone.
   */
  lemma HoldThenRelease(pins: map<PinKey, Pin>, freed: set<PinKey>, k: PinKey, ip: U32, founder: nat, under: PinKey)
    requires under != k && under !in pins && under !in freed && Positive(pins)
    ensures LeftPins(Hold(pins, k, ip, founder), Some(k), Some(under)) == pins
    ensures LeftFreed(Hold(pins, k, ip, founder), freed, Some(k), Some(under))
            == if k in pins then freed else freed + {k}
  {
    if k in pins {
      assert pins[k := pins[k]] == pins;
    } else {
      assert pins[k := Pin(ip, 1, founder)] - {k} - {under} == pins;
    }
  }

  /**
   * Removing a redirected connection does to trees, connections and pins what removing it before the redirection would
   * have done; but if it was the first to take the target pin, the tree keeps an entry whose pin and key have been
   * freed.
   */
  lemma RemoveAfterRedirect(t: Table, id: nat, back: Handler, exclusiveHih: bool)
    requires Indexed(t) && Possible(t, Divert(id, back)) && Apart(t, Divert(id, back), exclusiveHih)
    requires Formed(t.conns[id]) && !Refused(t, t.conns[id], back, exclusiveHih) && Positive(t.targetPins)
    requires forall k | k in t.targetPins || k in t.freed :: k.targetIp == 0
    ensures Remove(Redirect(t, id, back, exclusiveHih).0, id)
            == Remove(t, id).(freed := if exclusiveHih && TargetPinKey(back) !in t.targetPins
                                       then t.freed + {TargetPinKey(back)} else t.freed)
  {
    var c, added := t.conns[id], (Ext2, ReplyKey(t.conns[id], back));
    var r := Redirect(t, id, back, exclusiveHih).0;
    assert Slots(r.conns[id]) == Slots(c) + [added];
    UnfileRedirected(t.trees, t.conns, id, added);
    assert r.conns - {id} == t.conns - {id};
    HoldThenRelease(t.targetPins, t.freed, TargetPinKey(back), c.dstIp, 0, c.pinKey.value);
  }

  /**
   * In every run whose events do not collide, removing what was just opened restores the table, up to the ID counter,
   * iff it took no target pin and made no internal pin; and then the removal is defined.
   */
  lemma UndoneInRuns(evs: seq<Event>, src: Source, p: Packet, exclusiveHih: bool, now: int)
    requires Run(evs, exclusiveHih).Some? && ApartRun(evs, exclusiveHih)
    requires var t := Run(evs, exclusiveHih).value;
             && Possible(t, Open(src, p, now)) && Defined(t, Open(src, p, now), exclusiveHih)
                && Apart(t, Open(src, p, now), exclusiveHih)
             && Create(t, src, p, exclusiveHih, now).1.Some?
    ensures var t := Run(evs, exclusiveHih).value;
            var (t', id) := Create(t, src, p, exclusiveHih, now);
            var c := t'.conns[id.value];
            && (Remove(t', id.value) == t.(lastId := t.lastId + 1) <==> !Leaks(src, c, exclusiveHih) && !Founds(t, c))
            && (FreesShared(t', Expire(id.value)) <==> Founds(t, c))
  {
    AlwaysConserved(evs, exclusiveHih);
    AlwaysFormed(evs, exclusiveHih);
    AlwaysFounded(evs, exclusiveHih);
    var t := Run(evs, exclusiveHih).value;
    CountsArePositive(t.commPins, t.conns, false, !exclusiveHih);
    CountsArePositive(t.intraPins, t.conns, true, true);
    NextIdUnused(t);
    RemoveUndoesCreateIff(t, src, p, exclusiveHih, now);
    FounderIffFounds(t, src, p, Opened(t, src, p, exclusiveHih, now).value, exclusiveHih);
  }

  lemma NextIdUnused(t: Table)
    requires WellFounded(t) && Numbered(t.conns, t.lastId)
    ensures Unused(t, t.lastId + 1)
  {
    forall k | k in t.intraPins ensures t.intraPins[k].founder != t.lastId + 1 {
      assert t.intraPins[k].founder in Holders(t.conns, k, true);
    }
  }

  lemma CountsArePositive(pins: map<PinKey, Pin>, conns: map<nat, Conn>, internal: bool, zero: bool)
    requires Conserved(pins, conns, internal, zero) && (zero || Targeted(pins))
    ensures Positive(pins)
  {
    forall k | k in pins ensures 0 < pins[k].count {
      assert Counted(pins, conns, k, internal);
      assert |Holders(conns, k, internal)| != 0;
    }
  }

  /**
   * The consequence for the plainest history: one redirection to an exclusive backend and its expiry, and from then on
   * every redirection to that backend, in every run, reads freed memory.
   */
  lemma SecondRedirectReadsFreed(tg: Target, back: Handler, p: Packet, evs: seq<Event>, id: nat)
    requires Run(evs, true).Some? && |evs| >= 3
    requires evs[0] == Open(FromExt(tg), p, 0) && evs[1] == Divert(1, back) && evs[2] == Expire(1)
    requires Possible(Run(evs, true).value, Divert(id, back))
    ensures ReadsFreed(Run(evs, true).value, Divert(id, back), true)
  {
    var k := TargetPinKey(back);
    PrefixRuns(evs, 1, true);
    PrefixRuns(evs, 2, true);
    PrefixRuns(evs, 3, true);
    assert evs[..1][..0] == [] && evs[..2][..1] == evs[..1] && evs[..3][..2] == evs[..2];
    var t1, t2 := Run(evs[..1], true).value, Run(evs[..2], true).value;
    assert t1 == Create(Empty(), FromExt(tg), p, true, 0).0;
    assert t2 == Redirect(t1, 1, back, true).0;
    assert t2.targetPins == map[k := Pin(p.dstIp, 1, 0)];
    assert k in Run(evs[..3], true).value.freed;
    assert evs[..3] + evs[3..] == evs;
    FreedForGood(evs[..3], evs[3..], k);
  }
}

/** Whole runs of connection tracking: what holds in every table the gateway can reach. */
module TrackingRuns {
  import opened Words
  import opened Keys
  import opened Tracking

  datatype Event =
    | Open(src: Source, p: Packet, now: int)
    | Divert(id: nat, back: Handler)
    | Touch(id: nat, now: int)
    | Expire(id: nat)

  function Apply(t: Table, ev: Event, exclusiveHih: bool): Table
    requires Possible(t, ev)
  {
    match ev
    case Open(src, p, now) => Create(t, src, p, exclusiveHih, now).0
    case Divert(id, back) => Redirect(t, id, back, exclusiveHih).0
    case Touch(id, now) => Update(t, id, now)
    case Expire(id) => Remove(t, id)
  }

  /**
   * What the callers guarantee: a connection is only opened for a packet no connection was found for, only
   * live connections are touched, and only an Inbound one is redirected, once. Attackers do not write to 0.0.0.0.
   */
  predicate Possible(t: Table, ev: Event) {
    match ev
    case Open(src, p, _) => SourceFits(src, p) && Lookup(t, p).None? && (src.FromExt? ==> p.dstIp != 0)
    case Divert(id, _) => id in t.conns && t.conns[id].kind.Inbound? && t.conns[id].redirect.None?
    case Touch(id, _) => id in t.conns
    case Expire(id) => id in t.conns
  }

  /** The event does not file a connection under an entry another one occupies. */
  predicate Apart(t: Table, ev: Event, exclusiveHih: bool)
    requires Possible(t, ev)
  {
    match ev
    case Open(src, p, now) =>
      var c := Opened(t, src, p, exclusiveHih, now);
      c.Some? ==> NoClash(t.trees, c.value)
    case Divert(id, back) =>
      var s := (Ext2, ReplyKey(t.conns[id], back));
      s in t.trees ==> t.trees[s] == id
    case _ => true
  }

  /** The key an event looks up in the target pin tree, if it searches that tree. */
  function TargetSearch(t: Table, ev: Event, exclusiveHih: bool): Option<PinKey>
    requires Possible(t, ev)
  {
    match ev
    case Open(src, p, now) =>
      if exclusiveHih && src.FromHih? && KindOf(src, p).Outbound? && Admitted(t, src, p)
         then Some(SnatPin(src, p, true)) else None
    case Divert(id, back) => if exclusiveHih then Some(TargetPinKey(back)) else None
    case Touch(id, now) => None
    case Expire(id) => t.conns[id].targetPin
  }

  /** The event finds a pin that has been freed; what happens then is not defined. */
  predicate ReadsFreed(t: Table, ev: Event, exclusiveHih: bool)
    requires Possible(t, ev)
  {
    TargetSearch(t, ev, exclusiveHih).Some? && TargetSearch(t, ev, exclusiveHih).value in t.freed
  }

  /**
   * The event removes the connection whose own key the internal pin tree holds. If it was the last holder, the key has
   * been freed with the pin already; if not, the tree goes on with a freed key. Either way what happens then is not
   * defined.
   */
  predicate FreesShared(t: Table, ev: Event)
    requires Possible(t, ev)
  {
    ev.Expire? && IsFounder(t.intraPins, ev.id, t.conns[ev.id])
  }

  /** No memory that has been freed is read or freed again. */
  predicate Defined(t: Table, ev: Event, exclusiveHih: bool)
    requires Possible(t, ev)
  {
    !ReadsFreed(t, ev, exclusiveHih) && !FreesShared(t, ev)
  }

  /** The table after a run, or none if some event was not possible or its outcome not defined. */
  function Run(evs: seq<Event>, exclusiveHih: bool): Option<Table> {
    if evs == [] then Some(Empty())
    else
      var before, ev := Run(evs[..|evs| - 1], exclusiveHih), evs[|evs| - 1];
      if before.Some? && Possible(before.value, ev) && Defined(before.value, ev, exclusiveHih)
      then Some(Apply(before.value, ev, exclusiveHih)) else None
  }

  lemma {:induction false} PrefixRuns(evs: seq<Event>, n: nat, exclusiveHih: bool)
    requires n <= |evs| && Run(evs, exclusiveHih).Some?
    ensures Run(evs[..n], exclusiveHih).Some?
    decreases |evs|
  {
    if n < |evs| {
      assert evs[..|evs| - 1][..n] == evs[..n];
      PrefixRuns(evs[..|evs| - 1], n, exclusiveHih);
    } else {
      assert evs[..n] == evs;
    }
  }

  /** Every event of the run was apart from what was filed before. */
  ghost predicate ApartRun(evs: seq<Event>, exclusiveHih: bool)
    requires Run(evs, exclusiveHih).Some?
  {
    evs == [] || (ApartRun(evs[..|evs| - 1], exclusiveHih)
                  && Apart(Run(evs[..|evs| - 1], exclusiveHih).value, evs[|evs| - 1], exclusiveHih))
  }

  /**
   * In every reachable table the trees are exactly the maps generated by the live connections, as long as no reply keys
   * coincide.
   */
  lemma {:induction false} AlwaysIndexed(evs: seq<Event>, exclusiveHih: bool)
    requires Run(evs, exclusiveHih).Some? && ApartRun(evs, exclusiveHih)
    ensures Indexed(Run(evs, exclusiveHih).value)
  {
    if evs != [] {
      AlwaysIndexed(evs[..|evs| - 1], exclusiveHih);
      var t := Run(evs[..|evs| - 1], exclusiveHih).value;
      match evs[|evs| - 1]
      case Open(src, p, now) => CreateKeepsIndexIff(t, src, p, exclusiveHih, now);
      case Divert(id, back) => RedirectKeepsIndexIff(t, id, back, exclusiveHih);
      case Touch(id, now) => UpdateKeepsIndex(t, id, now);
      case Expire(id) => RemoveKeepsIndex(t, id);
    }
  }

  /** Every entry leads to a live connection that files it. */
  ghost predicate Leads(trees: map<Slot, nat>, conns: map<nat, Conn>) {
    forall s, id | Holds(trees, s, id) :: Owns(conns, s, id)
  }

  lemma FilingLeads(trees: map<Slot, nat>, slots: seq<Slot>, id: nat, conns: map<nat, Conn>, c: Conn)
    requires Leads(trees, conns) && (forall s | s in slots :: s in Slots(c))
    requires id in conns ==> forall s | s in Slots(conns[id]) :: s in Slots(c)
    ensures Leads(File(trees, slots, id), conns[id := c])
  {
    FileEntries(trees, slots, id);
    var trees', conns' := File(trees, slots, id), conns[id := c];
    forall s, x | Holds(trees', s, x) ensures Owns(conns', s, x) {
      if s !in slots {
        assert Holds(trees, s, x) && Owns(conns, s, x);
      }
    }
  }

  lemma UnfilingLeads(trees: map<Slot, nat>, conns: map<nat, Conn>, id: nat)
    requires Leads(trees, conns) && id in conns
    ensures Leads(Unfile(trees, Slots(conns[id])), conns - {id})
  {
    UnfileEntries(trees, Slots(conns[id]));
    var trees', conns' := Unfile(trees, Slots(conns[id])), conns - {id};
    forall s, x | Holds(trees', s, x) ensures Owns(conns', s, x) {
      assert Holds(trees, s, x) && Owns(conns, s, x);
    }
  }

  lemma ApplyKeepsLeads(t: Table, ev: Event, exclusiveHih: bool)
    requires Leads(t.trees, t.conns) && Numbered(t.conns, t.lastId) && Possible(t, ev)
    ensures Leads(Apply(t, ev, exclusiveHih).trees, Apply(t, ev, exclusiveHih).conns)
  {
    match ev
    case Open(src, p, now) =>
      var made := Opened(t, src, p, exclusiveHih, now);
      if made.Some? {
        PinnedFrame(t, src, p, made.value, exclusiveHih);
        FilingLeads(t.trees, Slots(made.value), t.lastId + 1, t.conns, made.value);
      }
    case Divert(id, back) =>
      var (t', ok) := Redirect(t, id, back, exclusiveHih);
      if ok {
        FilingLeads(t.trees, [(Ext2, ReplyKey(t.conns[id], back))], id, t.conns, t'.conns[id]);
      }
    case Touch(id, now) =>
      var c := Update(t, id, now).conns[id];
      assert Slots(c) == Slots(t.conns[id]);
      FilingLeads(t.trees, [], id, t.conns, c);
    case Expire(id) => UnfilingLeads(t.trees, t.conns, id);
  }

  /**
   * Collisions or not: in every reachable table no entry leads to a connection that is gone, or to one that does not
   * file it.
   */
  lemma {:induction false} NoEntryDangles(evs: seq<Event>, exclusiveHih: bool)
    requires Run(evs, exclusiveHih).Some?
    ensures Leads(Run(evs, exclusiveHih).value.trees, Run(evs, exclusiveHih).value.conns)
  {
    if evs != [] {
      NoEntryDangles(evs[..|evs| - 1], exclusiveHih);
      AlwaysFormed(evs[..|evs| - 1], exclusiveHih);
      ApplyKeepsLeads(Run(evs[..|evs| - 1], exclusiveHih).value, evs[|evs| - 1], exclusiveHih);
    }
  }

  // ----- what every live connection looks like -----

  /** Facts about one connection's fields that hold from its creation on. */
  predicate Formed(c: Conn) {
    && (c.kind.Internal? <==> c.peer.Some?)
    && (c.redirect.Some? ==> c.kind.Inbound?)
    && (c.targetPin.Some? ==> c.redirect.Some? && c.targetPin == Some(TargetPinKey(c.redirect.value)))
    && (c.kind.Inbound? ==> c.dstIp != 0 && c.pinKey == Some(PinKey(c.dstIp, c.inner.ip, c.inner.vlan)))
    && (c.kind.Internal? ==> c.pinKey == if c.peer.value.exclusive
                                          then Some(PinKey(c.srcIp, c.peer.value.ip, c.peer.value.vlan)) else None)
  }

  ghost predicate AllFormed(conns: map<nat, Conn>) {
    forall id | id in conns :: Formed(conns[id])
  }

  lemma MadeIsFormed(t: Table, src: Source, p: Packet, exclusiveHih: bool, now: int)
    requires Possible(t, Open(src, p, now)) && Opened(t, src, p, exclusiveHih, now).Some?
    ensures Formed(Opened(t, src, p, exclusiveHih, now).value)
  {
  }

  lemma FormedWith(conns: map<nat, Conn>, id: nat, c: Conn)
    requires AllFormed(conns) && Formed(c)
    ensures AllFormed(conns[id := c])
  {
  }

  lemma OpenKeepsFormed(t: Table, src: Source, p: Packet, exclusiveHih: bool, now: int)
    requires AllFormed(t.conns) && Possible(t, Open(src, p, now))
    ensures AllFormed(Create(t, src, p, exclusiveHih, now).0.conns)
  {
    var made := Opened(t, src, p, exclusiveHih, now);
    if made.Some? {
      MadeIsFormed(t, src, p, exclusiveHih, now);
      FormedWith(t.conns, t.lastId + 1, made.value);
    }
  }

  lemma ApplyKeepsFormed(t: Table, ev: Event, exclusiveHih: bool)
    requires AllFormed(t.conns) && Possible(t, ev)
    ensures AllFormed(Apply(t, ev, exclusiveHih).conns)
  {
    match ev
    case Open(src, p, now) => OpenKeepsFormed(t, src, p, exclusiveHih, now);
    case Divert(id, back) => FormedWith(t.conns, id, Redirect(t, id, back, exclusiveHih).0.conns[id]);
    case Touch(id, now) => FormedWith(t.conns, id, Update(t, id, now).conns[id]);
    case Expire(id) =>
  }

  lemma ApplyKeepsNumbered(t: Table, ev: Event, exclusiveHih: bool)
    requires Numbered(t.conns, t.lastId) && Possible(t, ev)
    ensures Numbered(Apply(t, ev, exclusiveHih).conns, Apply(t, ev, exclusiveHih).lastId)
  {
    match ev
    case Open(src, p, now) => CreatedParts(t, src, p, exclusiveHih, now);
    case Divert(id, back) =>
    case Touch(id, now) =>
    case Expire(id) =>
  }

  /** A connection that is opened adds itself to the live ones, and its pin. */
  lemma CreatedParts(t: Table, src: Source, p: Packet, exclusiveHih: bool, now: int)
    ensures var made, t' := Opened(t, src, p, exclusiveHih, now), Create(t, src, p, exclusiveHih, now).0;
            && t.lastId <= t'.lastId <= t.lastId + 1
            && (made.None? ==> t'.conns == t.conns && t'.commPins == t.commPins && t'.intraPins == t.intraPins)
            && (made.Some? ==> var pinned := Pinned(t, src, p, made.value, exclusiveHih);
                               && t'.conns == t.conns[t.lastId + 1 := made.value] && t'.lastId == t.lastId + 1
                               && t'.commPins == pinned.commPins && t'.intraPins == pinned.intraPins)
  {
  }

  lemma {:induction false} AlwaysFormed(evs: seq<Event>, exclusiveHih: bool)
    requires Run(evs, exclusiveHih).Some?
    ensures AllFormed(Run(evs, exclusiveHih).value.conns)
            && Numbered(Run(evs, exclusiveHih).value.conns, Run(evs, exclusiveHih).value.lastId)
  {
    if evs != [] {
      AlwaysFormed(evs[..|evs| - 1], exclusiveHih);
      ApplyKeepsFormed(Run(evs[..|evs| - 1], exclusiveHih).value, evs[|evs| - 1], exclusiveHih);
      ApplyKeepsNumbered(Run(evs[..|evs| - 1], exclusiveHih).value, evs[|evs| - 1], exclusiveHih);
    }
  }

  // ----- pin counts -----

  /** The live connections that hold a reference on pin `k`, among the Internal ones or among the others. */
  function Holders(conns: map<nat, Conn>, k: PinKey, internal: bool): set<nat> {
    set id | id in conns && conns[id].kind.Internal? == internal && conns[id].pinKey == Some(k)
  }

  /**
   * Every pin's count is the number of its holders, and it is in the tree iff there is one; `zero` says whether keys
   * without a target address are meant too.
   */
  ghost predicate Conserved(pins: map<PinKey, Pin>, conns: map<nat, Conn>, internal: bool, zero: bool) {
    forall k: PinKey | zero || k.targetIp != 0 :: Counted(pins, conns, k, internal)
  }

  predicate Counted(pins: map<PinKey, Pin>, conns: map<nat, Conn>, k: PinKey, internal: bool) {
    && (k in pins <==> Holders(conns, k, internal) != {})
    && (k in pins ==> pins[k].count == |Holders(conns, k, internal)|)
  }

  /** Comm pins are made for target addresses only. */
  predicate Targeted(pins: map<PinKey, Pin>) {
    forall k | k in pins :: k.targetIp != 0
  }

  /** With exclusive backends an outgoing connection may hold a target pin, whose key has no target address. */
  ghost predicate PinsConserved(t: Table, exclusiveHih: bool) {
    && Conserved(t.commPins, t.conns, false, !exclusiveHih) && Targeted(t.commPins)
    && Conserved(t.intraPins, t.conns, true, true)
  }

  lemma HoldersAdd(conns: map<nat, Conn>, id: nat, c: Conn, k: PinKey, internal: bool)
    requires id !in conns
    ensures id !in Holders(conns, k, internal)
    ensures Holders(conns[id := c], k, internal)
            == if c.kind.Internal? == internal && c.pinKey == Some(k)
               then Holders(conns, k, internal) + {id} else Holders(conns, k, internal)
  {
    var with := conns[id := c];
    forall x
      ensures x in Holders(with, k, internal) <==>
              x in Holders(conns, k, internal) || (x == id && c.kind.Internal? == internal && c.pinKey == Some(k))
    {
    }
  }

  lemma HoldersDrop(conns: map<nat, Conn>, id: nat, k: PinKey, internal: bool)
    requires id in conns
    ensures Holders(conns - {id}, k, internal) == Holders(conns, k, internal) - {id}
    ensures id in Holders(conns, k, internal) <==> conns[id].kind.Internal? == internal && conns[id].pinKey == Some(k)
  {
  }

  lemma HoldersSame(conns: map<nat, Conn>, id: nat, c: Conn, k: PinKey, internal: bool)
    requires id in conns && c.kind == conns[id].kind && c.pinKey == conns[id].pinKey
    ensures Holders(conns[id := c], k, internal) == Holders(conns, k, internal)
  {
  }

  /** A new connection's reference: `Hold` or `Share` on its key, nothing without one. */
  lemma ConservedAdd(pins: map<PinKey, Pin>, pins': map<PinKey, Pin>, conns: map<nat, Conn>, id: nat, c: Conn,
                     internal: bool, zero: bool, ip: U32, founder: nat)
    requires Conserved(pins, conns, internal, zero) && id !in conns
    requires if c.kind.Internal? == internal && c.pinKey.Some? && (zero || c.pinKey.value.targetIp != 0)
             then pins' == Hold(pins, c.pinKey.value, ip, founder)
                  || (pins' == Share(pins, c.pinKey.value) && c.pinKey.value in pins)
             else pins' == pins
    ensures Conserved(pins', conns[id := c], internal, zero)
  {
    var conns' := conns[id := c];
    forall k: PinKey | zero || k.targetIp != 0 ensures Counted(pins', conns', k, internal) {
      assert Counted(pins, conns, k, internal);
      HoldersAdd(conns, id, c, k, internal);
    }
  }

  /** A pin's entry as the number of its holders says. */
  predicate CountedAs(pins: map<PinKey, Pin>, k: PinKey, holders: nat) {
    (k in pins <==> holders > 0) && (k in pins ==> pins[k].count == holders)
  }

  lemma CountedAsHolders(pins: map<PinKey, Pin>, conns: map<nat, Conn>, k: PinKey, internal: bool)
    ensures Counted(pins, conns, k, internal) <==> CountedAs(pins, k, |Holders(conns, k, internal)|)
  {
  }

  lemma ReturnedCounts(pins: map<PinKey, Pin>, c: Conn, k: PinKey, internal: bool, holders: nat)
    requires CountedAs(pins, k, holders)
    requires c.kind.Internal? == internal && c.pinKey == Some(k) ==> holders > 0
    ensures CountedAs(Returned(pins, c, internal), k,
                      holders - if c.kind.Internal? == internal && c.pinKey == Some(k) then 1 else 0)
  {
  }

  /** Giving the last reference on a key back deletes its pin. */
  lemma CountedDrop(pins: map<PinKey, Pin>, conns: map<nat, Conn>, id: nat, k: PinKey, internal: bool)
    requires Counted(pins, conns, k, internal) && id in conns
    ensures Counted(Returned(pins, conns[id], internal), conns - {id}, k, internal)
  {
    var before := Holders(conns, k, internal);
    CountedAsHolders(pins, conns, k, internal);
    CountedAsHolders(Returned(pins, conns[id], internal), conns - {id}, k, internal);
    HoldersDrop(conns, id, k, internal);
    if id in before {
      assert |before - {id}| == |before| - 1;
    } else {
      assert before - {id} == before;
    }
    ReturnedCounts(pins, conns[id], k, internal, |before|);
  }

  lemma ConservedDrop(pins: map<PinKey, Pin>, conns: map<nat, Conn>, id: nat, internal: bool, zero: bool)
    requires Conserved(pins, conns, internal, zero) && id in conns
    ensures Conserved(Returned(pins, conns[id], internal), conns - {id}, internal, zero)
  {
    var pins', conns' := Returned(pins, conns[id], internal), conns - {id};
    forall k: PinKey | zero || k.targetIp != 0 ensures Counted(pins', conns', k, internal) {
      assert Counted(pins, conns, k, internal);
      CountedDrop(pins, conns, id, k, internal);
    }
  }

  lemma ConservedSame(pins: map<PinKey, Pin>, conns: map<nat, Conn>, id: nat, c: Conn, internal: bool, zero: bool)
    requires Conserved(pins, conns, internal, zero) && id in conns
    requires c.kind == conns[id].kind && c.pinKey == conns[id].pinKey
    ensures Conserved(pins, conns[id := c], internal, zero)
  {
    var conns' := conns[id := c];
    forall k: PinKey | zero || k.targetIp != 0 ensures Counted(pins, conns', k, internal) {
      assert Counted(pins, conns, k, internal);
      HoldersSame(conns, id, c, k, internal);
    }
  }

  /** What opening `c` does to the internal pins. */
  lemma IntraEffect(t: Table, src: Source, p: Packet, exclusiveHih: bool, now: int)
    requires Opened(t, src, p, exclusiveHih, now).Some?
    ensures var c := Opened(t, src, p, exclusiveHih, now).value;
            var pins := Pinned(t, src, p, c, exclusiveHih).intraPins;
            if c.kind.Internal? && c.pinKey.Some?
            then pins == Hold(t.intraPins, c.pinKey.value, c.dstIp, t.lastId + 1)
                 && (c.pinKey.value in t.intraPins ==> t.intraPins[c.pinKey.value].ip == c.dstIp)
            else pins == t.intraPins
  {
  }

  /** What opening `c` does to the comm pins: nothing, if it took a reference on a target pin instead. */
  lemma CommEffect(t: Table, src: Source, p: Packet, exclusiveHih: bool, now: int)
    requires Targeted(t.commPins) && Possible(t, Open(src, p, now)) && Opened(t, src, p, exclusiveHih, now).Some?
    ensures var c := Opened(t, src, p, exclusiveHih, now).value;
            var pins := Pinned(t, src, p, c, exclusiveHih).commPins;
            && Targeted(pins)
            && if !c.kind.Internal? && c.pinKey.Some? && (!exclusiveHih || c.pinKey.value.targetIp != 0)
               then pins == Hold(t.commPins, c.pinKey.value, c.dstIp, 0)
                    || (pins == Share(t.commPins, c.pinKey.value) && c.pinKey.value in t.commPins)
               else pins == t.commPins
  {
  }

  lemma OpenKeepsIntraPins(t: Table, src: Source, p: Packet, exclusiveHih: bool, now: int)
    requires Numbered(t.conns, t.lastId) && Conserved(t.intraPins, t.conns, true, true)
    ensures var t' := Create(t, src, p, exclusiveHih, now).0; Conserved(t'.intraPins, t'.conns, true, true)
  {
    var made := Opened(t, src, p, exclusiveHih, now);
    CreatedParts(t, src, p, exclusiveHih, now);
    if made.Some? {
      IntraEffect(t, src, p, exclusiveHih, now);
      ConservedAdd(t.intraPins, Pinned(t, src, p, made.value, exclusiveHih).intraPins, t.conns,
                   t.lastId + 1, made.value, true, true, made.value.dstIp, t.lastId + 1);
    }
  }

  lemma OpenKeepsCommPins(t: Table, src: Source, p: Packet, exclusiveHih: bool, now: int)
    requires Numbered(t.conns, t.lastId) && Conserved(t.commPins, t.conns, false, !exclusiveHih) && Targeted(t.commPins)
    requires Possible(t, Open(src, p, now))
    ensures var t' := Create(t, src, p, exclusiveHih, now).0;
            Conserved(t'.commPins, t'.conns, false, !exclusiveHih) && Targeted(t'.commPins)
  {
    var made := Opened(t, src, p, exclusiveHih, now);
    CreatedParts(t, src, p, exclusiveHih, now);
    if made.Some? {
      CommEffect(t, src, p, exclusiveHih, now);
      ConservedAdd(t.commPins, Pinned(t, src, p, made.value, exclusiveHih).commPins, t.conns,
                   t.lastId + 1, made.value, false, !exclusiveHih, made.value.dstIp, 0);
    }
  }

  lemma SameKeepsPins(t: Table, t': Table, id: nat, exclusiveHih: bool)
    requires PinsConserved(t, exclusiveHih) && id in t.conns && id in t'.conns
             && t'.conns == t.conns[id := t'.conns[id]]
    requires t'.commPins == t.commPins && t'.intraPins == t.intraPins
    requires t'.conns[id].kind == t.conns[id].kind && t'.conns[id].pinKey == t.conns[id].pinKey
    ensures PinsConserved(t', exclusiveHih)
  {
    ConservedSame(t.intraPins, t.conns, id, t'.conns[id], true, true);
    ConservedSame(t.commPins, t.conns, id, t'.conns[id], false, !exclusiveHih);
  }

  lemma ExpireKeepsPins(t: Table, id: nat, exclusiveHih: bool)
    requires PinsConserved(t, exclusiveHih) && id in t.conns
    ensures PinsConserved(Remove(t, id), exclusiveHih)
  {
    ConservedDrop(t.intraPins, t.conns, id, true, true);
    ConservedDrop(t.commPins, t.conns, id, false, !exclusiveHih);
  }

  lemma OpenKeepsPins(t: Table, src: Source, p: Packet, exclusiveHih: bool, now: int)
    requires Numbered(t.conns, t.lastId) && PinsConserved(t, exclusiveHih) && Possible(t, Open(src, p, now))
    ensures PinsConserved(Create(t, src, p, exclusiveHih, now).0, exclusiveHih)
  {
    OpenKeepsIntraPins(t, src, p, exclusiveHih, now);
    OpenKeepsCommPins(t, src, p, exclusiveHih, now);
  }

  lemma ApplyKeepsPins(t: Table, ev: Event, exclusiveHih: bool)
    requires Numbered(t.conns, t.lastId) && PinsConserved(t, exclusiveHih) && Possible(t, ev)
    ensures PinsConserved(Apply(t, ev, exclusiveHih), exclusiveHih)
  {
    match ev
    case Open(src, p, now) => OpenKeepsPins(t, src, p, exclusiveHih, now);
    case Divert(id, back) =>
      if !Refused(t, t.conns[id], back, exclusiveHih) {
        SameKeepsPins(t, Redirect(t, id, back, exclusiveHih).0, id, exclusiveHih);
      }
    case Touch(id, now) => SameKeepsPins(t, Update(t, id, now), id, exclusiveHih);
    case Expire(id) => ExpireKeepsPins(t, id, exclusiveHih);
  }

  /**
   * Over every defined run: pins of Internal connections, and comm pins, count their holders exactly. Only with
   * `exclusive_hih`, and only for keys without a target address, a connection's pin key can name a pin outside the comm
   * pins: no comm pin has such a key.
   */
  lemma {:induction false} AlwaysConserved(evs: seq<Event>, exclusiveHih: bool)
    requires Run(evs, exclusiveHih).Some?
    ensures PinsConserved(Run(evs, exclusiveHih).value, exclusiveHih)
  {
    if evs == [] {
      assert forall k, internal :: Holders(map[], k, internal) == {};
    } else {
      var before := evs[..|evs| - 1];
      AlwaysConserved(before, exclusiveHih);
      AlwaysFormed(before, exclusiveHih);
      ApplyKeepsPins(Run(before, exclusiveHih).value, evs[|evs| - 1], exclusiveHih);
    }
  }

  // ----- exclusive internal handlers -----

  /** Exclusive internal handlers: connections from one address to one handler share their target address. */
  ghost predicate IntrasPinned(pins: map<PinKey, Pin>, conns: map<nat, Conn>) {
    forall id | id in conns && conns[id].kind.Internal? && conns[id].pinKey.Some? ::
      var k := conns[id].pinKey.value;
      k in pins && pins[k].ip == conns[id].dstIp
  }

  lemma IntrasPinnedWith(pins: map<PinKey, Pin>, pins': map<PinKey, Pin>, conns: map<nat, Conn>, id: nat, c: Conn,
                         founder: nat)
    requires IntrasPinned(pins, conns)
    requires if c.kind.Internal? && c.pinKey.Some?
             then pins' == Hold(pins, c.pinKey.value, c.dstIp, founder)
                  && (c.pinKey.value in pins ==> pins[c.pinKey.value].ip == c.dstIp)
             else pins' == pins
    ensures IntrasPinned(pins', conns[id := c])
  {
  }

  lemma IntrasPinnedWithout(pins: map<PinKey, Pin>, conns: map<nat, Conn>, gone: nat)
    requires Conserved(pins, conns, true, true) && IntrasPinned(pins, conns) && gone in conns
    ensures IntrasPinned(Returned(pins, conns[gone], true), conns - {gone})
  {
    var pins', conns' := Returned(pins, conns[gone], true), conns - {gone};
    ConservedDrop(pins, conns, gone, true, true);
    forall id | id in conns' && conns'[id].kind.Internal? && conns'[id].pinKey.Some?
      ensures var k := conns'[id].pinKey.value; k in pins' && pins'[k].ip == conns'[id].dstIp
    {
      var k := conns'[id].pinKey.value;
      assert Counted(pins', conns', k, true);
      assert id in Holders(conns', k, true);
    }
  }

  lemma ApplyKeepsIntrasPinned(t: Table, ev: Event, exclusiveHih: bool)
    requires IntrasPinned(t.intraPins, t.conns) && Conserved(t.intraPins, t.conns, true, true)
    requires AllFormed(t.conns) && Numbered(t.conns, t.lastId) && Possible(t, ev)
    ensures IntrasPinned(Apply(t, ev, exclusiveHih).intraPins, Apply(t, ev, exclusiveHih).conns)
  {
    match ev
    case Open(src, p, now) =>
      var made := Opened(t, src, p, exclusiveHih, now);
      if made.Some? {
        CreatedParts(t, src, p, exclusiveHih, now);
        IntraEffect(t, src, p, exclusiveHih, now);
        IntrasPinnedWith(t.intraPins, Pinned(t, src, p, made.value, exclusiveHih).intraPins, t.conns, t.lastId + 1,
                         made.value, t.lastId + 1);
      }
    case Divert(id, back) =>
    case Touch(id, now) =>
    case Expire(id) => IntrasPinnedWithout(t.intraPins, t.conns, id);
  }

  lemma {:induction false} AlwaysIntrasPinned(evs: seq<Event>, exclusiveHih: bool)
    requires Run(evs, exclusiveHih).Some?
    ensures IntrasPinned(Run(evs, exclusiveHih).value.intraPins, Run(evs, exclusiveHih).value.conns)
  {
    if evs != [] {
      var before := evs[..|evs| - 1];
      AlwaysIntrasPinned(before, exclusiveHih);
      AlwaysConserved(before, exclusiveHih);
      AlwaysFormed(before, exclusiveHih);
      ApplyKeepsIntrasPinned(Run(before, exclusiveHih).value, evs[|evs| - 1], exclusiveHih);
    }
  }

  /**
   * In every defined run, two connections behind one exclusive internal handler with the same reply key have the
   * same `int_key` iff their backends sit on the same VLAN: the pin does not tell VLANs apart.
   */
  lemma ExclusiveIntra(evs: seq<Event>, exclusiveHih: bool, a: nat, b: nat, h: Handler, i: Handler)
    requires Run(evs, exclusiveHih).Some?
    requires var t := Run(evs, exclusiveHih).value;
             && a in t.conns && b in t.conns && t.conns[a].kind.Internal? && t.conns[b].kind.Internal?
             && t.conns[a].peer == Some(h) && h.exclusive && t.conns[b].peer == Some(i) && i.exclusive
             && OuterKey(t.conns[a]) == OuterKey(t.conns[b])
    ensures var t := Run(evs, exclusiveHih).value;
            && t.conns[a].dstIp == t.conns[b].dstIp
            && (IntKey(t.conns[a]) == IntKey(t.conns[b]) <==> t.conns[a].inner.vlan == t.conns[b].inner.vlan)
  {
    AlwaysIntrasPinned(evs, exclusiveHih);
    AlwaysFormed(evs, exclusiveHih);
  }
}

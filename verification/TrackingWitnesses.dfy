/** Concrete runs of connection tracking that end where the design does not mean them to. */
module TrackingWitnesses {
  import opened Words
  import opened Keys
  import opened Tracking
  import opened TrackingRuns
  import opened TargetPins

  const FRONT := Handler(1, 10, 0, false)
  const BACK := Handler(2, 20, 5, false)
  const HONEYNET := Target(FRONT, {20}, map[], 99)

  /** An attacker's SYN to the target address `dstIp`. */
  function Attack(dstIp: U32): Packet {
    Packet(0, true, TCP, 1000, 4000, dstIp, 80, 0, true)
  }

  /** The connection it opens. */
  function Attacked(dstIp: U32): Conn {
    Conn(Inbound, TCP, 1000, 4000, dstIp, 80, FRONT, None, 0, Some(PinKey(dstIp, 10, 0)), None, None, 0)
  }

  lemma Next(evs: seq<Event>, ev: Event, exclusiveHih: bool, t: Table)
    requires Run(evs, exclusiveHih) == Some(t) && Possible(t, ev) && Defined(t, ev, exclusiveHih)
    ensures Run(evs + [ev], exclusiveHih) == Some(Apply(t, ev, exclusiveHih))
  {
    assert (evs + [ev])[..|evs|] == evs;
  }

  lemma {:induction false} FoundNowhere(trees: map<Slot, nat>, order: seq<Tree>, k: ConnKey)
    requires forall tree | tree in order :: (tree, k) !in trees
    ensures Find(trees, order, k).None?
    decreases |order|
  {
    if order != [] {
      FoundNowhere(trees, order[1..], k);
    }
  }

  /** The table after the first attack. */
  function AfterAttack(): Table {
    Filed(Empty().(commPins := map[PinKey(50, 10, 0) := Pin(50, 1, 0)]), Attacked(50), 1)
  }

  const BEGAN := [Open(FromExt(HONEYNET), Attack(50), 0)]

  lemma AttackRuns(exclusiveHih: bool)
    ensures Run(BEGAN, exclusiveHih) == Some(AfterAttack())
    ensures AfterAttack().conns == map[1 := Attacked(50)]
  {
    Next([], BEGAN[0], exclusiveHih, Empty());
    assert BEGAN == [] + [BEGAN[0]];
  }

  // ----- the reply tree -----

  lemma SecondAttackOpens(p: Packet)
    requires p == Attack(51)
    ensures Opened(AfterAttack(), FromExt(HONEYNET), p, false, 0) == Some(Attacked(51))
    ensures Find(AfterAttack().trees, Order(p), PacketKey(p)).None?
  {
    FileEntries(map[], Slots(Attacked(50)), 1);
    FoundNowhere(AfterAttack().trees, Order(p), PacketKey(p));
  }

  /**
   * Two connections of one attacker that differ in the target address only: the second takes the first's reply entry.
   */
  lemma RepliesCollide() returns (evs: seq<Event>)
    ensures |evs| == 2 && Run(evs, false).Some?
    ensures var t := Run(evs, false).value;
            && 1 in t.conns && 2 in t.conns && t.conns[1].dstIp != t.conns[2].dstIp
            && IntKey(t.conns[1]) == IntKey(t.conns[2]) && Find(t.trees, [Ext2], IntKey(t.conns[1])) == Some(2)
            && !Indexed(t)
  {
    var b, t1 := Open(FromExt(HONEYNET), Attack(51), 0), AfterAttack();
    AttackRuns(false);
    SecondAttackOpens(Attack(51));
    Next(BEGAN, b, false, t1);
    var t2 := Apply(t1, b, false);
    FileEntries(t1.trees, Slots(Attacked(51)), 2);
    evs := BEGAN + [b];
    var s := (Ext2, IntKey(Attacked(50)));
    assert Owns(t2.conns, s, 1) && !Holds(t2.trees, s, 1);
  }

  // ----- the target pin -----

  const BACK_KEY := TargetPinKey(BACK)

  /** The table after the attack was redirected. */
  function AfterDivert(): Table {
    AfterAttack().(trees := File(AfterAttack().trees, [(Ext2, ReplyKey(Attacked(50), BACK))], 1),
                   targetPins := map[BACK_KEY := Pin(50, 1, 0)],
                   conns := map[1 := Attacked(50).(redirect := Some(BACK), targetPin := Some(BACK_KEY))])
  }

  const DIVERTED := BEGAN + [Divert(1, BACK)]

  lemma DivertRuns()
    ensures Run(DIVERTED, true) == Some(AfterDivert())
  {
    AttackRuns(true);
    Next(BEGAN, Divert(1, BACK), true, AfterAttack());
    var t := Apply(AfterAttack(), Divert(1, BACK), true);
    assert t.conns == AfterDivert().conns && t.targetPins == AfterDivert().targetPins;
  }

  /** Removing the redirected connection empties the trees of connections, and frees the target pin. */
  lemma ExpireRuns()
    ensures var t := Remove(AfterDivert(), 1);
            t.conns == map[] && t.trees == map[] && t.lastId == 1 && BACK_KEY in t.freed
  {
    var added := [(Ext2, ReplyKey(Attacked(50), BACK))];
    FileEntries(map[], Slots(Attacked(50)), 1);
    FileEntries(AfterAttack().trees, added, 1);
    assert Slots(AfterDivert().conns[1]) == Slots(Attacked(50)) + added;
    UnfileEntries(AfterDivert().trees, Slots(Attacked(50)) + added);
  }

  /**
   * The redirected connection expires, and its backend is chosen for the next: the pin that search finds has been
   * freed.
   */
  lemma FreedPinIsRead() returns (evs: seq<Event>)
    ensures |evs| == 4 && Run(evs, true).Some?
    ensures Possible(Run(evs, true).value, Divert(2, BACK)) && ReadsFreed(Run(evs, true).value, Divert(2, BACK), true)
  {
    DivertRuns();
    Next(DIVERTED, Expire(1), true, AfterDivert());
    ExpireRuns();
    var t, again := Remove(AfterDivert(), 1), Open(FromExt(HONEYNET), Attack(50), 0);
    Next(DIVERTED + [Expire(1)], again, true, t);
    evs := DIVERTED + [Expire(1)] + [again];
  }

  /** The backend's own connection to the outside. */
  const CALL := Packet(2, false, TCP, 20, 5000, 2000, 25, 5, true)

  const CALLED := Conn(Outbound, TCP, 20, 5000, 2000, 25, BACK, None, 50, Some(BACK_KEY), None, None, 0)

  function AfterCall(): Table {
    Filed(AfterDivert().(targetPins := map[BACK_KEY := Pin(50, 2, 0)]), CALLED, 2)
  }

  lemma CallIsNew(trees: map<Slot, nat>)
    requires trees == AfterDivert().trees
    ensures Find(trees, Order(CALL), PacketKey(CALL)) == None
  {
    FileEntries(map[], Slots(Attacked(50)), 1);
    FileEntries(AfterAttack().trees, [(Ext2, ReplyKey(Attacked(50), BACK))], 1);
    FoundNowhere(trees, Order(CALL), PacketKey(CALL));
  }

  lemma CallOpens()
    ensures Opened(AfterDivert(), FromHih(HONEYNET, BACK), CALL, true, 0) == Some(CALLED)
    ensures Pinned(AfterDivert(), FromHih(HONEYNET, BACK), CALL, CALLED, true)
            == AfterDivert().(targetPins := map[BACK_KEY := Pin(50, 2, 0)])
  {
  }

  lemma CallRuns()
    ensures Run(DIVERTED + [Open(FromHih(HONEYNET, BACK), CALL, 0)], true) == Some(AfterCall())
  {
    DivertRuns();
    CallIsNew(AfterDivert().trees);
    CallOpens();
    Next(DIVERTED, Open(FromHih(HONEYNET, BACK), CALL, 0), true, AfterDivert());
  }

  lemma CallExpires(t: Table)
    requires t == Remove(AfterCall(), 2)
    ensures t.conns == AfterDivert().conns && t.targetPins == map[BACK_KEY := Pin(50, 2, 0)] && t.freed == {}
            && t.intraPins == map[]
    ensures Remove(t, 1).conns == map[] && Remove(t, 1).targetPins == map[BACK_KEY := Pin(50, 1, 0)]
            && Remove(t, 1).freed == {}
  {
    assert AfterCall().conns - {2} == AfterDivert().conns;
    assert t.targetPins[BACK_KEY := Pin(50, 1, 0)] == map[BACK_KEY := Pin(50, 1, 0)];
  }

  /**
   * With an outgoing connection in between nothing is freed, but its reference stays: no connection is left, the
   * backend is still taken.
   */
  lemma ReferenceLeaks() returns (evs: seq<Event>)
    ensures |evs| == 5 && Run(evs, true).Some?
    ensures var t := Run(evs, true).value;
            && t.conns == map[] && t.freed == {} && BACK_KEY in t.targetPins
            && forall c: Conn | c.dstIp != 50 :: Refused(t, c, BACK, true)
  {
    CallRuns();
    evs := DIVERTED + [Open(FromHih(HONEYNET, BACK), CALL, 0)];
    Next(evs, Expire(2), true, AfterCall());
    evs := evs + [Expire(2)];
    var t := Remove(AfterCall(), 2);
    CallExpires(t);
    Next(evs, Expire(1), true, t);
    evs := evs + [Expire(1)];
  }

  /** The low-interaction honeypot calls back the attacker, who reached it under the address 50. */
  const CALL_BACK := Packet(1, false, TCP, 10, 5000, 1000, 25, 0, true)

  lemma CallBackIsNew(trees: map<Slot, nat>)
    requires trees == AfterAttack().trees
    ensures Find(trees, Order(CALL_BACK), PacketKey(CALL_BACK)).None?
  {
    FileEntries(map[], Slots(Attacked(50)), 1);
    FoundNowhere(trees, Order(CALL_BACK), PacketKey(CALL_BACK));
  }

  /**
   * The connection shows the default route's address: the comm pin is searched for under the address that is called.
   */
  lemma CallBackIsNotPinned()
    ensures Run(BEGAN, false).Some? && Possible(Run(BEGAN, false).value, Open(FromLih(HONEYNET), CALL_BACK, 0))
    ensures var made := Opened(Run(BEGAN, false).value, FromLih(HONEYNET), CALL_BACK, false, 0);
            made.Some? && made.value.kind.Outbound? && made.value.snatIp == 99
  {
    AttackRuns(false);
    CallBackIsNew(AfterAttack().trees);
  }

  // ----- exclusive internal handlers -----

  const INSIDE := Handler(3, 30, 0, true)
  const TWO_VLANS := Target(FRONT, {20}, map[60 := INSIDE], 99)

  /** The same address on another VLAN is another backend. */
  function BackOn(vlan: U12): Handler {
    BACK.(vlan := vlan)
  }

  function InsideCall(vlan: U12): Packet {
    Packet(2, false, TCP, 20, 5000, 60, 25, vlan, true)
  }

  function CalledInside(vlan: U12): Conn {
    Conn(Internal, TCP, 20, 5000, 60, 25, BackOn(vlan), Some(INSIDE), 0, Some(PinKey(20, 30, 0)), None, None, 0)
  }

  const INSIDE_KEY := PinKey(20, 30, 0)

  function Pinning(vlan: U12): Event {
    Open(FromHih(TWO_VLANS, BackOn(vlan)), InsideCall(vlan), 0)
  }

  function AfterInside(): Table {
    Filed(Empty().(intraPins := map[INSIDE_KEY := Pin(60, 1, 1)]), CalledInside(5), 1)
  }

  lemma InsideRuns()
    ensures Run([Pinning(5)], true) == Some(AfterInside())
    ensures AfterInside().conns == map[1 := CalledInside(5)]
  {
    Next([], Pinning(5), true, Empty());
    assert [Pinning(5)] == [] + [Pinning(5)];
  }

  lemma InsideOpens(p: Packet)
    requires p == InsideCall(6)
    ensures Opened(AfterInside(), FromHih(TWO_VLANS, BackOn(6)), p, true, 0) == Some(CalledInside(6))
    ensures Pinned(AfterInside(), FromHih(TWO_VLANS, BackOn(6)), p, CalledInside(6), true)
            == AfterInside().(intraPins := map[INSIDE_KEY := Pin(60, 2, 1)])
    ensures Find(AfterInside().trees, Order(p), PacketKey(p)).None?
  {
    assert AfterInside().intraPins[INSIDE_KEY := Pin(60, 2, 1)] == map[INSIDE_KEY := Pin(60, 2, 1)];
    FileEntries(map[], Slots(CalledInside(5)), 1);
    FoundNowhere(AfterInside().trees, Order(p), PacketKey(p));
  }

  /** The table once a backend of the same address on another VLAN has called as well. */
  function AfterBoth(): Table {
    Filed(AfterInside().(intraPins := map[INSIDE_KEY := Pin(60, 2, 1)]), CalledInside(6), 2)
  }

  lemma BothRun()
    ensures Run([Pinning(5)] + [Pinning(6)], true) == Some(AfterBoth())
  {
    InsideRuns();
    InsideOpens(InsideCall(6));
    Next([Pinning(5)], Pinning(6), true, AfterInside());
  }

  /** What removing the first of the two would leave. */
  lemma FirstIsFounder()
    ensures AfterBoth().conns == map[1 := CalledInside(5), 2 := CalledInside(6)]
    ensures IsFounder(AfterBoth().intraPins, 1, CalledInside(5))
    ensures Remove(AfterBoth(), 1).intraPins == map[INSIDE_KEY := Pin(60, 1, 1)]
            && Remove(AfterBoth(), 1).misfreed == {1}
  {
    assert AfterBoth().intraPins[INSIDE_KEY := Pin(60, 1, 1)] == map[INSIDE_KEY := Pin(60, 1, 1)];
  }

  /**
   * Two backends of one address on two VLANs call an exclusive internal target: one reply key for two connections with
   * keys of their own.
   */
  lemma VlansCollide() returns (evs: seq<Event>)
    ensures |evs| == 2 && Run(evs, true).Some?
    ensures var t := Run(evs, true).value;
            && 1 in t.conns && 2 in t.conns && t.conns[1].peer == Some(INSIDE) && t.conns[2].peer == Some(INSIDE)
            && OuterKey(t.conns[1]) == OuterKey(t.conns[2]) && IntKey(t.conns[1]) != IntKey(t.conns[2])
            && Find(t.trees, [Intra2], OuterKey(t.conns[1])) == Some(2)
  {
    BothRun();
    FirstIsFounder();
    evs := [Pinning(5)] + [Pinning(6)];
    FileEntries(AfterInside().trees, Slots(CalledInside(6)), 2);
  }

  /**
   * One call to an exclusive internal target, and its expiry: the pin is gone, and with it the key that is then freed
   * again.
   */
  lemma KeyFreedTwice() returns (evs: seq<Event>)
    ensures |evs| == 1 && Run(evs, true).Some? && Possible(Run(evs, true).value, Expire(1))
    ensures var t := Run(evs, true).value;
            && FreesShared(t, Expire(1)) && Run(evs + [Expire(1)], true).None?
            && Remove(t, 1).intraPins == map[] && Remove(t, 1).misfreed == {1}
  {
    InsideRuns();
    evs := [Pinning(5)];
    assert (evs + [Expire(1)])[..1] == evs;
  }

  /** The same with a second holder: the tree goes on with the freed key, and the pin that is under it. */
  lemma KeyFreedInUse() returns (evs: seq<Event>)
    ensures |evs| == 2 && Run(evs, true).Some? && Possible(Run(evs, true).value, Expire(1))
    ensures var t := Run(evs, true).value;
            && FreesShared(t, Expire(1)) && Run(evs + [Expire(1)], true).None?
            && Remove(t, 1).intraPins == map[INSIDE_KEY := Pin(60, 1, 1)] && Remove(t, 1).misfreed == {1}
  {
    BothRun();
    FirstIsFounder();
    evs := [Pinning(5)] + [Pinning(6)];
    assert (evs + [Expire(1)])[..2] == evs;
  }
}

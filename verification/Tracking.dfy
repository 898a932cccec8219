/**
 * Connection tracking of `connections.c` on values: the six connection trees, the three pin trees, and
 * what create, redirect, update and remove do to them. `Tracker.dfy` holds the class that does this in place.
 */
module Tracking {
  import opened Words
  import opened Keys

  /** A honeypot or internal target as the configuration describes it. */
  datatype Handler = Handler(iface: nat, ip: U32, vlan: U12, exclusive: bool)

  /** A target: its front handler, its backends' addresses, handlers of internal addresses, default route address. */
  datatype Target = Target(front: Handler, backIps: set<U32>, intras: map<U32, Handler>, defaultIp: U32)

  /** The headers tracking looks at; `uplink` says that the receiving interface has a target. */
  datatype Packet = Packet(iface: nat, uplink: bool, protocol: U8, srcIp: U32, srcPort: U16, dstIp: U32, dstPort: U16,
                           vlan: U12, syn: bool)

  const TCP: U8 := 6

  /** Where a packet of no known connection comes from, as the search over the targets finds it. */
  datatype Source =
    | FromExt(target: Target)
    | FromLih(target: Target)
    | FromHih(target: Target, back: Handler)

  /** Uplink VLAN frames are dropped on capture; the search matches addresses, and for backends the VLAN. */
  predicate SourceFits(src: Source, p: Packet) {
    match src
    case FromExt(_) => p.uplink && p.vlan == 0
    case FromLih(t) => !p.uplink && p.srcIp == t.front.ip
    case FromHih(t, b) => !p.uplink && p.srcIp == b.ip && p.vlan == b.vlan
  }

  /** Which trees a connection lives in: started outside, started inside towards outside, or inside to inside. */
  datatype Kind = Inbound | Outbound | Internal

  /**
   * A connection: the first packet's addresses, the handler at its inner end, and what was decided on
   * creation and redirection. Its keys are never reassigned, so they are functions of these fields.
   */
  datatype Conn = Conn(
    kind: Kind, protocol: U8, srcIp: U32, srcPort: U16, dstIp: U32, dstPort: U16,
    inner: Handler,            // the front handler, or the backend that started the connection
    peer: Option<Handler>,     // the internal handler of an Internal connection
    snatIp: U32,               // the source address an Outbound connection shows outside
    pinKey: Option<PinKey>,
    redirect: Option<Handler>, // the backend an Inbound connection was redirected to
    targetPin: Option<PinKey>,
    accessTime: int)

  /** `founder` is the connection whose own key the pin's key is, the one the tree compares; 0 if it is a copy. */
  datatype Pin = Pin(ip: U32, count: nat, founder: nat)

  datatype Tree = Ext1 | Ext2 | Int1 | Int2 | Intra1 | Intra2

  /** An entry of one of the six trees. */
  type Slot = (Tree, ConnKey)

  /**
   * The six trees together, each entry leading to a connection ID; the pin trees and the live connections. `freed` are
   * the entries still in the target pin tree after the pin and the key they point to have been freed; `misfreed` are
   * the connections whose removal freed a key that was the internal pin tree's.
   */
  datatype Table = Table(
    trees: map<Slot, nat>,
    commPins: map<PinKey, Pin>, targetPins: map<PinKey, Pin>, freed: set<PinKey>,
    intraPins: map<PinKey, Pin>, misfreed: set<nat>,
    conns: map<nat, Conn>, lastId: nat)

  function Empty(): Table {
    Table(map[], map[], map[], {}, map[], {}, map[], 0)
  }

  // ----- keys -----

  /** The key of a packet as it arrives. */
  function PacketKey(p: Packet): ConnKey {
    ConnKey(p.protocol, p.srcIp, p.srcPort, p.dstIp, p.dstPort, p.vlan)
  }

  /** What the reply of handler `h` to the initiator of an Inbound or Internal connection looks like. */
  function ReplyKey(c: Conn, h: Handler): ConnKey {
    ConnKey(c.protocol, h.ip, c.dstPort, c.srcIp, c.srcPort, h.vlan)
  }

  /** `int_key` */
  function IntKey(c: Conn): ConnKey {
    if c.kind.Inbound? then ReplyKey(c, c.inner)
    else ConnKey(c.protocol, c.srcIp, c.srcPort, c.dstIp, c.dstPort, c.inner.vlan)
  }

  /** `ext_key`, or `intra_key` of an Internal connection. */
  function OuterKey(c: Conn): ConnKey {
    match c.kind
    case Inbound => ConnKey(c.protocol, c.srcIp, c.srcPort, c.dstIp, c.dstPort, 0)
    case Outbound => ConnKey(c.protocol, c.dstIp, c.dstPort, c.snatIp, c.srcPort, 0)
    case Internal => if c.peer.Some? then ReplyKey(c, c.peer.value) else IntKey(c)
  }

  /** The tree entries a connection is filed under. */
  function Slots(c: Conn): seq<Slot> {
    match c.kind
    case Inbound =>
      [(Ext1, OuterKey(c)), (Ext2, IntKey(c))]
      + if c.redirect.Some? then [(Ext2, ReplyKey(c, c.redirect.value))] else []
    case Outbound => [(Int1, IntKey(c)), (Int2, OuterKey(c))]
    case Internal => [(Intra1, IntKey(c)), (Intra2, OuterKey(c))]
  }

  // ----- trees -----

  /** `g_tree_insert` of the connection under each slot; an existing entry is overwritten. */
  function File(trees: map<Slot, nat>, slots: seq<Slot>, id: nat): map<Slot, nat>
    decreases |slots|
  {
    if slots == [] then trees else File(trees[slots[0] := id], slots[1..], id)
  }

  /** `g_tree_remove` of each slot. */
  function Unfile(trees: map<Slot, nat>, slots: seq<Slot>): map<Slot, nat>
    decreases |slots|
  {
    if slots == [] then trees else Unfile(trees - {slots[0]}, slots[1..])
  }

  lemma InRest(slots: seq<Slot>, s: Slot)
    requires slots != []
    ensures s in slots <==> s == slots[0] || s in slots[1..]
  {
    assert slots == [slots[0]] + slots[1..];
  }

  lemma {:induction false} FileEntries(trees: map<Slot, nat>, slots: seq<Slot>, id: nat)
    ensures forall s :: s in File(trees, slots, id) <==> s in slots || s in trees
    ensures forall s | s in File(trees, slots, id) :: File(trees, slots, id)[s] == if s in slots then id else trees[s]
    decreases |slots|
  {
    if slots != [] {
      FileEntries(trees[slots[0] := id], slots[1..], id);
      forall s ensures s in slots <==> s == slots[0] || s in slots[1..] {
        InRest(slots, s);
      }
    }
  }

  lemma {:induction false} UnfileEntries(trees: map<Slot, nat>, slots: seq<Slot>)
    ensures forall s :: s in Unfile(trees, slots) <==> s !in slots && s in trees
    ensures forall s | s in Unfile(trees, slots) :: Unfile(trees, slots)[s] == trees[s]
    decreases |slots|
  {
    if slots != [] {
      UnfileEntries(trees - {slots[0]}, slots[1..]);
      forall s ensures s in slots <==> s == slots[0] || s in slots[1..] {
        InRest(slots, s);
      }
    }
  }

  // ----- pins -----

  /** Take one reference on a pin, creating it for `ip` if there is none. */
  function Hold(pins: map<PinKey, Pin>, k: PinKey, ip: U32, founder: nat): map<PinKey, Pin> {
    if k in pins then pins[k := pins[k].(count := pins[k].count + 1)] else pins[k := Pin(ip, 1, founder)]
  }

  /** Take one reference on a pin that exists. */
  function Share(pins: map<PinKey, Pin>, k: PinKey): map<PinKey, Pin> {
    if k in pins then pins[k := pins[k].(count := pins[k].count + 1)] else pins
  }

  /** An unsigned 64-bit counter, one lower. */
  function Fewer(count: nat): nat {
    if count == 0 then 0xFFFF_FFFF_FFFF_FFFF else count - 1
  }

  /** Give one reference on `k` back; at zero its entry is deleted and the pin freed. */
  function Release(pins: map<PinKey, Pin>, k: Option<PinKey>): map<PinKey, Pin> {
    if k.None? || k.value !in pins then pins
    else if Fewer(pins[k.value].count) == 0 then pins - {k.value}
    else pins[k.value := pins[k.value].(count := Fewer(pins[k.value].count))]
  }

  /** The internal pins, or the comm pins, after connection `c` gave its reference back. */
  function Returned(pins: map<PinKey, Pin>, c: Conn, internal: bool): map<PinKey, Pin> {
    if c.kind.Internal? == internal then Release(pins, c.pinKey) else pins
  }

  function Named(k: Option<PinKey>): set<PinKey> {
    if k.Some? then {k.value} else {}
  }

  /** The live target pins once a reference on `k` is given back; at zero the entry under `under` is deleted. */
  function LeftPins(pins: map<PinKey, Pin>, k: Option<PinKey>, under: Option<PinKey>): map<PinKey, Pin> {
    if k.None? || k.value !in pins then pins
    else if Fewer(pins[k.value].count) == 0 then pins - {k.value} - Named(under)
    else pins[k.value := pins[k.value].(count := Fewer(pins[k.value].count))]
  }

  /**
   * The freed entries still in the tree: at zero the pin of `k` and the key its entry points to are freed, and unless
   * the two keys are the same, that entry stays.
   */
  function LeftFreed(pins: map<PinKey, Pin>, freed: set<PinKey>, k: Option<PinKey>,
                     under: Option<PinKey>): set<PinKey> {
    if k.Some? && k.value in pins && Fewer(pins[k.value].count) == 0 then freed + {k.value} - Named(under) else freed
  }

  /** The connection's pin key is the very key the internal pin tree holds. */
  predicate IsFounder(intraPins: map<PinKey, Pin>, id: nat, c: Conn) {
    c.kind.Internal? && c.pinKey.Some? && c.pinKey.value in intraPins && intraPins[c.pinKey.value].founder == id
  }

  // ----- create_conn -----

  /** The pin an outgoing connection consults: the backend's target pin, or the front handler's comm pin. */
  function SnatPin(src: Source, p: Packet, exclusiveHih: bool): PinKey {
    if src.FromHih? && exclusiveHih then PinKey(0, src.back.ip, src.back.vlan)
    else PinKey(p.dstIp, src.target.front.ip, src.target.front.vlan)
  }

  function SnatPins(t: Table, src: Source, exclusiveHih: bool): map<PinKey, Pin> {
    if src.FromHih? && exclusiveHih then t.targetPins else t.commPins
  }

  function IntraPin(p: Packet, h: Handler): PinKey {
    PinKey(p.srcIp, h.ip, h.vlan)
  }

  /** Where a new connection leads. */
  function KindOf(src: Source, p: Packet): Kind {
    match src
    case FromExt(_) => Inbound
    case FromLih(_) => Outbound
    case FromHih(t, _) => if p.dstIp in t.intras then Internal else Outbound
  }

  /** TCP connections start with SYN; honeypots may not address each other, nor internal targets from the front. */
  predicate Admitted(t: Table, src: Source, p: Packet) {
    && !(p.protocol == TCP && !p.syn)
    && match src
       case FromExt(_) => true
       case FromLih(tg) => p.dstIp !in tg.intras && p.dstIp !in tg.backIps
       case FromHih(tg, _) =>
         if p.dstIp in tg.intras then IntraFree(t, p, tg.intras[p.dstIp])
         else p.dstIp != tg.front.ip && p.dstIp !in tg.backIps
  }

  /** An exclusive internal handler is not pinned to another target address. */
  predicate IntraFree(t: Table, p: Packet, h: Handler) {
    !(h.exclusive && IntraPin(p, h) in t.intraPins && t.intraPins[IntraPin(p, h)].ip != p.dstIp)
  }

  /** The pin a new connection takes a reference on. */
  function PinFor(t: Table, src: Source, p: Packet, exclusiveHih: bool): Option<PinKey> {
    match KindOf(src, p)
    case Inbound => Some(PinKey(p.dstIp, src.target.front.ip, src.target.front.vlan))
    case Outbound =>
      if SnatPin(src, p, exclusiveHih) in SnatPins(t, src, exclusiveHih) then Some(SnatPin(src, p, exclusiveHih))
         else None
    case Internal =>
      var h := src.target.intras[p.dstIp];
      if h.exclusive then Some(IntraPin(p, h)) else None
  }

  /** The source address an outgoing connection is given. */
  function SnatFor(t: Table, src: Source, p: Packet, exclusiveHih: bool): U32 {
    var k, pins := SnatPin(src, p, exclusiveHih), SnatPins(t, src, exclusiveHih);
    if k in pins then pins[k].ip else src.target.defaultIp
  }

  /** The connection a packet would open, or none where `create_conn` refuses. */
  function Opened(t: Table, src: Source, p: Packet, exclusiveHih: bool, now: int): Option<Conn> {
    if !Admitted(t, src, p) then None
    else Some(Conn(
      KindOf(src, p), p.protocol, p.srcIp, p.srcPort, p.dstIp, p.dstPort,
      if src.FromHih? then src.back else src.target.front,
      if KindOf(src, p).Internal? then Some(src.target.intras[p.dstIp]) else None,
      if KindOf(src, p).Outbound? then SnatFor(t, src, p, exclusiveHih) else 0,
      PinFor(t, src, p, exclusiveHih), None, None, now))
  }

  /** An exclusive backend's outgoing connection that takes a reference on its target pin. */
  predicate Leaks(src: Source, c: Conn, exclusiveHih: bool) {
    exclusiveHih && src.FromHih? && c.kind.Outbound? && c.pinKey.Some?
  }

  function CommPinned(pins: map<PinKey, Pin>, src: Source, p: Packet, c: Conn, exclusiveHih: bool): map<PinKey, Pin> {
    if c.pinKey.None? || c.kind.Internal? || Leaks(src, c, exclusiveHih) then pins
    else if c.kind.Inbound? then Hold(pins, c.pinKey.value, p.dstIp, 0)
    else Share(pins, c.pinKey.value)
  }

  /** The pin trees after opening `c`. */
  function Pinned(t: Table, src: Source, p: Packet, c: Conn, exclusiveHih: bool): Table {
    t.(commPins := CommPinned(t.commPins, src, p, c, exclusiveHih),
       targetPins := if Leaks(src, c, exclusiveHih) then Share(t.targetPins, c.pinKey.value) else t.targetPins,
       intraPins := if c.kind.Internal? && c.pinKey.Some?
                    then Hold(t.intraPins, c.pinKey.value, p.dstIp, t.lastId + 1) else t.intraPins)
  }

  /** The table with a new connection filed under its slots. */
  function Filed(t: Table, c: Conn, id: nat): Table {
    t.(trees := File(t.trees, Slots(c), id), conns := t.conns[id := c], lastId := id)
  }

  /** `create_conn`: the table afterwards and the new connection's ID, if one was opened. */
  function Create(t: Table, src: Source, p: Packet, exclusiveHih: bool, now: int): (Table, Option<nat>) {
    var id := t.lastId + 1;
    match Opened(t, src, p, exclusiveHih, now)
    case None => (if p.protocol == TCP && !p.syn then t else t.(lastId := id), None)
    case Some(c) => (Filed(Pinned(t, src, p, c, exclusiveHih), c, id), Some(id))
  }

  /** The table after a connection was opened, part by part. */
  lemma CreatedTable(t: Table, src: Source, p: Packet, exclusiveHih: bool, now: int, c: Conn)
    requires Opened(t, src, p, exclusiveHih, now) == Some(c)
    ensures var u, id := Pinned(t, src, p, c, exclusiveHih), t.lastId + 1;
            Create(t, src, p, exclusiveHih, now)
            == (Table(File(t.trees, Slots(c), id), u.commPins, u.targetPins, t.freed, u.intraPins, t.misfreed,
                      t.conns[id := c], id), Some(id))
  {
  }

  // ----- setup_redirection, as far as the trees go -----

  function TargetPinKey(back: Handler): PinKey {
    PinKey(0, back.ip, back.vlan)
  }

  /** An exclusive backend is refused when it is pinned to another target address. */
  predicate Refused(t: Table, c: Conn, back: Handler, exclusiveHih: bool) {
    exclusiveHih && TargetPinKey(back) in t.targetPins && t.targetPins[TargetPinKey(back)].ip != c.dstIp
  }

  function Redirect(t: Table, id: nat, back: Handler, exclusiveHih: bool): (Table, bool)
    requires id in t.conns
  {
    var c := t.conns[id];
    if Refused(t, c, back, exclusiveHih) then (t, false)
    else
      var pinned := if exclusiveHih then t.(targetPins := Hold(t.targetPins, TargetPinKey(back), c.dstIp, 0)) else t;
      var c' := c.(redirect := Some(back), targetPin := if exclusiveHih then Some(TargetPinKey(back)) else None);
      (pinned.(trees := File(t.trees, [(Ext2, ReplyKey(c, back))], id), conns := t.conns[id := c']), true)
  }

  // ----- update_conn and remove_conn -----

  function Update(t: Table, id: nat, now: int): Table
    requires id in t.conns
  {
    t.(conns := t.conns[id := t.conns[id].(accessTime := now)])
  }

  /** The pin trees without the references of `c`. */
  function PinsReleased(t: Table, c: Conn): Table {
    t.(commPins := Returned(t.commPins, c, false), intraPins := Returned(t.intraPins, c, true),
       targetPins := LeftPins(t.targetPins, c.targetPin, c.pinKey),
       freed := LeftFreed(t.targetPins, t.freed, c.targetPin, c.pinKey))
  }

  /** `free_conn`: the connection is gone, and so is its key, which may be one that was the internal pin tree's. */
  function Freed(t: Table, id: nat, shared: bool): Table {
    t.(misfreed := if shared then t.misfreed + {id} else t.misfreed, conns := t.conns - {id})
  }

  /**
   * `remove_conn`: the slots, then the pin, then the target pin, then the connection with its keys. Every Outbound
   * connection looks in the comm pins, and a target pin that reaches zero is deleted under the connection's own pin
   * key. The key of a connection that made an internal pin is the tree's: freeing it frees a key in use, or one freed
   * with the pin just before.
   */
  function Remove(t: Table, id: nat): Table
    requires id in t.conns
  {
    var c := t.conns[id];
    Freed(PinsReleased(t.(trees := Unfile(t.trees, Slots(c))), c), id, IsFounder(t.intraPins, id, c))
  }

  // ----- conn_lookup -----

  /** The trees a packet's key is looked up in, in order. */
  function Order(p: Packet): seq<Tree> {
    if p.uplink then [Ext1, Int2] else [Ext2, Int1, Intra1, Intra2]
  }

  function Find(trees: map<Slot, nat>, order: seq<Tree>, k: ConnKey): Option<nat>
    decreases |order|
  {
    if order == [] then None
    else if (order[0], k) in trees then Some(trees[(order[0], k)])
    else Find(trees, order[1..], k)
  }

  function Lookup(t: Table, p: Packet): Option<nat> {
    Find(t.trees, Order(p), PacketKey(p))
  }

  // ----- the trees are exactly the maps generated by the live connections -----

  predicate Owns(conns: map<nat, Conn>, s: Slot, id: nat) {
    id in conns && s in Slots(conns[id])
  }

  predicate Holds(trees: map<Slot, nat>, s: Slot, id: nat) {
    s in trees && trees[s] == id
  }

  /** An entry leads to a connection iff that connection is live and filed there. */
  ghost predicate Index(trees: map<Slot, nat>, conns: map<nat, Conn>) {
    forall s, id :: Holds(trees, s, id) <==> Owns(conns, s, id)
  }

  ghost predicate Numbered(conns: map<nat, Conn>, lastId: nat) {
    forall id | id in conns :: id <= lastId
  }

  ghost predicate Indexed(t: Table) {
    Index(t.trees, t.conns) && Numbered(t.conns, t.lastId)
  }

  /** No entry the connection is about to be filed under is taken. */
  predicate NoClash(trees: map<Slot, nat>, c: Conn) {
    forall s | s in Slots(c) :: s !in trees
  }

  lemma FilingIndexesIff(trees: map<Slot, nat>, conns: map<nat, Conn>, c: Conn, id: nat)
    requires Index(trees, conns) && id !in conns
    ensures Index(File(trees, Slots(c), id), conns[id := c]) <==> NoClash(trees, c)
  {
    FileEntries(trees, Slots(c), id);
    var trees', conns' := File(trees, Slots(c), id), conns[id := c];
    if NoClash(trees, c) {
      forall s, x ensures Holds(trees', s, x) <==> Owns(conns', s, x) {
        assert Holds(trees, s, x) <==> Owns(conns, s, x);
      }
    } else {
      var s :| s in Slots(c) && s in trees;
      assert Holds(trees, s, trees[s]);
      assert Owns(conns', s, trees[s]) && !Holds(trees', s, trees[s]);
    }
  }

  /** Pinning touches nothing but the pins. */
  lemma PinnedFrame(t: Table, src: Source, p: Packet, c: Conn, exclusiveHih: bool)
    ensures var u := Pinned(t, src, p, c, exclusiveHih);
            && u.trees == t.trees && u.conns == t.conns && u.lastId == t.lastId
            && u.freed == t.freed && u.misfreed == t.misfreed
  {
  }

  /** Opening a connection keeps the index exact iff none of its entries was taken. */
  lemma CreateKeepsIndexIff(t: Table, src: Source, p: Packet, exclusiveHih: bool, now: int)
    requires Indexed(t)
    ensures var made := Opened(t, src, p, exclusiveHih, now);
            Indexed(Create(t, src, p, exclusiveHih, now).0) <==> made.None? || NoClash(t.trees, made.value)
  {
    var made := Opened(t, src, p, exclusiveHih, now);
    if made.Some? {
      PinnedFrame(t, src, p, made.value, exclusiveHih);
      FilingIndexesIff(t.trees, t.conns, made.value, t.lastId + 1);
    }
  }

  /** Redirecting a connection that was not redirected keeps the index exact iff its new reply key is not another's. */
  lemma RedirectKeepsIndexIff(t: Table, id: nat, back: Handler, exclusiveHih: bool)
    requires Indexed(t) && id in t.conns && t.conns[id].kind.Inbound? && t.conns[id].redirect.None?
    ensures var (t', ok) := Redirect(t, id, back, exclusiveHih);
            var s := (Ext2, ReplyKey(t.conns[id], back));
            Indexed(t') <==> !ok || s !in t.trees || t.trees[s] == id
  {
    var (t', ok) := Redirect(t, id, back, exclusiveHih);
    if ok {
      RefilingIndexesIff(t.trees, t.conns, id, t'.conns[id], (Ext2, ReplyKey(t.conns[id], back)));
    }
  }

  lemma RefilingIndexesIff(trees: map<Slot, nat>, conns: map<nat, Conn>, id: nat, c: Conn, added: Slot)
    requires Index(trees, conns) && id in conns && Slots(c) == Slots(conns[id]) + [added]
    ensures Index(File(trees, [added], id), conns[id := c]) <==> (added in trees ==> trees[added] == id)
  {
    FileEntries(trees, [added], id);
    var trees', conns' := File(trees, [added], id), conns[id := c];
    if added in trees && trees[added] != id {
      assert Holds(trees, added, trees[added]);
      assert Owns(conns', added, trees[added]) && !Holds(trees', added, trees[added]);
    } else {
      forall s, x ensures Holds(trees', s, x) <==> Owns(conns', s, x) {
        assert Holds(trees, s, x) <==> Owns(conns, s, x);
      }
    }
  }

  lemma UpdateKeepsIndex(t: Table, id: nat, now: int)
    requires Indexed(t) && id in t.conns
    ensures Indexed(Update(t, id, now))
  {
    var conns' := Update(t, id, now).conns;
    assert Slots(conns'[id]) == Slots(t.conns[id]);
    assert forall s, x :: Owns(conns', s, x) == Owns(t.conns, s, x);
  }

  /** Removing a live connection always keeps the index exact. */
  lemma RemoveKeepsIndex(t: Table, id: nat)
    requires Indexed(t) && id in t.conns
    ensures Indexed(Remove(t, id))
  {
    UnfilingIndexes(t.trees, t.conns, id);
  }

  lemma UnfilingIndexes(trees: map<Slot, nat>, conns: map<nat, Conn>, id: nat)
    requires Index(trees, conns) && id in conns
    ensures Index(Unfile(trees, Slots(conns[id])), conns - {id})
  {
    UnfileEntries(trees, Slots(conns[id]));
    var trees', conns' := Unfile(trees, Slots(conns[id])), conns - {id};
    forall s, x ensures Holds(trees', s, x) <==> Owns(conns', s, x) {
      assert Holds(trees, s, x) <==> Owns(conns, s, x);
      assert Holds(trees, s, id) <==> Owns(conns, s, id);
    }
  }

  /** A packet finds a connection iff that connection uses its key in the first tree of the order where any does. */
  lemma LookupIsSearch(t: Table, p: Packet, id: nat)
    requires Indexed(t)
    ensures Lookup(t, p) == Some(id) <==> FirstOwner(t.conns, Order(p), PacketKey(p), id)
  {
    FindIsSearch(t.trees, t.conns, Order(p), PacketKey(p), id);
  }

  /** `id` uses the key in some tree of the order and no connection uses it in an earlier one. */
  ghost predicate FirstOwner(conns: map<nat, Conn>, order: seq<Tree>, k: ConnKey, id: nat) {
    exists i | 0 <= i < |order| ::
      Owns(conns, (order[i], k), id) && forall j, x | 0 <= j < i :: !Owns(conns, (order[j], k), x)
  }

  lemma {:induction false} FindIsSearch(trees: map<Slot, nat>, conns: map<nat, Conn>, order: seq<Tree>, k: ConnKey,
                                        id: nat)
    requires Index(trees, conns)
    ensures Find(trees, order, k) == Some(id) <==> FirstOwner(conns, order, k, id)
    decreases |order|
  {
    if order != [] {
      var first, rest := (order[0], k), order[1..];
      FindIsSearch(trees, conns, rest, k, id);
      if first in trees {
        assert Holds(trees, first, trees[first]) && Owns(conns, first, trees[first]);
        assert Holds(trees, first, id) <==> Owns(conns, first, id);
      } else {
        forall x ensures !Owns(conns, first, x) {
          assert !Holds(trees, first, x);
        }
        SearchSkips(conns, order, k, id);
      }
    }
  }

  lemma SearchSkips(conns: map<nat, Conn>, order: seq<Tree>, k: ConnKey, id: nat)
    requires order != [] && forall x :: !Owns(conns, (order[0], k), x)
    ensures FirstOwner(conns, order, k, id) <==> FirstOwner(conns, order[1..], k, id)
  {
    var rest := order[1..];
    if FirstOwner(conns, rest, k, id) {
      var i :| 0 <= i < |rest| && Owns(conns, (rest[i], k), id)
               && forall j, x | 0 <= j < i :: !Owns(conns, (rest[j], k), x);
      forall j, x | 0 <= j < i + 1 ensures !Owns(conns, (order[j], k), x) {
        assert j > 0 ==> order[j] == rest[j - 1];
      }
      assert Owns(conns, (order[i + 1], k), id);
    }
    if FirstOwner(conns, order, k, id) {
      var i :| 0 <= i < |order| && Owns(conns, (order[i], k), id)
               && forall j, x | 0 <= j < i :: !Owns(conns, (order[j], k), x);
      forall j, x | 0 <= j < i - 1 ensures !Owns(conns, (rest[j], k), x) {
        assert rest[j] == order[j + 1];
      }
      assert Owns(conns, (rest[i - 1], k), id);
    }
  }

  // ----- remove_conn undoes create_conn -----

  /** Pins in the tree are referenced. */
  predicate Positive(pins: map<PinKey, Pin>) {
    forall k | k in pins :: 0 < pins[k].count
  }

  lemma ReleaseUndoesHold(pins: map<PinKey, Pin>, k: PinKey, ip: U32, founder: nat)
    requires Positive(pins)
    ensures Release(Hold(pins, k, ip, founder), Some(k)) == pins
    ensures k in pins ==> Release(Share(pins, k), Some(k)) == pins
  {
    if k !in pins {
      assert pins[k := Pin(ip, 1, founder)] - {k} == pins;
    } else {
      assert pins[k := pins[k]] == pins;
    }
  }

  /** A connection to an exclusive internal handler that makes the handler's pin, its key becoming the tree's. */
  predicate Founds(t: Table, c: Conn) {
    c.kind.Internal? && c.pinKey.Some? && c.pinKey.value !in t.intraPins
  }

  /** IDs not given out yet mean nothing to the pins. */
  ghost predicate Unused(t: Table, id: nat) {
    id !in t.misfreed && forall k | k in t.intraPins :: t.intraPins[k].founder != id
  }

  /** The pin key of a new outgoing connection is that of a pin there is. */
  predicate HoldsItsPin(t: Table, src: Source, c: Conn, exclusiveHih: bool) {
    && c.targetPin.None?
    && (c.kind.Outbound? && c.pinKey.Some? ==>
        c.pinKey.value in if Leaks(src, c, exclusiveHih) then t.targetPins else t.commPins)
  }

  lemma OpenedHoldsItsPin(t: Table, src: Source, p: Packet, exclusiveHih: bool, now: int)
    requires Opened(t, src, p, exclusiveHih, now).Some?
    ensures HoldsItsPin(t, src, Opened(t, src, p, exclusiveHih, now).value, exclusiveHih)
  {
  }

  /** What a new connection did to the pins is undone by releasing its pin key, but for a target pin. */
  lemma PinsUndone(t: Table, src: Source, p: Packet, c: Conn, exclusiveHih: bool)
    requires Positive(t.commPins) && Positive(t.intraPins) && HoldsItsPin(t, src, c, exclusiveHih)
    ensures var pinned := Pinned(t, src, p, c, exclusiveHih);
            && Returned(pinned.intraPins, c, true) == t.intraPins
            && (!Leaks(src, c, exclusiveHih) ==> Returned(pinned.commPins, c, false) == t.commPins)
  {
    if c.pinKey.None? {
    } else if c.kind.Internal? {
      ReleaseUndoesHold(t.intraPins, c.pinKey.value, p.dstIp, t.lastId + 1);
    } else if !Leaks(src, c, exclusiveHih) {
      ReleaseUndoesHold(t.commPins, c.pinKey.value, p.dstIp, 0);
    }
  }

  lemma TargetKeptIff(t: Table, src: Source, p: Packet, c: Conn, exclusiveHih: bool)
    requires HoldsItsPin(t, src, c, exclusiveHih)
    ensures Pinned(t, src, p, c, exclusiveHih).targetPins == t.targetPins <==> !Leaks(src, c, exclusiveHih)
  {
    if Leaks(src, c, exclusiveHih) {
      assert Share(t.targetPins, c.pinKey.value)[c.pinKey.value].count == t.targetPins[c.pinKey.value].count + 1;
    }
  }

  /** A new connection's key is the internal pin tree's iff the connection made the pin. */
  lemma FounderIffFounds(t: Table, src: Source, p: Packet, c: Conn, exclusiveHih: bool)
    requires Unused(t, t.lastId + 1)
    ensures IsFounder(Pinned(t, src, p, c, exclusiveHih).intraPins, t.lastId + 1, c) <==> Founds(t, c)
  {
  }

  /**
   * Opening a connection on free entries and removing it again leaves everything but the ID counter as it was, with two
   * exceptions. An exclusive backend's outgoing connection that took a target pin never gives that reference back,
   * because removal looks for it among the comm pins. A connection that made an internal pin has its key freed twice.
   */
  lemma RemoveUndoesCreateIff(t: Table, src: Source, p: Packet, exclusiveHih: bool, now: int)
    requires Positive(t.commPins) && Positive(t.intraPins) && t.lastId + 1 !in t.conns && Unused(t, t.lastId + 1)
    requires Create(t, src, p, exclusiveHih, now).1.Some?
    requires NoClash(t.trees, Opened(t, src, p, exclusiveHih, now).value)
    requires src.FromHih? && exclusiveHih ==> SnatPin(src, p, exclusiveHih) !in t.commPins
    ensures var (t', id) := Create(t, src, p, exclusiveHih, now);
            var c := t'.conns[id.value];
            Remove(t', id.value) == t.(lastId := t.lastId + 1)
            <==> !Leaks(src, c, exclusiveHih) && !Founds(t, c)
  {
    var (t', made) := Create(t, src, p, exclusiveHih, now);
    var c := Opened(t, src, p, exclusiveHih, now).value;
    var pinned := Pinned(t, src, p, c, exclusiveHih);
    OpenedHoldsItsPin(t, src, p, exclusiveHih, now);
    PinsUndone(t, src, p, c, exclusiveHih);
    TargetKeptIff(t, src, p, c, exclusiveHih);
    FounderIffFounds(t, src, p, c, exclusiveHih);
    PinnedFrame(t, src, p, c, exclusiveHih);
    RemoveOpened(t, pinned, c, t.lastId + 1);
  }

  /** Removing a connection that was just filed: only the pins matter. */
  lemma RemoveOpened(t: Table, pinned: Table, c: Conn, id: nat)
    requires id !in t.conns && NoClash(t.trees, c) && c.targetPin.None?
    requires pinned.trees == t.trees && pinned.conns == t.conns
    ensures Remove(Filed(pinned, c, id), id)
            == Table(t.trees, Returned(pinned.commPins, c, false), pinned.targetPins, pinned.freed,
                     Returned(pinned.intraPins, c, true),
                     if IsFounder(pinned.intraPins, id, c) then pinned.misfreed + {id} else pinned.misfreed,
                     t.conns, id)
  {
    assert t.conns[id := c] - {id} == t.conns;
    FileEntries(t.trees, Slots(c), id);
    UnfileEntries(File(t.trees, Slots(c), id), Slots(c));
    assert Unfile(File(t.trees, Slots(c), id), Slots(c)) == t.trees;
  }
}

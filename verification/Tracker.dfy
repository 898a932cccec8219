/** The trees of `connections.c` as the gateway keeps them: updated in place, entry by entry. */
module Tracker {
  import opened Words
  import opened Keys
  import opened Tracking

  /** The contents of the six connection trees. */
  datatype Trees = Trees(ext1: map<ConnKey, nat>, ext2: map<ConnKey, nat>, int1: map<ConnKey, nat>,
                         int2: map<ConnKey, nat>, intra1: map<ConnKey, nat>, intra2: map<ConnKey, nat>)

  function At(f: Trees, tree: Tree): map<ConnKey, nat> {
    match tree
    case Ext1 => f.ext1
    case Ext2 => f.ext2
    case Int1 => f.int1
    case Int2 => f.int2
    case Intra1 => f.intra1
    case Intra2 => f.intra2
  }

  function With(f: Trees, tree: Tree, m: map<ConnKey, nat>): Trees {
    match tree
    case Ext1 => f.(ext1 := m)
    case Ext2 => f.(ext2 := m)
    case Int1 => f.(int1 := m)
    case Int2 => f.(int2 := m)
    case Intra1 => f.(intra1 := m)
    case Intra2 => f.(intra2 := m)
  }

  ghost function Domain(f: Trees): set<Slot> {
    set tree, k | tree in {Ext1, Ext2, Int1, Int2, Intra1, Intra2} && k in At(f, tree) :: (tree, k)
  }

  /** The six trees as one map from tree and key. */
  ghost function Flatten(f: Trees): map<Slot, nat> {
    map s | s in Domain(f) :: At(f, s.0)[s.1]
  }

  lemma FlattenEntry(f: Trees, s: Slot)
    ensures s in Flatten(f) <==> s.1 in At(f, s.0)
    ensures s in Flatten(f) ==> Flatten(f)[s] == At(f, s.0)[s.1]
  {
  }

  lemma AtWith(f: Trees, tree: Tree, m: map<ConnKey, nat>, other: Tree)
    ensures At(With(f, tree, m), other) == if other == tree then m else At(f, other)
  {
  }

  lemma FlattenInsert(f: Trees, tree: Tree, k: ConnKey, id: nat)
    ensures Flatten(With(f, tree, At(f, tree)[k := id])) == Flatten(f)[(tree, k) := id]
  {
    var m := At(f, tree)[k := id];
    var a, b := Flatten(With(f, tree, m)), Flatten(f)[(tree, k) := id];
    forall s: Slot ensures (s in a <==> s in b) && (s in a ==> a[s] == b[s]) {
      AtWith(f, tree, m, s.0);
      FlattenEntry(f, s);
      FlattenEntry(With(f, tree, m), s);
    }
  }

  lemma FlattenRemove(f: Trees, tree: Tree, k: ConnKey)
    ensures Flatten(With(f, tree, At(f, tree) - {k})) == Flatten(f) - {(tree, k)}
  {
    var m := At(f, tree) - {k};
    var a, b := Flatten(With(f, tree, m)), Flatten(f) - {(tree, k)};
    forall s: Slot ensures (s in a <==> s in b) && (s in a ==> a[s] == b[s]) {
      AtWith(f, tree, m, s.0);
      FlattenEntry(f, s);
      FlattenEntry(With(f, tree, m), s);
    }
  }

  /** `File` of two entries, as two insertions. */
  lemma FileTwo(trees: map<Slot, nat>, a: Slot, b: Slot, id: nat)
    ensures File(trees, [a, b], id) == trees[a := id][b := id]
    ensures File(trees, [a], id) == trees[a := id]
  {
    assert [a, b][1..] == [b];
    assert File(trees[a := id], [b], id) == trees[a := id][b := id];
  }

  /** `Unfile` of two entries, as removals. */
  lemma UnfileTwo(trees: map<Slot, nat>, a: Slot, b: Slot)
    ensures Unfile(trees, [a, b]) == trees - {a} - {b}
    ensures Unfile(trees, [a]) == trees - {a}
  {
    assert [a, b][1..] == [b];
    assert Unfile(trees - {a}, [b]) == trees - {a} - {b};
  }

  lemma {:induction false} UnfileAppend(trees: map<Slot, nat>, slots: seq<Slot>, s: Slot)
    ensures Unfile(trees, slots + [s]) == Unfile(trees, slots) - {s}
    decreases |slots|
  {
    if slots == [] {
      assert [] + [s] == [s] && Unfile(trees - {s}, [s][1..]) == trees - {s};
    } else {
      assert (slots + [s])[1..] == slots[1..] + [s];
      UnfileAppend(trees - {slots[0]}, slots[1..], s);
    }
  }

  /** Keys in traversal order: every key of the tree, once. */
  ghost predicate Traversal(order: seq<ConnKey>, m: map<ConnKey, nat>) {
    (forall k :: k in order <==> k in m) && NoRepeats(order)
  }

  ghost predicate NoRepeats<T>(s: seq<T>) {
    forall i, j | 0 <= i < j < |s| :: s[i] != s[j]
  }

  /** `expire_conn`'s test; no connection is ever in a state before INIT. */
  predicate Expired(c: Conn, now: int, delay: int) {
    now - c.accessTime > delay
  }

  /** The one traversed tree a connection is listed in, and under which key. */
  function ListedIn(c: Conn): Tree {
    match c.kind
    case Inbound => Ext1
    case Outbound => Int2
    case Internal => Intra1
  }

  function ListedKey(c: Conn): ConnKey {
    if c.kind.Internal? then IntKey(c) else OuterKey(c)
  }

  lemma ListedOnce(c: Conn, tree: Tree, k: ConnKey)
    requires tree in [Ext1, Int2, Intra1]
    ensures (tree, k) in Slots(c) <==> tree == ListedIn(c) && k == ListedKey(c)
  {
  }

  class Tracker {
    var extTree1: map<ConnKey, nat>
    var extTree2: map<ConnKey, nat>
    var intTree1: map<ConnKey, nat>
    var intTree2: map<ConnKey, nat>
    var intraTree1: map<ConnKey, nat>
    var intraTree2: map<ConnKey, nat>
    var commPinTree: map<PinKey, Pin>
    var targetPinTree: map<PinKey, Pin>
    var intraPinTree: map<PinKey, Pin>
    /** Entries of the target pin tree whose pin and key have been freed. */
    ghost var dangling: set<PinKey>
    /** The connections that were freed with a key of the internal pin tree. */
    ghost var misfreed: set<nat>
    var conns: map<nat, Conn>
    var cId: nat
    const exclusiveHih: bool

    ghost function Fields(): Trees
      reads this
    {
      Trees(extTree1, extTree2, intTree1, intTree2, intraTree1, intraTree2)
    }

    /** The table this object holds. */
    ghost function Abs(): Table
      reads this
    {
      Table(Flatten(Fields()), commPinTree, targetPinTree, dangling, intraPinTree, misfreed, conns, cId)
    }

    constructor (exclusiveHih: bool)
      ensures Abs() == Empty() && this.exclusiveHih == exclusiveHih
    {
      extTree1, extTree2, intTree1, intTree2, intraTree1, intraTree2 := map[], map[], map[], map[], map[], map[];
      commPinTree, targetPinTree, intraPinTree := map[], map[], map[];
      dangling, misfreed := {}, {};
      conns, cId := map[], 0;
      this.exclusiveHih := exclusiveHih;
      new;
      assert Flatten(Fields()) == map[];
    }

    method FileExt(k1: ConnKey, k2: ConnKey, id: nat)
      modifies this`extTree1, this`extTree2
      ensures Flatten(Fields()) == File(old(Flatten(Fields())), [(Ext1, k1), (Ext2, k2)], id)
    {
      ghost var before := Fields();
      FlattenInsert(before, Ext1, k1, id);
      extTree1 := extTree1[k1 := id];
      ghost var between := Fields();
      assert between == With(before, Ext1, At(before, Ext1)[k1 := id]);
      FlattenInsert(between, Ext2, k2, id);
      extTree2 := extTree2[k2 := id];
      assert Fields() == With(between, Ext2, At(between, Ext2)[k2 := id]);
      FileTwo(Flatten(before), (Ext1, k1), (Ext2, k2), id);
    }

    method UnfileExt(k1: ConnKey, k2: ConnKey)
      modifies this`extTree1, this`extTree2
      ensures Flatten(Fields()) == Unfile(old(Flatten(Fields())), [(Ext1, k1), (Ext2, k2)])
    {
      ghost var before := Fields();
      FlattenRemove(before, Ext1, k1);
      extTree1 := extTree1 - {k1};
      ghost var between := Fields();
      assert between == With(before, Ext1, At(before, Ext1) - {k1});
      FlattenRemove(between, Ext2, k2);
      extTree2 := extTree2 - {k2};
      assert Fields() == With(between, Ext2, At(between, Ext2) - {k2});
      UnfileTwo(Flatten(before), (Ext1, k1), (Ext2, k2));
    }

    method FileInt(k1: ConnKey, k2: ConnKey, id: nat)
      modifies this`intTree1, this`intTree2
      ensures Flatten(Fields()) == File(old(Flatten(Fields())), [(Int1, k1), (Int2, k2)], id)
    {
      ghost var before := Fields();
      FlattenInsert(before, Int1, k1, id);
      intTree1 := intTree1[k1 := id];
      ghost var between := Fields();
      assert between == With(before, Int1, At(before, Int1)[k1 := id]);
      FlattenInsert(between, Int2, k2, id);
      intTree2 := intTree2[k2 := id];
      assert Fields() == With(between, Int2, At(between, Int2)[k2 := id]);
      FileTwo(Flatten(before), (Int1, k1), (Int2, k2), id);
    }

    method UnfileInt(k1: ConnKey, k2: ConnKey)
      modifies this`intTree1, this`intTree2
      ensures Flatten(Fields()) == Unfile(old(Flatten(Fields())), [(Int1, k1), (Int2, k2)])
    {
      ghost var before := Fields();
      FlattenRemove(before, Int1, k1);
      intTree1 := intTree1 - {k1};
      ghost var between := Fields();
      assert between == With(before, Int1, At(before, Int1) - {k1});
      FlattenRemove(between, Int2, k2);
      intTree2 := intTree2 - {k2};
      assert Fields() == With(between, Int2, At(between, Int2) - {k2});
      UnfileTwo(Flatten(before), (Int1, k1), (Int2, k2));
    }

    method FileIntra(k1: ConnKey, k2: ConnKey, id: nat)
      modifies this`intraTree1, this`intraTree2
      ensures Flatten(Fields()) == File(old(Flatten(Fields())), [(Intra1, k1), (Intra2, k2)], id)
    {
      ghost var before := Fields();
      FlattenInsert(before, Intra1, k1, id);
      intraTree1 := intraTree1[k1 := id];
      ghost var between := Fields();
      assert between == With(before, Intra1, At(before, Intra1)[k1 := id]);
      FlattenInsert(between, Intra2, k2, id);
      intraTree2 := intraTree2[k2 := id];
      assert Fields() == With(between, Intra2, At(between, Intra2)[k2 := id]);
      FileTwo(Flatten(before), (Intra1, k1), (Intra2, k2), id);
    }

    method UnfileIntra(k1: ConnKey, k2: ConnKey)
      modifies this`intraTree1, this`intraTree2
      ensures Flatten(Fields()) == Unfile(old(Flatten(Fields())), [(Intra1, k1), (Intra2, k2)])
    {
      ghost var before := Fields();
      FlattenRemove(before, Intra1, k1);
      intraTree1 := intraTree1 - {k1};
      ghost var between := Fields();
      assert between == With(before, Intra1, At(before, Intra1) - {k1});
      FlattenRemove(between, Intra2, k2);
      intraTree2 := intraTree2 - {k2};
      assert Fields() == With(between, Intra2, At(between, Intra2) - {k2});
      UnfileTwo(Flatten(before), (Intra1, k1), (Intra2, k2));
    }

    /** `conn_lookup`, up to the locking. */
    method ConnLookup(p: Packet) returns (r: Option<nat>)
      ensures r == Lookup(Abs(), p)
    {
      var key := PacketKey(p);
      assert Order(p)[1..] == if p.uplink then [Int2] else [Int1, Intra1, Intra2];
      assert [Int1, Intra1, Intra2][1..] == [Intra1, Intra2] && [Intra1, Intra2][1..] == [Intra2];
      FindUnrolled(Flatten(Fields()), key);
      forall tree ensures (tree, key) in Flatten(Fields()) <==> key in At(Fields(), tree)
        ensures key in At(Fields(), tree) ==> Flatten(Fields())[(tree, key)] == At(Fields(), tree)[key]
      {
        FlattenEntry(Fields(), (tree, key));
      }
      if p.uplink {
        if key in extTree1 {
          return Some(extTree1[key]);
        }
        if key in intTree2 {
          return Some(intTree2[key]);
        }
      } else {
        if key in extTree2 {
          return Some(extTree2[key]);
        }
        if key in intTree1 {
          return Some(intTree1[key]);
        }
        if key in intraTree1 {
          return Some(intraTree1[key]);
        }
        if key in intraTree2 {
          return Some(intraTree2[key]);
        }
      }
      return None;
    }

    /** `create_conn`: decide, then pin and file in the branch of the packet's origin. */
    method CreateConn(src: Source, p: Packet, now: int) returns (id: Option<nat>)
      requires exclusiveHih && src.FromHih? && KindOf(src, p).Outbound? && Admitted(Abs(), src, p) ==>
               SnatPin(src, p, true) !in dangling
      modifies this
      ensures (Abs(), id) == Create(old(Abs()), src, p, exclusiveHih, now)
    {
      if p.protocol == TCP && !p.syn {
        return None;
      }
      cId := cId + 1;
      match src
      case FromExt(tg) =>
        id := OpenInbound(src, p, now);
      case FromLih(tg) =>
        if p.dstIp in tg.intras || p.dstIp in tg.backIps {
          return None;
        }
        id := OpenFromLih(src, p, now);
      case FromHih(tg, back) =>
        if p.dstIp in tg.intras {
          id := OpenInternal(src, p, now);
        } else if p.dstIp == tg.front.ip || p.dstIp in tg.backIps {
          return None;
        } else {
          id := OpenFromHih(src, p, now);
        }
    }

    /** A new connection from outside: comm pin, then `ext_tree1` and `ext_tree2`. */
    method OpenInbound(src: Source, p: Packet, now: int) returns (id: Option<nat>)
      requires src.FromExt? && cId > 0 && !(p.protocol == TCP && !p.syn)
      modifies this
      ensures (Abs(), id) == Create(old(Abs()).(lastId := old(cId) - 1), src, p, exclusiveHih, now)
    {
      var front := src.target.front;
      var pinKey := HoldCommPin(p, front);
      var c := Conn(Inbound, p.protocol, p.srcIp, p.srcPort, p.dstIp, p.dstPort, front, None, 0, Some(pinKey),
                    None, None, now);
      FileExt(OuterKey(c), IntKey(c), cId);
      assert Slots(c) == [(Ext1, OuterKey(c)), (Ext2, IntKey(c))];
      conns := conns[cId := c];
      id := Some(cId);
    }

    /** The target address is pinned to the front handler, under a copy of the connection's key. */
    method HoldCommPin(p: Packet, front: Handler) returns (pinKey: PinKey)
      modifies this`commPinTree
      ensures pinKey == PinKey(p.dstIp, front.ip, front.vlan)
              && commPinTree == Hold(old(commPinTree), pinKey, p.dstIp, 0)
    {
      pinKey := PinKey(p.dstIp, front.ip, front.vlan);
      if pinKey !in commPinTree {
        commPinTree := commPinTree[pinKey := Pin(p.dstIp, 1, 0)];
      } else {
        commPinTree := commPinTree[pinKey := commPinTree[pinKey].(count := commPinTree[pinKey].count + 1)];
      }
    }

    /**
     * The low-interaction honeypot calling out: share the comm pin that decides its source address, if there is one.
     */
    method OpenFromLih(src: Source, p: Packet, now: int) returns (id: Option<nat>)
      requires src.FromLih? && cId > 0 && Admitted(Abs(), src, p)
      modifies this
      ensures (Abs(), id) == Create(old(Abs()).(lastId := old(cId) - 1), src, p, exclusiveHih, now)
    {
      var snatTo, pinKey := ShareCommPin(p, src.target);
      var c := Conn(Outbound, p.protocol, p.srcIp, p.srcPort, p.dstIp, p.dstPort, src.target.front, None, snatTo,
                    pinKey, None, None, now);
      FileInt(IntKey(c), OuterKey(c), cId);
      conns := conns[cId := c];
      id := Some(cId);
    }

    /** A backend calling out: an exclusive one shares its target pin instead. */
    method OpenFromHih(src: Source, p: Packet, now: int) returns (id: Option<nat>)
      requires src.FromHih? && p.dstIp !in src.target.intras && cId > 0 && Admitted(Abs(), src, p)
      modifies this
      ensures (Abs(), id) == Create(old(Abs()).(lastId := old(cId) - 1), src, p, exclusiveHih, now)
    {
      var snatTo, pinKey;
      if exclusiveHih {
        snatTo, pinKey := ShareTargetPin(src.target, src.back);
      } else {
        snatTo, pinKey := ShareCommPin(p, src.target);
      }
      var c := Conn(Outbound, p.protocol, p.srcIp, p.srcPort, p.dstIp, p.dstPort, src.back, None, snatTo, pinKey,
                    None, None, now);
      FileInt(IntKey(c), OuterKey(c), cId);
      conns := conns[cId := c];
      id := Some(cId);
    }

    method ShareCommPin(p: Packet, tg: Target) returns (snatTo: U32, pinKey: Option<PinKey>)
      modifies this`commPinTree
      ensures var k, pins := PinKey(p.dstIp, tg.front.ip, tg.front.vlan), old(commPinTree);
              && commPinTree == Share(pins, k)
              && (pinKey, snatTo) == if k in pins then (Some(k), pins[k].ip) else (None, tg.defaultIp)
    {
      var k := PinKey(p.dstIp, tg.front.ip, tg.front.vlan);
      snatTo, pinKey := tg.defaultIp, None;
      if k in commPinTree {
        snatTo, pinKey := commPinTree[k].ip, Some(k);
        commPinTree := commPinTree[k := commPinTree[k].(count := commPinTree[k].count + 1)];
      }
    }

    method ShareTargetPin(tg: Target, back: Handler) returns (snatTo: U32, pinKey: Option<PinKey>)
      modifies this`targetPinTree
      ensures var k, pins := PinKey(0, back.ip, back.vlan), old(targetPinTree);
              && targetPinTree == Share(pins, k)
              && (pinKey, snatTo) == if k in pins then (Some(k), pins[k].ip) else (None, tg.defaultIp)
    {
      var k := PinKey(0, back.ip, back.vlan);
      snatTo, pinKey := tg.defaultIp, None;
      if k in targetPinTree {
        snatTo, pinKey := targetPinTree[k].ip, Some(k);
        targetPinTree := targetPinTree[k := targetPinTree[k].(count := targetPinTree[k].count + 1)];
      }
    }

    /** A backend calling an internal target: exclusive handlers are pinned, then `intra_tree1` and `intra_tree2`. */
    method OpenInternal(src: Source, p: Packet, now: int) returns (id: Option<nat>)
      requires KindOf(src, p).Internal? && cId > 0 && !(p.protocol == TCP && !p.syn)
      modifies this
      ensures (Abs(), id) == Create(old(Abs()).(lastId := old(cId) - 1), src, p, exclusiveHih, now)
    {
      var h := src.target.intras[p.dstIp];
      var free, pinKey := PinInternal(p, h);
      if !free {
        return None;
      }
      var c := Conn(Internal, p.protocol, p.srcIp, p.srcPort, p.dstIp, p.dstPort, src.back, Some(h), 0, pinKey, None,
                    None, now);
      FileIntra(IntKey(c), OuterKey(c), cId);
      conns := conns[cId := c];
      id := Some(cId);
    }

    /** The pin of an exclusive internal handler: made with the new connection's own key, or shared, or refused. */
    method PinInternal(p: Packet, h: Handler) returns (free: bool, pinKey: Option<PinKey>)
      modifies this`intraPinTree
      ensures free == IntraFree(old(Abs()), p, h)
      ensures pinKey == if h.exclusive then Some(IntraPin(p, h)) else None
      ensures intraPinTree == if free && h.exclusive then Hold(old(intraPinTree), IntraPin(p, h), p.dstIp, cId)
                              else old(intraPinTree)
    {
      if !h.exclusive {
        return true, None;
      }
      var k := PinKey(p.srcIp, h.ip, h.vlan);
      if k !in intraPinTree {
        intraPinTree := intraPinTree[k := Pin(p.dstIp, 1, cId)];
      } else {
        if intraPinTree[k].ip != p.dstIp {
          return false, Some(k);
        }
        intraPinTree := intraPinTree[k := intraPinTree[k].(count := intraPinTree[k].count + 1)];
      }
      return true, Some(k);
    }

    /** The tree work of `setup_redirection`: the target pin of an exclusive backend, then the new reply key. */
    method SetupRedirection(id: nat, back: Handler) returns (ok: bool)
      requires id in conns && (exclusiveHih ==> TargetPinKey(back) !in dangling)
      modifies this
      ensures (Abs(), ok) == Redirect(old(Abs()), id, back, exclusiveHih)
    {
      var c := conns[id];
      var targetPin := None;
      if exclusiveHih {
        var k := PinKey(0, back.ip, back.vlan);
        if k in targetPinTree {
          if targetPinTree[k].ip != c.dstIp {
            return false;
          }
          targetPinTree := targetPinTree[k := targetPinTree[k].(count := targetPinTree[k].count + 1)];
        } else {
          targetPinTree := targetPinTree[k := Pin(c.dstIp, 1, 0)];
        }
        targetPin := Some(k);
      }
      FlattenInsert(Fields(), Ext2, ReplyKey(c, back), id);
      FileTwo(Flatten(Fields()), (Ext2, ReplyKey(c, back)), (Ext2, ReplyKey(c, back)), id);
      extTree2 := extTree2[ReplyKey(c, back) := id];
      conns := conns[id := c.(redirect := Some(back), targetPin := targetPin)];
      ok := true;
    }

    /** `update_conn`, its effect on expiry. */
    method UpdateConn(id: nat, now: int)
      requires id in conns
      modifies this
      ensures Abs() == Update(old(Abs()), id, now)
    {
      conns := conns[id := conns[id].(accessTime := now)];
    }

    /** `remove_conn` once the connection is locked. */
    method RemoveConn(id: nat)
      requires id in conns
      modifies this
      ensures Abs() == Remove(old(Abs()), id)
    {
      var c := conns[id];
      ghost var shared := IsFounder(intraPinTree, id, c);
      UnfileConn(c);
      ReleasePins(c);
      FreeConn(id, shared);
    }

    /** `free_conn`: the connection goes, and its pin key with it, be it the internal pin tree's or not. */
    method FreeConn(id: nat, ghost shared: bool)
      modifies this`conns, this`misfreed
      ensures Abs() == Freed(old(Abs()), id, shared)
    {
      conns := conns - {id};
      if shared {
        misfreed := misfreed + {id};
      }
    }

    method ReleasePins(c: Conn)
      modifies this`commPinTree, this`intraPinTree, this`targetPinTree, this`dangling
      ensures Abs() == PinsReleased(old(Abs()), c)
    {
      if c.kind.Internal? {
        intraPinTree := Release(intraPinTree, c.pinKey);
      } else {
        ReleaseCommPin(c.pinKey);
      }
      ReleaseTargetPin(c.targetPin, c.pinKey);
    }

    /** Take a connection's entries out of the trees of its kind. */
    method UnfileConn(c: Conn)
      modifies this`extTree1, this`extTree2, this`intTree1, this`intTree2, this`intraTree1, this`intraTree2
      ensures Abs() == old(Abs()).(trees := Unfile(old(Abs()).trees, Slots(c)))
    {
      if c.kind.Inbound? {
        UnfileExt(OuterKey(c), IntKey(c));
        ghost var own := [(Ext1, OuterKey(c)), (Ext2, IntKey(c))];
        assert own + [] == own;
        if c.redirect.Some? {
          UnfileRedirect(ReplyKey(c, c.redirect.value));
          UnfileAppend(old(Flatten(Fields())), own, (Ext2, ReplyKey(c, c.redirect.value)));
        }
      } else if c.kind.Outbound? {
        UnfileInt(IntKey(c), OuterKey(c));
      } else {
        UnfileIntra(IntKey(c), OuterKey(c));
      }
    }

    method UnfileRedirect(k: ConnKey)
      modifies this`extTree2
      ensures Flatten(Fields()) == old(Flatten(Fields())) - {(Ext2, k)}
    {
      FlattenRemove(Fields(), Ext2, k);
      extTree2 := extTree2 - {k};
    }

    method ReleaseCommPin(k: Option<PinKey>)
      modifies this`commPinTree
      ensures commPinTree == Release(old(commPinTree), k)
    {
      if k.Some? && k.value in commPinTree {
        var left := if commPinTree[k.value].count == 0 then 0xFFFF_FFFF_FFFF_FFFF else commPinTree[k.value].count - 1;
        commPinTree := commPinTree[k.value := commPinTree[k.value].(count := left)];
        if left == 0 {
          commPinTree := commPinTree - {k.value};
        }
      }
    }

    /** The target pin: at zero `g_tree_remove` under the other key, then `free_pin`, wherever its entry may be. */
    method ReleaseTargetPin(k: Option<PinKey>, under: Option<PinKey>)
      modifies this`targetPinTree, this`dangling
      ensures targetPinTree == LeftPins(old(targetPinTree), k, under)
      ensures dangling == LeftFreed(old(targetPinTree), old(dangling), k, under)
    {
      if k.Some? && k.value in targetPinTree {
        var left := if targetPinTree[k.value].count == 0 then 0xFFFF_FFFF_FFFF_FFFF
            else targetPinTree[k.value].count - 1;
        targetPinTree := targetPinTree[k.value := targetPinTree[k.value].(count := left)];
        if left == 0 {
          if under.Some? {
            targetPinTree, dangling := targetPinTree - {under.value}, dangling - {under.value};
          }
          if k.value in targetPinTree {
            targetPinTree, dangling := targetPinTree - {k.value}, dangling + {k.value};
          }
        }
      }
    }

    /**
     * The collecting traversals of `clean`: one pass over each of `ext_tree1`, `int_tree2` and
     * `intra_tree1`, in the trees' own orders, gathering every connection idle for longer than `delay`.
     */
    method CollectExpired(order1: seq<ConnKey>, order2: seq<ConnKey>, order3: seq<ConnKey>, now: int, delay: int)
      returns (entries: seq<nat>)
      requires Indexed(Abs())
      requires Traversal(order1, extTree1) && Traversal(order2, intTree2) && Traversal(order3, intraTree1)
      ensures NoRepeats(entries)
      ensures forall id :: id in entries <==> id in conns && Expired(conns[id], now, delay)
    {
      entries := [];
      entries := CollectFrom(Ext1, order1, extTree1, now, delay, entries, []);
      entries := CollectFrom(Int2, order2, intTree2, now, delay, entries, [Ext1]);
      entries := CollectFrom(Intra1, order3, intraTree1, now, delay, entries, [Ext1, Int2]);
      forall id | id in conns ensures ListedIn(conns[id]) in [Ext1, Int2, Intra1] {
      }
    }

    /** `g_tree_foreach` with `expire_conn` over one tree. */
    method CollectFrom(tree: Tree, order: seq<ConnKey>, m: map<ConnKey, nat>, now: int, delay: int,
                       entries: seq<nat>, ghost done: seq<Tree>)
      returns (r: seq<nat>)
      requires Indexed(Abs()) && m == At(Fields(), tree) && Traversal(order, m)
      requires tree in [Ext1, Int2, Intra1] && tree !in done
      requires NoRepeats(entries)
      requires forall id :: id in entries <==>
               id in conns && Expired(conns[id], now, delay) && ListedIn(conns[id]) in done
      ensures NoRepeats(r)
      ensures forall id :: id in r <==>
              id in conns && Expired(conns[id], now, delay) && ListedIn(conns[id]) in done + [tree]
    {
      forall k, id ensures k in m && m[k] == id <==>
        id in conns && tree == ListedIn(conns[id]) && k == ListedKey(conns[id]) {
        FlattenEntry(Fields(), (tree, k));
        assert Holds(Flatten(Fields()), (tree, k), id) <==> Owns(conns, (tree, k), id);
        if id in conns {
          ListedOnce(conns[id], tree, k);
        }
      }
      r := entries;
      var i := 0;
      while i < |order|
        invariant 0 <= i <= |order| && NoRepeats(r)
        invariant forall id :: id in r <==>
                    id in conns && Expired(conns[id], now, delay)
                    && (ListedIn(conns[id]) in done
                        || (ListedIn(conns[id]) == tree && ListedKey(conns[id]) in order[..i]))
      {
        var id := m[order[i]];
        assert order[i] !in order[..i];
        if now - conns[id].accessTime > delay {
          r := r + [id];
        }
        assert order[..i + 1] == order[..i] + [order[i]];
        i := i + 1;
      }
      assert order[..i] == order;
    }

    /** The second half of `clean`: remove every collected connection whose lock is free. */
    method RemoveCollected(entries: seq<nat>, locked: set<nat>)
      requires Indexed(Abs()) && NoRepeats(entries) && forall id | id in entries :: id in conns
      modifies this
      ensures Indexed(Abs())
      ensures conns == old(conns) - (set id | id in entries && id !in locked)
    {
      var i := 0;
      while i < |entries|
        invariant 0 <= i <= |entries| && Indexed(Abs())
        invariant conns == old(conns) - (set id | id in entries[..i] && id !in locked)
      {
        var id := entries[i];
        assert id !in entries[..i] && id in conns;
        assert entries[..i + 1] == entries[..i] + [id];
        ghost var gone := set x | x in entries[..i] && x !in locked;
        if id !in locked {
          RemoveKeepsIndex(Abs(), id);
          RemoveConn(id);
          assert (set x | x in entries[..i + 1] && x !in locked) == gone + {id};
        } else {
          assert (set x | x in entries[..i + 1] && x !in locked) == gone;
        }
        i := i + 1;
      }
      assert entries[..i] == entries;
    }
  }

  lemma FindUnrolled(trees: map<Slot, nat>, k: ConnKey)
    ensures Find(trees, [Ext1, Int2], k) ==
            if (Ext1, k) in trees then Some(trees[(Ext1, k)])
            else if (Int2, k) in trees then Some(trees[(Int2, k)]) else None
    ensures Find(trees, [Ext2, Int1, Intra1, Intra2], k) ==
            if (Ext2, k) in trees then Some(trees[(Ext2, k)])
            else if (Int1, k) in trees then Some(trees[(Int1, k)])
            else if (Intra1, k) in trees then Some(trees[(Intra1, k)])
            else if (Intra2, k) in trees then Some(trees[(Intra2, k)]) else None
  {
    assert [Ext1, Int2][1..] == [Int2] && [Ext2, Int1, Intra1, Intra2][1..] == [Int1, Intra1, Intra2];
    assert [Int1, Intra1, Intra2][1..] == [Intra1, Intra2] && [Intra1, Intra2][1..] == [Intra2];
    FindOne(trees, Int2, k);
    FindOne(trees, Intra2, k);
    assert Find(trees, [Int1, Intra1, Intra2], k) ==
           if (Int1, k) in trees then Some(trees[(Int1, k)]) else Find(trees, [Intra1, Intra2], k);
  }

  lemma FindOne(trees: map<Slot, nat>, tree: Tree, k: ConnKey)
    ensures Find(trees, [tree], k) == if (tree, k) in trees then Some(trees[(tree, k)]) else None
  {
    assert Find(trees, [tree][1..], k) == None;
  }
}

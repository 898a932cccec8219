/** The packed keys of the connection and pin trees, and the order the trees keep them in. */
module Keys {
  import opened Words

  datatype ConnKey = ConnKey(protocol: U8, srcIp: U32, srcPort: U16, dstIp: U32, dstPort: U16, vlan: U12)

  datatype PinKey = PinKey(targetIp: U32, handlerIp: U32, vlan: U12)

  /** Two fields packed next to each other, the first in the low bits. */
  function Join(low: nat, width: nat, high: nat): nat
    requires low < width
  {
    low + width * high
  }

  lemma JoinInjective(low: nat, width: nat, high: nat, low': nat, high': nat)
    requires low < width && low' < width && Join(low, width, high) == Join(low', width, high')
    ensures low == low' && high == high'
  {
    if high < high' {
      Spread(width, high, high');
    } else if high' < high {
      Spread(width, high', high);
    }
  }

  lemma {:induction false} Spread(width: nat, a: nat, b: nat)
    requires a < b
    ensures width * b >= width * a + width
  {
    if a + 1 < b {
      Spread(width, a, b - 1);
    }
    assert width * b == width * (b - 1) + width;
  }

  /** The 116 bits of a connection key as the 128-bit integer that overlays them. */
  function Pack(k: ConnKey): nat {
    Join(k.protocol, 0x100, Join(k.srcIp, 0x1_0000_0000, Join(k.srcPort, 0x1_0000,
      Join(k.dstIp, 0x1_0000_0000, Join(k.dstPort, 0x1_0000, k.vlan)))))
  }

  /** The 76 bits of a pin key. */
  function PackPin(k: PinKey): nat {
    Join(k.targetIp, 0x1_0000_0000, Join(k.handlerIp, 0x1_0000_0000, k.vlan))
  }

  lemma PackInjective(a: ConnKey, b: ConnKey)
    ensures Pack(a) == Pack(b) <==> a == b
  {
    if Pack(a) == Pack(b) {
      var a4, b4 := Join(a.dstPort, 0x1_0000, a.vlan), Join(b.dstPort, 0x1_0000, b.vlan);
      var a3, b3 := Join(a.dstIp, 0x1_0000_0000, a4), Join(b.dstIp, 0x1_0000_0000, b4);
      var a2, b2 := Join(a.srcPort, 0x1_0000, a3), Join(b.srcPort, 0x1_0000, b3);
      var a1, b1 := Join(a.srcIp, 0x1_0000_0000, a2), Join(b.srcIp, 0x1_0000_0000, b2);
      JoinInjective(a.protocol, 0x100, a1, b.protocol, b1);
      JoinInjective(a.srcIp, 0x1_0000_0000, a2, b.srcIp, b2);
      JoinInjective(a.srcPort, 0x1_0000, a3, b.srcPort, b3);
      JoinInjective(a.dstIp, 0x1_0000_0000, a4, b.dstIp, b4);
      JoinInjective(a.dstPort, 0x1_0000, a.vlan, b.dstPort, b.vlan);
    }
  }

  lemma PackPinInjective(a: PinKey, b: PinKey)
    ensures PackPin(a) == PackPin(b) <==> a == b
  {
    if PackPin(a) == PackPin(b) {
      var a1, b1 := Join(a.handlerIp, 0x1_0000_0000, a.vlan), Join(b.handlerIp, 0x1_0000_0000, b.vlan);
      JoinInjective(a.targetIp, 0x1_0000_0000, a1, b.targetIp, b1);
      JoinInjective(a.handlerIp, 0x1_0000_0000, a.vlan, b.handlerIp, b.vlan);
    }
  }

  /** `conn_key_cmp`: descending order of the packed integers. */
  function ConnKeyCmp(a: ConnKey, b: ConnKey): int {
    if Pack(a) < Pack(b) then 1 else if Pack(a) == Pack(b) then 0 else -1
  }

  /** `pincmp` */
  function PinCmp(a: PinKey, b: PinKey): int {
    if PackPin(a) < PackPin(b) then 1 else if PackPin(a) == PackPin(b) then 0 else -1
  }

  /** The comparison is a total order whose ties are equal keys, so a tree over it is a map over keys. */
  lemma ConnKeyOrder(a: ConnKey, b: ConnKey, c: ConnKey)
    ensures ConnKeyCmp(a, b) == 0 <==> a == b
    ensures ConnKeyCmp(a, b) == -ConnKeyCmp(b, a)
    ensures ConnKeyCmp(a, b) >= 0 && ConnKeyCmp(b, c) >= 0 ==> ConnKeyCmp(a, c) >= 0
  {
    PackInjective(a, b);
  }

  lemma PinKeyOrder(a: PinKey, b: PinKey, c: PinKey)
    ensures PinCmp(a, b) == 0 <==> a == b
    ensures PinCmp(a, b) == -PinCmp(b, a)
    ensures PinCmp(a, b) >= 0 && PinCmp(b, c) >= 0 ==> PinCmp(a, c) >= 0
  {
    PackPinInjective(a, b);
  }

  /** A packed connection key uses 116 of the 128 bits. */
  lemma PackFits(k: ConnKey)
    ensures Pack(k) < 0x10_0000_0000_0000_0000_0000_0000_0000
  {
    var a4 := Join(k.dstPort, 0x1_0000, k.vlan);
    var a3 := Join(k.dstIp, 0x1_0000_0000, a4);
    var a2 := Join(k.srcPort, 0x1_0000, a3);
    var a1 := Join(k.srcIp, 0x1_0000_0000, a2);
    assert a4 < 0x1000_0000 && a3 < 0x1000_0000_0000_0000;
  }
}

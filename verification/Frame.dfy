/** The Ethernet frame around a datagram: address rewriting and 802.1Q tags inserted and stripped in place. */
module Frame {
  import opened Words
  import opened Checksum

  /** Tag control information, as its two bytes lie in memory. */
  datatype Tci = Tci(first: U8, second: U8)

  /** The bit field `vid` of `struct vlan_tci`, allocated from the low end on a little-endian machine. */
  function Vid(e: Endian, t: Tci): U12 {
    if e.Little? then Load(e, t.first, t.second) / 0x10 else Load(e, t.first, t.second) % 0x1000
  }

  /** The two fields of a tag that IEEE 802.1Q puts there: twelve bits of VLAN identifier below four of priority. */
  function VlanId(t: Tci): U12 {
    t.first % 16 * 256 + t.second
  }

  function Priority(t: Tci): nat {
    t.first / 16
  }

  lemma Nibbles(high: nat, low: nat)
    requires low < 16
    ensures (16 * high + low) / 16 == high && (16 * high + low) % 16 == low
  {
  }

  lemma LowByte(high: nat, low: nat)
    requires low < 256
    ensures (256 * high + low) % 256 == low
  {
  }

  lemma LowTwelve(high: nat, low: nat)
    requires low < 4096
    ensures (4096 * high + low) % 4096 == low
  {
  }

  lemma VidBig(t: Tci)
    ensures Vid(Big, t) == VlanId(t)
  {
    var high, low := t.first / 16, t.first % 16;
    assert Load(Big, t.first, t.second) == 4096 * high + (256 * low + t.second);
    LowTwelve(high, 256 * low + t.second);
  }

  lemma VidLittle(t: Tci)
    ensures Vid(Little, t) == Priority(t) + 16 * t.second
  {
    var high, low := t.first / 16, t.first % 16;
    assert Load(Little, t.first, t.second) == 16 * (high + 16 * t.second) + low;
    Nibbles(high + 16 * t.second, low);
  }

  /**
   * What the bit field reads. A big-endian machine reads the VLAN identifier. A little-endian one reads the priority
   * and the low byte of the identifier, and takes a frame for untagged iff both are 0.
   */
  lemma VidMeaning(t: Tci)
    ensures Vid(Big, t) == VlanId(t)
    ensures Vid(Little, t) == Priority(t) + 16 * (VlanId(t) % 256)
    ensures Vid(Little, t) == 0 <==> Priority(t) == 0 && VlanId(t) % 256 == 0
  {
    VidBig(t);
    VidLittle(t);
    LowByte(t.first % 16, t.second);
  }

  /**
   * So two VLANs whose identifiers differ by a multiple of 256 are one to it, and one VLAN at two priorities is two.
   */
  lemma LittleVidConfuses(t: Tci, u: Tci)
    ensures Vid(Little, t) == Vid(Little, u) <==> Priority(t) == Priority(u) && VlanId(t) % 256 == VlanId(u) % 256
  {
    VidMeaning(t);
    VidMeaning(u);
  }

  type Mac = s: seq<U8> | |s| == 6 witness [0, 0, 0, 0, 0, 0]
  type Ip = s: seq<U8> | |s| == 4 witness [0, 0, 0, 0]

  /** FRAME, where the Ethernet header starts in it, and the size to inject; the IP header is always at offset 18. */
  datatype Layout = Layout(bytes: seq<U8>, eth: nat, size: int)

  /** The result of `init_pkt`: room for a tag is left in front of an untagged packet. */
  function Received(tagged: bool, slack: seq<U8>, packet: seq<U8>): Layout
    requires |slack| == 4 && |packet| >= 38
  {
    if tagged
    then Layout(packet, 0, 18 + TotalLength(packet))
    else Layout(slack + packet, 4, 14 + TotalLength(slack + packet))
  }

  /** The total length field of the IP header. */
  function TotalLength(bytes: seq<U8>): U16
    requires |bytes| >= 38
  {
    Load(Big, bytes[20], bytes[21])
  }

  /**
   * Tagged frames start at the front, untagged ones leave the four bytes of a tag free; the two bytes before the
   * datagram say IP.
   */
  predicate Shaped(l: Layout) {
    && |l.bytes| >= 38 && (l.eth == 0 || l.eth == 4)
    && l.bytes[16] == 0x08 && l.bytes[17] == 0x00
    && (l.eth == 0 ==> l.bytes[12] == 0x81 && l.bytes[13] == 0x00)
  }

  /** What the code tests: the type field of the Ethernet header. */
  predicate Tagged(l: Layout)
    requires Shaped(l)
  {
    l.bytes[l.eth + 12] == 0x81 && l.bytes[l.eth + 13] == 0x00
  }

  /** How far the injected bytes reach beyond the end of the datagram. */
  function Excess(l: Layout): int
    requires Shaped(l)
  {
    l.eth + l.size - 18 - TotalLength(l.bytes)
  }

  /** The whole datagram was captured. */
  predicate Complete(l: Layout)
    requires Shaped(l)
  {
    18 + TotalLength(l.bytes) <= |l.bytes|
  }

  /** What a frame says. */
  datatype Packet = Packet(dst: Mac, src: Mac, tag: Option<Tci>, ip: seq<U8>)

  function Parse(l: Layout): Packet
    requires Shaped(l)
  {
    Packet(l.bytes[l.eth..l.eth + 6], l.bytes[l.eth + 6..l.eth + 12],
           if l.eth == 0 then Some(Tci(l.bytes[14], l.bytes[15])) else None, l.bytes[18..])
  }

  /** A packet on the wire, as IEEE 802.3 and 802.1Q lay it out. */
  function Wire(p: Packet, length: nat): seq<U8>
    requires length <= |p.ip|
  {
    p.dst + p.src + (if p.tag.Some? then [0x81, 0x00, p.tag.value.first, p.tag.value.second] else []) + [0x08, 0x00]
      + p.ip[..length]
  }

  /** The bytes handed to pcap_inject lie in FRAME and encode the packet. */
  predicate Injectable(l: Layout)
    requires Shaped(l)
  {
    && Complete(l) && 0 <= l.size && l.eth + l.size <= |l.bytes|
    && l.bytes[l.eth..l.eth + l.size] == Wire(Parse(l), TotalLength(l.bytes))
  }

  /** The bytes handed to pcap_inject are the packet's encoding exactly when nothing exceeds the datagram. */
  lemma InjectedIsWire(l: Layout)
    requires Shaped(l) && Complete(l) && 0 <= l.size && l.eth + l.size <= |l.bytes|
    ensures Injectable(l) <==> Excess(l) == 0
  {
    var wire, end := Wire(Parse(l), TotalLength(l.bytes)), 18 + TotalLength(l.bytes);
    assert |wire| == end - l.eth;
    if Excess(l) == 0 {
      HeaderBytes(l);
      Joined(l.bytes, l.eth, 18, end);
      Joined(l.bytes, l.eth, l.eth + 12, 18);
      Joined(l.bytes, l.eth, l.eth + 6, l.eth + 12);
      assert l.bytes[18..][..end - 18] == l.bytes[18..end];
    }
  }

  lemma Joined(b: seq<U8>, i: nat, j: nat, k: nat)
    requires i <= j <= k <= |b|
    ensures b[i..k] == b[i..j] + b[j..k]
  {
  }

  lemma HeaderBytes(l: Layout)
    requires Shaped(l)
    ensures l.bytes[l.eth + 12..18]
         == (if l.eth == 0 then [0x81, 0x00, l.bytes[14], l.bytes[15]] else []) + [0x08, 0x00]
  {
  }

  /** `s` written over `b` from offset `at` on. */
  function Splice(b: seq<U8>, at: nat, s: seq<U8>): (r: seq<U8>)
    requires at + |s| <= |b|
    ensures |r| == |b|
  {
    seq(|b|, i requires 0 <= i < |b| => if at <= i < at + |s| then s[i - at] else b[i])
  }

  /** The 14 bytes of an Ethernet header copied from one place to another, possibly overlapping. */
  function Move(b: seq<U8>, to: nat, from: nat): (r: seq<U8>)
    requires to + 14 <= |b| && from + 14 <= |b|
    ensures |r| == |b|
  {
    seq(|b|, i requires 0 <= i < |b| => if to <= i < to + 14 then b[from + i - to] else b[i])
  }

  /** The Ethernet header moved to the front, and a tag put behind its addresses. */
  function Insert(b: seq<U8>, eth: nat, t: Tci): (r: seq<U8>)
    requires |b| >= 38 && eth <= 4
    ensures |r| == |b|
  {
    Splice(Move(b, 0, eth), 12, [0x81, 0x00, t.first, t.second, 0x08, 0x00])
  }

  /** The Ethernet header moved over the tag. */
  function Strip(b: seq<U8>): (r: seq<U8>)
    requires |b| >= 38
    ensures |r| == |b|
  {
    Splice(Move(b, 4, 0), 16, [0x08, 0x00])
  }

  /** Stripping an inserted tag restores every byte from the Ethernet header on. */
  lemma StripUndoesInsert(l: Layout, t: Tci)
    requires Shaped(l) && l.eth == 4
    ensures Strip(Insert(l.bytes, 4, t))[4..] == l.bytes[4..]
  {
    var b, c := l.bytes, Insert(l.bytes, 4, t);
    var d := Strip(c);
    forall i | 4 <= i < |b| ensures d[i] == b[i] {
      if i < 16 {
        assert d[i] == c[i - 4];
      } else if i >= 18 {
        assert d[i] == c[i];
      }
    }
  }

  /** Inserting a stripped tag again restores the whole tagged frame. */
  lemma InsertUndoesStrip(l: Layout)
    requires Shaped(l) && l.eth == 0
    ensures Insert(Strip(l.bytes), 4, Tci(l.bytes[14], l.bytes[15])) == l.bytes
  {
    var b, c := l.bytes, Strip(l.bytes);
    var d := Insert(c, 4, Tci(b[14], b[15]));
    forall i | 0 <= i < |b| ensures d[i] == b[i] {
      if i < 12 {
        assert d[i] == c[i + 4];
      } else if i >= 18 {
        assert d[i] == c[i];
      }
    }
  }

  function WithMacs(l: Layout, src: Mac, dst: Mac): Layout
    requires Shaped(l)
  {
    l.(bytes := Splice(Splice(l.bytes, l.eth + 6, src), l.eth, dst))
  }

  function WithSourceIp(l: Layout, ip: Ip): Layout
    requires Shaped(l)
  {
    l.(bytes := Splice(l.bytes, 30, ip))
  }

  function WithDestinationIp(l: Layout, ip: Ip): Layout
    requires Shaped(l)
  {
    l.(bytes := Splice(l.bytes, 34, ip))
  }

  /**
   * Where a packet is sent: link addresses, the address put into the IP header, and the tag of the link, if it can have
   * one.
   */
  datatype Route = Route(outMac: Mac, dstMac: Mac, ip: Ip, vlan: Option<Tci>)

  datatype Side = ToIntra | ToExt | ToHih | Nowhere

  /** The destinations for which the code reads the tag record. */
  predicate NeedsTag(to: Side) {
    to.ToIntra? || to.ToHih?
  }

  predicate HasVid(e: Endian, vlan: Option<Tci>) {
    vlan.Some? && Vid(e, vlan.value) != 0
  }

  /** `nat` of a packet from outside. */
  function NatInbound(e: Endian, l: Layout, r: Route): Layout
    requires Shaped(l)
  {
    var n := WithDestinationIp(WithMacs(l, r.outMac, r.dstMac), r.ip);
    if HasVid(e, r.vlan) then Layout(Insert(n.bytes, n.eth, r.vlan.value), 0, n.size + 4)
    else if Tagged(n) then Layout(Strip(n.bytes), 4, n.size - 4)
    else n
  }

  /** The tag part of `nat` towards a honeypot: retag, or insert a tag. */
  function Retag(e: Endian, l: Layout, t: Tci): Layout
    requires Shaped(l)
  {
    if Vid(e, t) == 0 then l
    else if Tagged(l) then l.(bytes := Splice(l.bytes, 14, [t.first, t.second]))
    else Layout(Insert(l.bytes, l.eth, t), 0, l.size + 4)
  }

  function StripTag(l: Layout): Layout
    requires Shaped(l)
  {
    if Tagged(l) then Layout(Strip(l.bytes), 4, l.size - 4) else l
  }

  /** `nat` of a packet from inside; the links towards honeypots always come with a tag record. */
  function NatOutbound(e: Endian, l: Layout, to: Side, r: Route): Layout
    requires Shaped(l) && (NeedsTag(to) ==> r.vlan.Some?)
  {
    var n := WithMacs(l, r.outMac, r.dstMac);
    match to
    case ToIntra => Retag(e, WithDestinationIp(n, r.ip), r.vlan.value)
    case ToHih => Retag(e, WithSourceIp(n, r.ip), r.vlan.value)
    case ToExt => StripTag(WithSourceIp(n, r.ip))
    case Nowhere => n
  }

  /** `forward_ext2hih`, which tests the whole tag record and only counts a tag it really adds. */
  function ForwardInbound(l: Layout, r: Route): Layout
    requires Shaped(l) && r.vlan.Some?
  {
    var n := WithDestinationIp(WithMacs(l, r.outMac, r.dstMac), r.ip);
    if r.vlan.value == Tci(0, 0) then n
    else Layout(Insert(n.bytes, n.eth, r.vlan.value), 0, if Tagged(n) then n.size else n.size + 4)
  }

  /** `forward_hih2ext`. */
  function ForwardOutbound(l: Layout, r: Route): Layout
    requires Shaped(l)
  {
    StripTag(WithSourceIp(WithMacs(l, r.outMac, r.dstMac), r.ip))
  }

  /** In a frame of the right shape the type field and the position of the header say the same. */
  lemma TaggedIsFront(l: Layout)
    requires Shaped(l)
    ensures Tagged(l) <==> l.eth == 0
  {
  }

  lemma WithMacsMeaning(l: Layout, src: Mac, dst: Mac)
    requires Shaped(l)
    ensures var n := WithMacs(l, src, dst);
            Shaped(n) && Parse(n) == Parse(l).(src := src, dst := dst) && Excess(n) == Excess(l)
              && |n.bytes| == |l.bytes|
  {
    var n := WithMacs(l, src, dst).bytes;
    assert forall i | 0 <= i < 6 :: n[l.eth..l.eth + 6][i] == n[l.eth + i] == dst[i];
    assert forall i | 0 <= i < 6 :: n[l.eth + 6..l.eth + 12][i] == n[l.eth + 6 + i] == src[i];
    assert forall i | 0 <= i < |n| - 18 :: n[18..][i] == l.bytes[18..][i];
    assert n[l.eth..l.eth + 6] == dst && n[l.eth + 6..l.eth + 12] == src && n[18..] == l.bytes[18..];
  }

  /** The address rewritten at `at` and nothing else. */
  lemma WithIpMeaning(l: Layout, at: nat, ip: Ip)
    requires Shaped(l) && (at == 30 || at == 34)
    ensures var n := l.(bytes := Splice(l.bytes, at, ip));
            Shaped(n) && Parse(n) == Parse(l).(ip := Splice(Parse(l).ip, at - 18, ip)) && Excess(n) == Excess(l)
  {
    var b := l.bytes;
    var n := Splice(b, at, ip);
    assert n[..18] == b[..18];
    assert forall i | 0 <= i < 22 :: n[i] == b[i];
    assert n[18..] == Splice(b[18..], at - 18, ip);
  }

  /** Inserting a tag tags the packet and changes nothing else it says; the room it needs was accounted for. */
  lemma InsertMeaning(l: Layout, t: Tci, size: int)
    requires Shaped(l)
    ensures var n := Layout(Insert(l.bytes, l.eth, t), 0, size);
            Shaped(n) && Parse(n) == Parse(l).(tag := Some(t)) && Excess(n) == Excess(l) + size - l.size - l.eth
  {
    var b := l.bytes;
    var n := Insert(b, l.eth, t);
    InsertSlices(b, l.eth, t);
    assert n[20] == n[18..][2] && n[21] == n[18..][3];
  }

  lemma InsertSlices(b: seq<U8>, eth: nat, t: Tci)
    requires |b| >= 38 && eth <= 4
    ensures var n := Insert(b, eth, t);
            && n[0..6] == b[eth..eth + 6] && n[6..12] == b[eth + 6..eth + 12]
            && n[12..18] == [0x81, 0x00, t.first, t.second, 0x08, 0x00] && n[18..] == b[18..]
  {
    var n := Insert(b, eth, t);
    assert forall k | 0 <= k < 6 :: n[0..6][k] == b[eth..eth + 6][k];
    assert forall k | 0 <= k < 6 :: n[6..12][k] == b[eth + 6..eth + 12][k];
    assert forall k | 0 <= k < |b| - 18 :: n[18..][k] == b[18..][k];
  }

  lemma StripMeaning(l: Layout)
    requires Shaped(l)
    ensures Shaped(StripTag(l)) && Parse(StripTag(l)) == Parse(l).(tag := None) && Excess(StripTag(l)) == Excess(l)
  {
    if l.eth == 0 {
      var b := l.bytes;
      var n := Strip(b);
      assert n[4..10] == b[0..6];
      assert n[10..16] == b[6..12];
      assert n[18..] == b[18..];
      assert n[20] == n[18..][2] && n[21] == n[18..][3];
    }
  }

  lemma RetagMeaning(e: Endian, l: Layout, t: Tci)
    requires Shaped(l)
    ensures var n := Retag(e, l, t);
            Shaped(n) && Parse(n) == Parse(l).(tag := if Vid(e, t) == 0 then Parse(l).tag else Some(t))
              && Excess(n) == Excess(l)
  {
    if Vid(e, t) != 0 {
      if l.eth == 0 {
        var b := l.bytes;
        var n := Splice(b, 14, [t.first, t.second]);
        assert n[..14] == b[..14];
        assert n[0..6] == b[0..6] && n[6..12] == b[6..12];
        assert n[16..] == b[16..];
        assert forall i | 16 <= i < |b| :: n[i] == b[16..][i - 16];
        assert n[18..] == b[18..];
      } else {
        InsertMeaning(l, t, l.size + 4);
      }
    }
  }

  /**
   * Inbound NAT says what it should in every case; its size is wrong by a tag exactly when the frame had one and gets
   * one.
   */
  lemma NatInboundMeaning(e: Endian, l: Layout, r: Route)
    requires Shaped(l)
    ensures var n := NatInbound(e, l, r);
            && Shaped(n)
            && Parse(n) == Packet(r.dstMac, r.outMac, if HasVid(e, r.vlan) then r.vlan else None,
                                  Splice(Parse(l).ip, 16, r.ip))
            && Excess(n) == Excess(l) + if Tagged(l) && HasVid(e, r.vlan) then 4 else 0
  {
    var m := WithMacs(l, r.outMac, r.dstMac);
    WithMacsMeaning(l, r.outMac, r.dstMac);
    WithIpMeaning(m, 34, r.ip);
    var n := WithDestinationIp(m, r.ip);
    TaggedIsFront(l);
    TaggedIsFront(n);
    if HasVid(e, r.vlan) {
      InsertMeaning(n, r.vlan.value, n.size + 4);
    } else {
      StripMeaning(n);
    }
  }

  lemma NatOutboundMeaning(e: Endian, l: Layout, to: Side, r: Route)
    requires Shaped(l) && (NeedsTag(to) ==> r.vlan.Some?)
    ensures var n := NatOutbound(e, l, to, r);
            && Shaped(n) && Excess(n) == Excess(l)
            && Parse(n) == Packet(r.dstMac, r.outMac,
                                  if to.ToExt? then None
                                  else if to.Nowhere? || Vid(e, r.vlan.value) == 0 then Parse(l).tag
                                  else r.vlan,
                                  if to.Nowhere? then Parse(l).ip
                                  else Splice(Parse(l).ip, if to.ToIntra? then 16 else 12, r.ip))
  {
    var m := WithMacs(l, r.outMac, r.dstMac);
    WithMacsMeaning(l, r.outMac, r.dstMac);
    WithIpMeaning(m, if to.ToIntra? then 34 else 30, r.ip);
    if to.ToExt? {
      StripMeaning(WithSourceIp(m, r.ip));
    } else if to.ToIntra? {
      RetagMeaning(e, WithDestinationIp(m, r.ip), r.vlan.value);
    } else if to.ToHih? {
      RetagMeaning(e, WithSourceIp(m, r.ip), r.vlan.value);
    }
  }

  /**
   * Forwarding to the high-interaction honeypot never miscounts, but leaves an earlier tag on a packet for an untagged
   * link.
   */
  lemma ForwardInboundMeaning(l: Layout, r: Route)
    requires Shaped(l) && r.vlan.Some?
    ensures var n := ForwardInbound(l, r);
            && Shaped(n) && Excess(n) == Excess(l)
            && Parse(n) == Packet(r.dstMac, r.outMac, if r.vlan.value == Tci(0, 0) then Parse(l).tag else r.vlan,
                                  Splice(Parse(l).ip, 16, r.ip))
  {
    var m := WithMacs(l, r.outMac, r.dstMac);
    WithMacsMeaning(l, r.outMac, r.dstMac);
    WithIpMeaning(m, 34, r.ip);
    var n := WithDestinationIp(m, r.ip);
    TaggedIsFront(n);
    if r.vlan.value != Tci(0, 0) {
      InsertMeaning(n, r.vlan.value, if Tagged(n) then n.size else n.size + 4);
    }
  }

  lemma ForwardOutboundMeaning(l: Layout, r: Route)
    requires Shaped(l)
    ensures var n := ForwardOutbound(l, r);
            && Shaped(n) && Excess(n) == Excess(l)
            && Parse(n) == Packet(r.dstMac, r.outMac, None, Splice(Parse(l).ip, 12, r.ip))
  {
    var m := WithMacs(l, r.outMac, r.dstMac);
    WithMacsMeaning(l, r.outMac, r.dstMac);
    WithIpMeaning(m, 30, r.ip);
    StripMeaning(WithSourceIp(m, r.ip));
  }

  /** What can happen to one packet. */
  datatype Op =
    | NatIn(r: Route)
    | NatOut(to: Side, r: Route)
    | ForwardIn(r: Route)
    | ForwardOut(r: Route)

  predicate Allowed(op: Op) {
    (op.NatOut? && NeedsTag(op.to)) || op.ForwardIn? ==> op.r.vlan.Some?
  }

  function Apply(e: Endian, l: Layout, op: Op): Layout
    requires Shaped(l) && Allowed(op)
  {
    match op
    case NatIn(r) => NatInbound(e, l, r)
    case NatOut(to, r) => NatOutbound(e, l, to, r)
    case ForwardIn(r) => ForwardInbound(l, r)
    case ForwardOut(r) => ForwardOutbound(l, r)
  }

  /** Inbound NAT onto a tagged link of a frame that is tagged already. */
  predicate DoubleTag(e: Endian, l: Layout, op: Op)
    requires Shaped(l)
  {
    op.NatIn? && HasVid(e, op.r.vlan) && Tagged(l)
  }

  lemma ApplyKeepsShape(e: Endian, l: Layout, op: Op)
    requires Shaped(l) && Allowed(op)
    ensures Shaped(Apply(e, l, op))
    ensures Excess(Apply(e, l, op)) == Excess(l) + if DoubleTag(e, l, op) then 4 else 0
    ensures Complete(Apply(e, l, op)) <==> Complete(l)
  {
    var n := Apply(e, l, op);
    match op {
      case NatIn(r) => NatInboundMeaning(e, l, r);
      case NatOut(to, r) => NatOutboundMeaning(e, l, to, r);
      case ForwardIn(r) => ForwardInboundMeaning(l, r);
      case ForwardOut(r) => ForwardOutboundMeaning(l, r);
    }
    if op.NatOut? && op.to.Nowhere? {
      assert n.bytes[20] == Parse(n).ip[2] && n.bytes[21] == Parse(n).ip[3];
      assert l.bytes[20] == Parse(l).ip[2] && l.bytes[21] == Parse(l).ip[3];
    } else {
      AddressOnly(l, n, if op.NatIn? || op.ForwardIn? || (op.NatOut? && op.to.ToIntra?) then 16 else 12, op.r.ip);
    }
  }

  lemma AddressOnly(l: Layout, n: Layout, at: nat, ip: Ip)
    requires Shaped(l) && Shaped(n) && (at == 12 || at == 16) && Parse(n).ip == Splice(Parse(l).ip, at, ip)
    ensures |n.bytes| == |l.bytes| && TotalLength(n.bytes) == TotalLength(l.bytes)
  {
    assert n.bytes[20] == Parse(n).ip[2] && n.bytes[21] == Parse(n).ip[3];
    assert l.bytes[20] == Parse(l).ip[2] && l.bytes[21] == Parse(l).ip[3];
  }

  lemma ReceivedIsShaped(tagged: bool, slack: seq<U8>, packet: seq<U8>)
    requires |slack| == 4 && |packet| >= 38
    requires if tagged then packet[12..14] == [0x81, 0x00] && packet[16..18] == [0x08, 0x00]
             else packet[12..14] == [0x08, 0x00]
    ensures Shaped(Received(tagged, slack, packet)) && Excess(Received(tagged, slack, packet)) == 0
    ensures Tagged(Received(tagged, slack, packet)) <==> tagged
    ensures Complete(Received(tagged, slack, packet)) <==> Received(tagged, slack, packet).size <= |packet|
  {
    if tagged {
      assert packet[12] == packet[12..14][0] && packet[13] == packet[12..14][1];
      assert packet[16] == packet[16..18][0] && packet[17] == packet[16..18][1];
    } else {
      assert (slack + packet)[16] == packet[12..14][0] && (slack + packet)[17] == packet[12..14][1];
    }
  }

  /** The frame after a series of operations. */
  function After(e: Endian, l: Layout, ops: seq<Op>): (r: Layout)
    requires Shaped(l) && forall op | op in ops :: Allowed(op)
    ensures Shaped(r)
    decreases |ops|
  {
    if ops == [] then l
    else
      ApplyKeepsShape(e, l, ops[0]);
      After(e, Apply(e, l, ops[0]), ops[1..])
  }

  /** How often a series of operations tags what is tagged. */
  function DoubleTags(e: Endian, l: Layout, ops: seq<Op>): nat
    requires Shaped(l) && forall op | op in ops :: Allowed(op)
    decreases |ops|
  {
    if ops == [] then 0
    else
      ApplyKeepsShape(e, l, ops[0]);
      (if DoubleTag(e, l, ops[0]) then 1 else 0) + DoubleTags(e, Apply(e, l, ops[0]), ops[1..])
  }

  /** Over any series of operations the size is off by one tag for every double tagging, and by nothing else. */
  lemma {:induction false} ExcessCountsDoubleTags(e: Endian, l: Layout, ops: seq<Op>)
    requires Shaped(l) && forall op | op in ops :: Allowed(op)
    ensures Excess(After(e, l, ops)) == Excess(l) + 4 * DoubleTags(e, l, ops)
    ensures Complete(After(e, l, ops)) <==> Complete(l)
    decreases |ops|
  {
    if ops != [] {
      ApplyKeepsShape(e, l, ops[0]);
      ExcessCountsDoubleTags(e, Apply(e, l, ops[0]), ops[1..]);
    }
  }

  /**
   * The series the dispatcher performs: an outside packet, never tagged on arrival, is proxied, forwarded, or proxied
   * and replayed; an inside one is sent at most once.
   */
  predicate Dispatched(tagged: bool, ops: seq<Op>) {
    || ops == []
    || (!tagged && |ops| == 1 && (ops[0].NatIn? || ops[0].ForwardIn?))
    || (!tagged && |ops| == 2 && ops[0].NatIn? && ops[1].ForwardIn?)
    || (|ops| == 1 && (ops[0].NatOut? || ops[0].ForwardOut?))
  }

  lemma {:induction false} NoLaterNat(e: Endian, l: Layout, ops: seq<Op>)
    requires Shaped(l) && forall op | op in ops :: Allowed(op) && !op.NatIn?
    ensures DoubleTags(e, l, ops) == 0
    decreases |ops|
  {
    if ops != [] {
      ApplyKeepsShape(e, l, ops[0]);
      NoLaterNat(e, Apply(e, l, ops[0]), ops[1..]);
    }
  }

  /**
   * Whatever the dispatcher does to a packet, what it injects is the encoding of the packet; if captured whole, it lies
   * inside FRAME.
   */
  lemma DispatchKeepsLayout(e: Endian, l: Layout, ops: seq<Op>)
    requires Shaped(l) && Excess(l) == 0 && Dispatched(Tagged(l), ops)
    requires forall op | op in ops :: Allowed(op)
    ensures Excess(After(e, l, ops)) == 0
    ensures Complete(l) ==> Injectable(After(e, l, ops))
  {
    var n := After(e, l, ops);
    ExcessCountsDoubleTags(e, l, ops);
    if ops != [] {
      ApplyKeepsShape(e, l, ops[0]);
      NoLaterNat(e, Apply(e, l, ops[0]), ops[1..]);
    }
    if Complete(l) {
      InjectedIsWire(n);
    }
  }

  /**
   * A recorded packet replayed to the high-interaction honeypot carries the low-interaction one's tag exactly when only
   * the latter's link is tagged.
   */
  lemma ReplayedTag(e: Endian, l: Layout, lih: Route, hih: Route)
    requires Shaped(l) && lih.vlan.Some? && hih.vlan.Some?
    ensures Shaped(NatInbound(e, l, lih)) && Shaped(ForwardInbound(NatInbound(e, l, lih), hih))
    ensures Parse(ForwardInbound(NatInbound(e, l, lih), hih)).tag ==
            if hih.vlan.value != Tci(0, 0) then hih.vlan else if Vid(e, lih.vlan.value) != 0 then lih.vlan else None
  {
    NatInboundMeaning(e, l, lih);
    ForwardInboundMeaning(NatInbound(e, l, lih), hih);
  }

  lemma TagFieldByField(b: seq<U8>, t: Tci)
    requires |b| >= 38
    ensures Splice(Splice(Splice(b, 12, [0x81, 0x00]), 16, [0x08, 0x00]), 14, [t.first, t.second])
         == Splice(b, 12, [0x81, 0x00, t.first, t.second, 0x08, 0x00])
  {
  }

  /** The packet structure: FRAME and the pointers into it. */
  class Frame {
    const buf: array<U8>
    var eth: nat
    var size: int

    constructor (tagged: bool, packet: seq<U8>)
      requires |packet| >= 38
      requires if tagged then packet[12..14] == [0x81, 0x00] && packet[16..18] == [0x08, 0x00]
               else packet[12..14] == [0x08, 0x00]
      ensures Valid() && fresh(buf) && Excess(Abs()) == 0 && (Tagged(Abs()) <==> tagged)
      ensures buf[eth..] == packet && (eth == 0 <==> tagged)
    {
      var frame := new U8[if tagged then |packet| else |packet| + 4];
      var start := if tagged then 0 else 4;
      forall i | 0 <= i < |packet| {
        frame[start + i] := packet[i];
      }
      buf, eth := frame, start;
      size := 18 - start + Load(Big, frame[20], frame[21]);
      new;
      assert buf[start..] == packet;
      ghost var slack := if tagged then [0, 0, 0, 0] else buf[..4];
      ReceivedIsShaped(tagged, slack, packet);
      assert buf[..] == if tagged then packet else slack + packet;
      assert Abs() == Received(tagged, slack, packet);
    }

    ghost function Abs(): Layout
      reads this, buf
    {
      Layout(buf[..], eth, size)
    }

    ghost predicate Valid()
      reads this, buf
    {
      Shaped(Abs())
    }

    /** memcpy into FRAME. */
    method Write(at: nat, s: seq<U8>)
      requires at + |s| <= buf.Length
      modifies buf
      ensures buf[..] == Splice(old(buf[..]), at, s)
    {
      forall i | 0 <= i < |s| {
        buf[at + i] := s[i];
      }
    }

    /** memmove of the Ethernet header, whose two places overlap. */
    method MoveHeader(to: nat, from: nat)
      requires to + 14 <= buf.Length && from + 14 <= buf.Length
      modifies buf
      ensures buf[..] == Move(old(buf[..]), to, from)
    {
      forall i | 0 <= i < 14 {
        buf[to + i] := buf[from + i];
      }
    }

    method TypeIsVlan() returns (tagged: bool)
      requires Valid()
      ensures tagged == Tagged(Abs())
    {
      tagged := buf[eth + 12] == 0x81 && buf[eth + 13] == 0x00;
    }

    method WriteMacs(src: Mac, dst: Mac)
      requires Valid()
      modifies buf
      ensures Abs() == WithMacs(old(Abs()), src, dst) && Valid()
    {
      WithMacsMeaning(Abs(), src, dst);
      Write(eth + 6, src);
      Write(eth, dst);
    }

    method WriteSourceIp(ip: Ip)
      requires Valid()
      modifies buf
      ensures Abs() == WithSourceIp(old(Abs()), ip) && Valid()
    {
      WithIpMeaning(Abs(), 30, ip);
      Write(30, ip);
    }

    method WriteDestinationIp(ip: Ip)
      requires Valid()
      modifies buf
      ensures Abs() == WithDestinationIp(old(Abs()), ip) && Valid()
    {
      WithIpMeaning(Abs(), 34, ip);
      Write(34, ip);
    }

    /** The header moved to the front of FRAME, and the fields of the VLAN header assigned one by one. */
    method WriteTag(t: Tci)
      requires Valid()
      modifies this, buf
      ensures eth == 0 && size == old(size) && buf[..] == Insert(old(buf[..]), old(eth), t)
    {
      MoveHeader(0, eth);
      ghost var moved := buf[..];
      eth := 0;
      Write(12, [0x81, 0x00]);
      Write(16, [0x08, 0x00]);
      Write(14, [t.first, t.second]);
      TagFieldByField(moved, t);
    }

    method RemoveTag()
      requires Valid()
      modifies this, buf
      ensures Abs() == StripTag(old(Abs())) && Valid()
    {
      StripMeaning(Abs());
      var tagged := TypeIsVlan();
      if tagged {
        MoveHeader(4, 0);
        eth := 4;
        Write(16, [0x08, 0x00]);
        size := size - 4;
      }
    }

    method ChangeTag(e: Endian, t: Tci)
      requires Valid()
      modifies this, buf
      ensures Abs() == Retag(e, old(Abs()), t) && Valid()
    {
      RetagMeaning(e, Abs(), t);
      var tagged := TypeIsVlan();
      if tagged {
        if Vid(e, t) != 0 {
          Write(14, [t.first, t.second]);
        }
      } else if Vid(e, t) != 0 {
        WriteTag(t);
        size := size + 4;
      }
    }

    method TranslateInbound(e: Endian, r: Route)
      requires Valid()
      modifies this, buf
      ensures Abs() == NatInbound(e, old(Abs()), r) && Valid()
    {
      NatInboundMeaning(e, Abs(), r);
      WriteMacs(r.outMac, r.dstMac);
      WriteDestinationIp(r.ip);
      if r.vlan.Some? && Vid(e, r.vlan.value) != 0 {
        WriteTag(r.vlan.value);
        size := size + 4;
      } else {
        RemoveTag();
      }
    }

    method TranslateOutbound(e: Endian, to: Side, r: Route)
      requires Valid() && (NeedsTag(to) ==> r.vlan.Some?)
      modifies this, buf
      ensures Abs() == NatOutbound(e, old(Abs()), to, r) && Valid()
    {
      WriteMacs(r.outMac, r.dstMac);
      match to {
        case ToIntra =>
          WriteDestinationIp(r.ip);
          ChangeTag(e, r.vlan.value);
        case ToHih =>
          WriteSourceIp(r.ip);
          ChangeTag(e, r.vlan.value);
        case ToExt =>
          WriteSourceIp(r.ip);
          RemoveTag();
        case Nowhere =>
      }
    }

    method PrepareForHih(r: Route)
      requires Valid() && r.vlan.Some?
      modifies this, buf
      ensures Abs() == ForwardInbound(old(Abs()), r) && Valid()
    {
      ForwardInboundMeaning(Abs(), r);
      WriteMacs(r.outMac, r.dstMac);
      WriteDestinationIp(r.ip);
      if r.vlan.value != Tci(0, 0) {
        var tagged := TypeIsVlan();
        WriteTag(r.vlan.value);
        if !tagged {
          size := size + 4;
        }
      }
    }

    method PrepareForExt(r: Route)
      requires Valid()
      modifies this, buf
      ensures Abs() == ForwardOutbound(old(Abs()), r) && Valid()
    {
      WriteMacs(r.outMac, r.dstMac);
      WriteSourceIp(r.ip);
      RemoveTag();
    }
  }
}

/**
 * The whole of `nat` and of the two forwarding functions: addresses, tag, ports and numbers, and then the checksums.
 */
module Transport {
  import opened Words
  import opened Sums = Checksum
  import opened Sequence
  import Options = TcpOptions
  import opened Frame

  type Port = s: seq<U8> | |s| == 2 witness [0, 0]

  /**
   * The IP header always starts at offset 18 of FRAME, and the code looks for the transport header 20 bytes behind it.
   */
  predicate HasHeaders(b: seq<U8>) {
    |b| >= 58
  }

  predicate IsTcp(b: seq<U8>)
    requires HasHeaders(b)
  {
    b[27] == 6
  }

  predicate IsUdp(b: seq<U8>)
    requires HasHeaders(b)
  {
    b[27] == 17
  }

  predicate Acknowledges(b: seq<U8>)
    requires HasHeaders(b)
  {
    b[51] / 0x10 % 2 == 1
  }

  function SegmentLength(b: seq<U8>): int
    requires HasHeaders(b)
  {
    TotalLength(b) - 20
  }

  /**
   * A TCP datagram as the checksum routine takes it: no IP options, captured whole, its payload no longer than the
   * scratch buffer.
   */
  predicate Summable(b: seq<U8>) {
    && HasHeaders(b)
    && (IsTcp(b) ==> b[18] % 0x10 == 5 && 20 <= SegmentLength(b) <= 2068 && 38 + SegmentLength(b) <= |b|)
  }

  // ----- checksums -----

  /** Pseudo header and segment. */
  function Summed(b: seq<U8>): seq<U8>
    requires Summable(b) && IsTcp(b)
  {
    PseudoHeader(b[30..34], b[34..38], SegmentLength(b)) + b[38..38 + SegmentLength(b)]
  }

  /** A 16-bit field in network order. */
  function Word(high: U8, low: U8): U16 {
    0x100 * high + low
  }

  /**
   * The receiver's tests, on the bytes that arrive. The IP header sums up to all ones (RFC 791, section 3.1). For
   * protocol 6 so do the addresses, the protocol, the length of the segment, and the segment (RFC 793, section 3.1).
   * For protocol 17 the checksum is absent (RFC 768).
   */
  predicate Verifies(b: seq<U8>)
    requires Summable(b)
  {
    && AllOnes(Weight(b[18..38]))
    && (b[27] == 6 ==> SegmentAddsUp(b))
    && (b[27] == 17 ==> b[44] == 0 && b[45] == 0)
  }

  predicate SegmentAddsUp(b: seq<U8>)
    requires Summable(b) && b[27] == 6
  {
    var length := Word(b[20], b[21]) - 20;
    AllOnes(Weight(b[30..38]) + b[27] + length + Weight(b[38..38 + length]))
  }

  lemma SummedTest(e: Endian, b: seq<U8>)
    requires Summable(b) && IsTcp(b)
    ensures Sums.Checksum(WordsOf(e, Summed(b))) == 0 <==> SegmentAddsUp(b)
  {
    assert Word(b[20], b[21]) == TotalLength(b);
    assert b[30..34] + b[34..38] == b[30..38];
    SegmentSum(e, b[30..34], b[34..38], b[30..38], SegmentLength(b), b[38..38 + SegmentLength(b)]);
  }

  /** What the transport checksum leaves: TCP's set, UDP's zero. */
  function TransportSealed(e: Endian, b: seq<U8>): (r: seq<U8>)
    requires Summable(b)
    ensures |r| == |b|
  {
    if IsTcp(b) then WithField(e, Zeroed(b, 54), 54, Sums.Checksum(WordsOf(e, Summed(Zeroed(b, 54)))))
    else if IsUdp(b) then Zeroed(b, 44)
    else b
  }

  function Sealed(e: Endian, b: seq<U8>): (r: seq<U8>)
    requires Summable(b)
    ensures |r| == |b|
  {
    var s := TransportSealed(e, b);
    WithField(e, Zeroed(s, 28), 28, Sums.Checksum(WordsOf(e, Zeroed(s, 28)[18..38])))
  }

  lemma FieldInside(e: Endian, b: seq<U8>, lo: nat, hi: nat, at: nat, w: U16)
    requires lo <= at && at + 2 <= hi <= |b|
    ensures Zeroed(b, at)[lo..hi] == Zeroed(b[lo..hi], at - lo)
    ensures WithField(e, b, at, w)[lo..hi] == WithField(e, b[lo..hi], at - lo, w)
  {
  }

  lemma SummedWith(e: Endian, b: seq<U8>, w: U16)
    requires Summable(b) && IsTcp(b)
    ensures Summed(Zeroed(b, 54)) == Zeroed(Summed(b), 28)
    ensures Summed(WithField(e, b, 54, w)) == WithField(e, Summed(b), 28, w)
  {
    var n := SegmentLength(b);
    FieldInside(e, b, 38, 38 + n, 54, w);
    assert Zeroed(b, 54)[30..34] == b[30..34] && Zeroed(b, 54)[34..38] == b[34..38];
    assert WithField(e, b, 54, w)[30..34] == b[30..34] && WithField(e, b, 54, w)[34..38] == b[34..38];
  }

  lemma TransportVerifies(e: Endian, b: seq<U8>)
    requires Summable(b) && IsTcp(b)
    ensures Sums.Checksum(WordsOf(e, Summed(TransportSealed(e, b)))) == 0
  {
    var z := Zeroed(b, 54);
    SummedWith(e, b, 0);
    SummedWith(e, z, Sums.Checksum(WordsOf(e, Summed(z))));
    FieldVerifies(e, Summed(b), 14);
  }

  /** The bytes the two checksums lie in. */
  predicate IsSum(b: seq<U8>, i: int)
    requires HasHeaders(b)
  {
    28 <= i < 30 || (IsTcp(b) && 54 <= i < 56) || (IsUdp(b) && 44 <= i < 46)
  }

  lemma SealKeeps(e: Endian, b: seq<U8>)
    requires Summable(b)
    ensures Summable(Sealed(e, b)) && forall i | 0 <= i < |b| && !IsSum(b, i) :: Sealed(e, b)[i] == b[i]
  {
  }

  lemma HeaderVerifies(e: Endian, s: seq<U8>)
    requires HasHeaders(s)
    ensures var z := Zeroed(s, 28);
            Sums.Checksum(WordsOf(e, WithField(e, z, 28, Sums.Checksum(WordsOf(e, z[18..38])))[18..38])) == 0
  {
    var z := Zeroed(s, 28);
    FieldInside(e, s, 18, 38, 28, 0);
    FieldInside(e, z, 18, 38, 28, Sums.Checksum(WordsOf(e, z[18..38])));
    FieldVerifies(e, s[18..38], 5);
  }

  lemma SummedBehindHeader(s: seq<U8>, r: seq<U8>)
    requires Summable(s) && Summable(r) && IsTcp(s) && |r| == |s|
    requires forall i | 0 <= i < |s| && !(28 <= i < 30) :: r[i] == s[i]
    ensures Summed(r) == Summed(s)
  {
    assert r[30..34] == s[30..34] && r[34..38] == s[34..38];
    assert r[38..38 + SegmentLength(s)] == s[38..38 + SegmentLength(s)];
  }

  lemma HeaderSealed(e: Endian, b: seq<U8>)
    requires Summable(b)
    ensures AllOnes(Weight(Sealed(e, b)[18..38]))
  {
    HeaderVerifies(e, TransportSealed(e, b));
    ZeroIffAllOnes(e, Sealed(e, b)[18..38]);
  }

  lemma SegmentSealed(e: Endian, b: seq<U8>)
    requires Summable(b) && IsTcp(b)
    ensures Summable(Sealed(e, b)) && IsTcp(Sealed(e, b)) && SegmentAddsUp(Sealed(e, b))
  {
    SealKeeps(e, b);
    TransportVerifies(e, b);
    SummedBehindHeader(TransportSealed(e, b), Sealed(e, b));
    SummedTest(e, Sealed(e, b));
  }

  /** After the two checksums the receiver's tests succeed. */
  lemma SealVerifies(e: Endian, b: seq<U8>)
    requires Summable(b)
    ensures Summable(Sealed(e, b)) && Verifies(Sealed(e, b))
  {
    SealKeeps(e, b);
    HeaderSealed(e, b);
    if IsTcp(b) {
      SegmentSealed(e, b);
    }
  }

  // ----- ports and numbers -----

  /**
   * What is rewritten behind the IP header: nothing by `nat`; by the forwarding functions the port, a number, and the
   * options.
   */
  datatype Rewrite =
    | Untouched
    | Inward(port: Port, delta: U32)
    | Outward(port: Port, delta: U32, options: seq<U8>)

  predicate Fits(b: seq<U8>, w: Rewrite) {
    HasHeaders(b) && (w.Outward? ==> 58 + |w.options| <= |b|)
  }

  /** `options` is what `fix_tcp_timestamps` leaves behind the fixed TCP header. */
  function Rewritten(b: seq<U8>, w: Rewrite): (r: seq<U8>)
    requires Fits(b, w)
    ensures |r| == |b|
  {
    match w
    case Untouched => b
    case Inward(port, delta) =>
      if !IsTcp(b) && !IsUdp(b) then b
      else
        var p := Splice(b, 40, port);
        if IsTcp(b) && Acknowledges(b) then Options.Write32(p, 46, ToHoneypot(Options.Read32(b, 46), delta)) else p
    case Outward(port, delta, options) =>
      if !IsTcp(b) && !IsUdp(b) then b
      else
        var p := Splice(b, 38, port);
        if IsTcp(b) then Splice(Options.Write32(p, 42, ToAttacker(Options.Read32(b, 42), delta)), 58, options) else p
  }

  /** Everything up to the transport header is left alone. */
  lemma RewrittenBehindIp(b: seq<U8>, w: Rewrite)
    requires Fits(b, w)
    ensures forall i | 0 <= i < 38 :: Rewritten(b, w)[i] == b[i]
  {
  }

  // ----- one packet's way out -----

  /** One call of `nat`, `forward_ext2hih` or `forward_hih2ext`. */
  datatype Job = Job(op: Op, w: Rewrite)

  predicate Proper(j: Job) {
    && Allowed(j.op)
    && (j.op.ForwardIn? <==> j.w.Inward?) && (j.op.ForwardOut? <==> j.w.Outward?)
  }

  /** `nat` gives up on an invalid destination before it comes to the checksums. */
  predicate Finishes(j: Job) {
    !(j.op.NatOut? && j.op.to.Nowhere?)
  }

  predicate Ready(l: Layout, j: Job) {
    Shaped(l) && Proper(j) && Summable(l.bytes) && Fits(l.bytes, j.w)
  }

  /** The frame after the addresses and the tag, and what the job rewrites behind them. */
  function Prepared(e: Endian, l: Layout, j: Job): (n: Layout)
    requires Ready(l, j)
    ensures Summable(n.bytes) && |n.bytes| == |l.bytes|
    ensures Shaped(n)
  {
    var n := Apply(e, l, j.op);
    ApplyKeepsDatagram(e, l, j.op);
    RewrittenBehindIp(n.bytes, j.w);
    SameFrame(n, Rewritten(n.bytes, j.w));
    n.(bytes := Rewritten(n.bytes, j.w))
  }

  /** Of the datagram the frame operations change an address and nothing else. */
  lemma ApplyKeepsDatagram(e: Endian, l: Layout, op: Op)
    requires Shaped(l) && Allowed(op)
    ensures Shaped(Apply(e, l, op)) && |Apply(e, l, op).bytes| == |l.bytes|
    ensures forall i | 18 <= i < |l.bytes| && !(30 <= i < 38) :: Apply(e, l, op).bytes[i] == l.bytes[i]
  {
    var n := Apply(e, l, op);
    match op {
      case NatIn(r) => NatInboundMeaning(e, l, r);
      case NatOut(to, r) => NatOutboundMeaning(e, l, to, r);
      case ForwardIn(r) => ForwardInboundMeaning(l, r);
      case ForwardOut(r) => ForwardOutboundMeaning(l, r);
    }
    assert |Parse(n).ip| == |Parse(l).ip|;
    forall i | 18 <= i < |l.bytes| && !(30 <= i < 38) ensures n.bytes[i] == l.bytes[i] {
      assert n.bytes[i] == Parse(n).ip[i - 18] && l.bytes[i] == Parse(l).ip[i - 18];
    }
  }

  /** Bytes changed only behind the total length leave the frame as it is. */
  lemma SameFrame(l: Layout, b: seq<U8>)
    requires Shaped(l) && |b| == |l.bytes| && forall i | 0 <= i < 22 :: b[i] == l.bytes[i]
    ensures var n := l.(bytes := b);
            Shaped(n) && Excess(n) == Excess(l) && (Tagged(n) <==> Tagged(l)) && (Complete(n) <==> Complete(l))
  {
  }

  function Sent(e: Endian, l: Layout, j: Job): (n: Layout)
    requires Ready(l, j)
    ensures Shaped(n) && Summable(n.bytes) && |n.bytes| == |l.bytes|
  {
    ApplyKeepsDatagram(e, l, j.op);
    if !Finishes(j) then Apply(e, l, j.op)
    else
      var n := Prepared(e, l, j);
      SealKeeps(e, n.bytes);
      SameFrame(n, Sealed(e, n.bytes));
      n.(bytes := Sealed(e, n.bytes))
  }

  /** A job miscounts what its frame operation does, and nothing else. */
  lemma SentKeepsFrame(e: Endian, l: Layout, j: Job)
    requires Ready(l, j)
    ensures Excess(Sent(e, l, j)) == Excess(l) + if DoubleTag(e, l, j.op) then 4 else 0
    ensures Complete(Sent(e, l, j)) <==> Complete(l)
  {
    var m := Apply(e, l, j.op);
    ApplyKeepsShape(e, l, j.op);
    if Finishes(j) {
      var n := Prepared(e, l, j);
      RewrittenBehindIp(m.bytes, j.w);
      SameFrame(m, n.bytes);
      SealKeeps(e, n.bytes);
      SameFrame(n, Sealed(e, n.bytes));
    }
  }

  /** The address each forwarding function writes into the datagram. */
  lemma InwardAddress(e: Endian, l: Layout, r: Route, i: nat)
    requires Shaped(l) && r.vlan.Some? && 18 <= i < |l.bytes|
    ensures |ForwardInbound(l, r).bytes| == |l.bytes|
    ensures ForwardInbound(l, r).bytes[i] == if 34 <= i < 38 then r.ip[i - 34] else l.bytes[i]
  {
    var n := ForwardInbound(l, r);
    ForwardInboundMeaning(l, r);
    ApplyKeepsDatagram(e, l, ForwardIn(r));
    assert n.bytes[i] == Parse(n).ip[i - 18] && l.bytes[i] == Parse(l).ip[i - 18];
  }

  lemma OutwardAddress(e: Endian, l: Layout, r: Route, i: nat)
    requires Shaped(l) && 18 <= i < |l.bytes|
    ensures |ForwardOutbound(l, r).bytes| == |l.bytes|
    ensures ForwardOutbound(l, r).bytes[i] == if 30 <= i < 34 then r.ip[i - 30] else l.bytes[i]
  {
    var n := ForwardOutbound(l, r);
    ForwardOutboundMeaning(l, r);
    ApplyKeepsDatagram(e, l, ForwardOut(r));
    assert n.bytes[i] == Parse(n).ip[i - 18] && l.bytes[i] == Parse(l).ip[i - 18];
  }

  predicate HasPorts(b: seq<U8>)
    requires HasHeaders(b)
  {
    IsTcp(b) || IsUdp(b)
  }

  /** The bytes `forward_ext2hih` rewrites besides the checksums: address, port, and a number that is there. */
  predicate RewritesInward(b: seq<U8>, i: int)
    requires HasHeaders(b)
  {
    34 <= i < 38 || (HasPorts(b) && 40 <= i < 42) || (IsTcp(b) && Acknowledges(b) && 46 <= i < 50)
  }

  /** The bytes `forward_hih2ext` rewrites besides the checksums: address, port, number and options. */
  predicate RewritesOutward(b: seq<U8>, options: seq<U8>, i: int)
    requires HasHeaders(b)
  {
    30 <= i < 34 || (HasPorts(b) && 38 <= i < 40) || (IsTcp(b) && (42 <= i < 46 || 58 <= i < 58 + |options|))
  }

  lemma PreparedInward(e: Endian, l: Layout, r: Route, port: Port, delta: U32, i: nat)
    requires Ready(l, Job(ForwardIn(r), Inward(port, delta))) && 18 <= i < |l.bytes|
    ensures var n := Prepared(e, l, Job(ForwardIn(r), Inward(port, delta))).bytes;
            && HasHeaders(n) && IsTcp(n) == IsTcp(l.bytes) && IsUdp(n) == IsUdp(l.bytes)
            && (IsTcp(n) && Acknowledges(l.bytes) ==>
                Options.Read32(n, 46) == ToHoneypot(Options.Read32(l.bytes, 46), delta))
            && (34 <= i < 38 ==> n[i] == r.ip[i - 34]) && (HasPorts(l.bytes) && 40 <= i < 42 ==> n[i] == port[i - 40])
            && (!RewritesInward(l.bytes, i) ==> n[i] == l.bytes[i])
  {
    InwardAddress(e, l, r, i);
    ApplyKeepsDatagram(e, l, ForwardIn(r));
  }

  lemma NumberOutward(b: seq<U8>, port: Port, delta: U32, options: seq<U8>)
    requires Fits(b, Outward(port, delta, options)) && IsTcp(b)
    ensures Options.Read32(Rewritten(b, Outward(port, delta, options)), 42) == ToAttacker(Options.Read32(b, 42), delta)
  {
    var q := Options.Write32(Splice(b, 38, port), 42, ToAttacker(Options.Read32(b, 42), delta));
    var n := Splice(q, 58, options);
    assert n[42] == q[42] && n[43] == q[43] && n[44] == q[44] && n[45] == q[45];
  }

  lemma BytesOutward(b: seq<U8>, port: Port, delta: U32, options: seq<U8>, i: nat)
    requires Fits(b, Outward(port, delta, options)) && i < |b|
    ensures var n := Rewritten(b, Outward(port, delta, options));
            && (HasPorts(b) && 38 <= i < 40 ==> n[i] == port[i - 38])
            && (IsTcp(b) && 58 <= i < 58 + |options| ==> n[i] == options[i - 58])
            && (!(30 <= i < 34) && !RewritesOutward(b, options, i) ==> n[i] == b[i])
  {
    if IsTcp(b) {
      var p := Splice(b, 38, port);
      var q := Options.Write32(p, 42, ToAttacker(Options.Read32(b, 42), delta));
      assert !(42 <= i < 46) ==> q[i] == p[i];
    }
  }

  lemma PreparedOutward(e: Endian, l: Layout, r: Route, port: Port, delta: U32, options: seq<U8>, i: nat)
    requires Ready(l, Job(ForwardOut(r), Outward(port, delta, options))) && 18 <= i < |l.bytes|
    ensures var n := Prepared(e, l, Job(ForwardOut(r), Outward(port, delta, options))).bytes;
            && HasHeaders(n) && IsTcp(n) == IsTcp(l.bytes) && IsUdp(n) == IsUdp(l.bytes)
            && (IsTcp(n) ==> Options.Read32(n, 42) == ToAttacker(Options.Read32(l.bytes, 42), delta))
            && (30 <= i < 34 ==> n[i] == r.ip[i - 30]) && (HasPorts(l.bytes) && 38 <= i < 40 ==> n[i] == port[i - 38])
            && (IsTcp(n) && 58 <= i < 58 + |options| ==> n[i] == options[i - 58])
            && (!RewritesOutward(l.bytes, options, i) ==> n[i] == l.bytes[i])
  {
    var m := ForwardOutbound(l, r).bytes;
    OutwardAddress(e, l, r, i);
    ApplyKeepsDatagram(e, l, ForwardOut(r));
    RewrittenBehindIp(m, Outward(port, delta, options));
    BytesOutward(m, port, delta, options, i);
    if IsTcp(m) {
      NumberOutward(m, port, delta, options);
    }
    assert Options.Read32(m, 42) == Options.Read32(l.bytes, 42);
  }

  /** The ACK flag is the fifth bit from the low end. */
  lemma AckBit(b: seq<U8>)
    requires HasHeaders(b)
    ensures Acknowledges(b) <==> b[51] % 0x20 >= 0x10
  {
    var high, low := b[51] / 0x10, b[51] % 0x10;
    assert b[51] == 0x20 * (high / 2) + 0x10 * (high % 2) + low;
  }

  /**
   * `forward_ext2hih`: the honeypot's address and port, the acknowledgement moved into its numbers, and the checksums;
   * no other byte of the datagram changes.
   */
  lemma InwardMeaning(e: Endian, l: Layout, r: Route, port: Port, delta: U32, i: nat)
    requires Ready(l, Job(ForwardIn(r), Inward(port, delta))) && 18 <= i < |l.bytes|
    ensures var n := Sent(e, l, Job(ForwardIn(r), Inward(port, delta))).bytes;
            && (l.bytes[27] == 6 && l.bytes[51] % 0x20 >= 0x10 ==>
                Options.Read32(n, 46) == ToHoneypot(Options.Read32(l.bytes, 46), delta))
            && (34 <= i < 38 ==> n[i] == r.ip[i - 34])
               && (l.bytes[27] in {6, 17} && 40 <= i < 42 ==> n[i] == port[i - 40])
            && (!IsSum(l.bytes, i) && !RewritesInward(l.bytes, i) ==> n[i] == l.bytes[i])
  {
    var n := Prepared(e, l, Job(ForwardIn(r), Inward(port, delta))).bytes;
    PreparedInward(e, l, r, port, delta, i);
    SealKeeps(e, n);
    AckBit(l.bytes);
    assert Options.Read32(Sealed(e, n), 46) == Options.Read32(n, 46);
  }

  /**
   * `forward_hih2ext`: the target's address and port, the sequence number moved into the attacker's numbers, the
   * options as they have been fixed, and the checksums; no other byte of the datagram changes.
   */
  lemma OutwardMeaning(e: Endian, l: Layout, r: Route, port: Port, delta: U32, options: seq<U8>, i: nat)
    requires Ready(l, Job(ForwardOut(r), Outward(port, delta, options))) && 18 <= i < |l.bytes|
    ensures var n := Sent(e, l, Job(ForwardOut(r), Outward(port, delta, options))).bytes;
            && (l.bytes[27] == 6 ==> Options.Read32(n, 42) == ToAttacker(Options.Read32(l.bytes, 42), delta))
            && (30 <= i < 34 ==> n[i] == r.ip[i - 30])
               && (l.bytes[27] in {6, 17} && 38 <= i < 40 ==> n[i] == port[i - 38])
            && (IsTcp(l.bytes) && 58 <= i < 58 + |options| ==> n[i] == options[i - 58])
            && (!IsSum(l.bytes, i) && !RewritesOutward(l.bytes, options, i) ==> n[i] == l.bytes[i])
  {
    var n := Prepared(e, l, Job(ForwardOut(r), Outward(port, delta, options))).bytes;
    PreparedOutward(e, l, r, port, delta, options, i);
    SealKeeps(e, n);
    assert IsTcp(n) ==> Options.Read32(Sealed(e, n), 42) == Options.Read32(n, 42);
  }

  /** What a job injects verifies at the receiver, unless it gave up. */
  lemma SentVerifies(e: Endian, l: Layout, j: Job)
    requires Ready(l, j) && Finishes(j)
    ensures Verifies(Sent(e, l, j).bytes)
  {
    SealVerifies(e, Prepared(e, l, j).bytes);
  }

  // ----- in place -----

  lemma StoredInField(e: Endian, b: seq<U8>, r: seq<U8>, at: nat, w: U16)
    requires at + 2 <= |b| == |r| && r[at..at + 2] == Store(e, w)
    requires forall i | 0 <= i < |b| && !(at <= i < at + 2) :: r[i] == b[i]
    ensures r == WithField(e, Zeroed(b, at), at, w)
  {
    assert r[at] == r[at..at + 2][0] && r[at + 1] == r[at..at + 2][1];
  }

  lemma HeaderField(e: Endian, s: seq<U8>, r: seq<U8>, c: U16)
    requires HasHeaders(s) && |r| == |s| && r[18..38] == WithField(e, Zeroed(s[18..38], 10), 10, c)
    requires forall i | 0 <= i < |s| && !(28 <= i < 30) :: r[i] == s[i]
    ensures r == WithField(e, Zeroed(s, 28), 28, c)
  {
    assert r[28] == r[18..38][10] && r[29] == r[18..38][11];
  }

  lemma SummedIs(b: seq<U8>, r: seq<U8>, saddr: seq<U8>, daddr: seq<U8>, segment: seq<U8>, length: int)
    requires Summable(b) && IsTcp(b) && r == b && length == SegmentLength(b)
    requires saddr == r[30..34] && daddr == r[34..38] && segment == r[38..38 + length]
    ensures PseudoHeader(saddr, daddr, length) + segment == Summed(b)
  {
  }

  /** `set_tcp_checksum` or `set_udp_checksum`. */
  method SealTransport(e: Endian, f: Frame)
    requires Summable(f.buf[..])
    modifies f.buf
    ensures f.buf[..] == TransportSealed(e, old(f.buf[..]))
  {
    ghost var b := f.buf[..];
    var protocol := f.buf[27];
    if protocol == 6 {
      var length := Load(Big, f.buf[20], f.buf[21]) - 20;
      ghost var data := PseudoHeader(f.buf[30..34], f.buf[34..38], length) + f.buf[38..38 + length];
      SummedIs(b, f.buf[..], f.buf[30..34], f.buf[34..38], f.buf[38..38 + length], length);
      SummedWith(e, b, 0);
      SetTcpChecksum(e, f.buf, 18, length);
      StoredInField(e, b, f.buf[..], 54, Sums.Checksum(WordsOf(e, Zeroed(data, 28))));
    } else if protocol == 17 {
      f.buf[44], f.buf[45] := 0, 0;
    }
  }

  /** `set_ip_checksum`, once the transport checksum is set. */
  method Seal(e: Endian, f: Frame)
    requires Summable(f.buf[..])
    modifies f.buf
    ensures f.buf[..] == Sealed(e, old(f.buf[..]))
  {
    SealTransport(e, f);
    ghost var s := f.buf[..];
    assert f.buf[18..38] == s[18..38];
    FieldInside(e, s, 18, 38, 28, 0);
    SetIpChecksum(e, f.buf, 18);
    ghost var c := Sums.Checksum(WordsOf(e, Zeroed(s[18..38], 10)));
    HeaderField(e, s, f.buf[..], c);
  }

  function NatJob(inbound: bool, to: Side, r: Route): Job {
    Job(if inbound then NatIn(r) else NatOut(to, r), Untouched)
  }

  /** `nat`, for packets from outside and for the others. */
  method Nat(e: Endian, f: Frame, inbound: bool, to: Side, r: Route)
    requires f.Valid() && Ready(f.Abs(), NatJob(inbound, to, r))
    modifies f, f.buf
    ensures f.Valid() && f.Abs() == Sent(e, old(f.Abs()), NatJob(inbound, to, r))
  {
    ghost var l := f.Abs();
    ghost var j := NatJob(inbound, to, r);
    ApplyKeepsDatagram(e, l, j.op);
    if inbound {
      f.TranslateInbound(e, r);
    } else {
      f.TranslateOutbound(e, to, r);
      if to.Nowhere? {
        return;
      }
    }
    Finish(e, f, l, j);
  }

  /** The checksums once everything else is in place. */
  method Finish(e: Endian, f: Frame, ghost l: Layout, ghost j: Job)
    requires Ready(l, j) && Finishes(j) && f.Abs() == Prepared(e, l, j)
    modifies f.buf
    ensures f.Valid() && f.Abs() == Sent(e, l, j)
  {
    Seal(e, f);
  }

  /** The switch over the protocol in `forward_ext2hih`, up to the checksum. */
  method RewriteInward(f: Frame, port: Port, delta: U32)
    requires HasHeaders(f.buf[..])
    modifies f.buf
    ensures f.buf[..] == Rewritten(old(f.buf[..]), Inward(port, delta))
  {
    var protocol, flags := f.buf[27], f.buf[51];
    if protocol == 6 || protocol == 17 {
      f.Write(40, port);
      if protocol == 6 && flags / 0x10 % 2 == 1 {
        PutNumber(f, 46, Add(Add(Number(f.buf[46], f.buf[47], f.buf[48], f.buf[49]), Not(delta)), 1));
      }
    }
  }

  /** The same in `forward_hih2ext`; `options` is what `fix_tcp_timestamps` makes of the options. */
  method RewriteOutward(f: Frame, port: Port, delta: U32, options: seq<U8>)
    requires Fits(f.buf[..], Outward(port, delta, options))
    modifies f.buf
    ensures f.buf[..] == Rewritten(old(f.buf[..]), Outward(port, delta, options))
  {
    var protocol := f.buf[27];
    if protocol == 6 || protocol == 17 {
      f.Write(38, port);
      if protocol == 6 {
        PutNumber(f, 42, Add(Number(f.buf[42], f.buf[43], f.buf[44], f.buf[45]), delta));
        f.Write(58, options);
      }
    }
  }

  /** `forward_ext2hih`. */
  method ForwardToHih(e: Endian, f: Frame, r: Route, port: Port, delta: U32)
    requires f.Valid() && Ready(f.Abs(), Job(ForwardIn(r), Inward(port, delta)))
    modifies f, f.buf
    ensures f.Valid() && f.Abs() == Sent(e, old(f.Abs()), Job(ForwardIn(r), Inward(port, delta)))
  {
    ApplyKeepsDatagram(e, f.Abs(), ForwardIn(r));
    f.PrepareForHih(r);
    RewriteInward(f, port, delta);
    Finish(e, f, old(f.Abs()), Job(ForwardIn(r), Inward(port, delta)));
  }

  /** `forward_hih2ext`. */
  method ForwardToExt(e: Endian, f: Frame, r: Route, port: Port, delta: U32, options: seq<U8>)
    requires f.Valid() && Ready(f.Abs(), Job(ForwardOut(r), Outward(port, delta, options)))
    modifies f, f.buf
    ensures f.Valid() && f.Abs() == Sent(e, old(f.Abs()), Job(ForwardOut(r), Outward(port, delta, options)))
  {
    ApplyKeepsDatagram(e, f.Abs(), ForwardOut(r));
    f.PrepareForExt(r);
    RewriteOutward(f, port, delta, options);
    Finish(e, f, old(f.Abs()), Job(ForwardOut(r), Outward(port, delta, options)));
  }

  /** `ntohl` and `htonl` of a field of the TCP header. */
  function Number(b0: U8, b1: U8, b2: U8, b3: U8): U32 {
    Options.Value(b0, b1, b2, b3)
  }

  method PutNumber(f: Frame, at: nat, v: U32)
    requires at + 4 <= f.buf.Length
    modifies f.buf
    ensures f.buf[..] == Options.Write32(old(f.buf[..]), at, v)
  {
    f.buf[at], f.buf[at + 1], f.buf[at + 2], f.buf[at + 3] :=
      v / 0x100_0000, v / 0x1_0000 % 0x100, v / 0x100 % 0x100, v % 0x100;
  }
}

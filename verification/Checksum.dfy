/** The Internet checksum of `netcode.c`: the summing loop, and the IP and TCP header setters built on it. */
module Checksum {
  import opened Words

  /** The byte order of the machine the gateway runs on. */
  datatype Endian = Little | Big

  /** The 16-bit load of two bytes given in memory order. */
  function Load(e: Endian, first: U8, second: U8): U16 {
    if e.Little? then first + 0x100 * second else 0x100 * first + second
  }

  /** The two bytes, in memory order, that a 16-bit store writes. */
  function Store(e: Endian, w: U16): seq<U8> {
    if e.Little? then [w % 0x100, w / 0x100] else [w / 0x100, w % 0x100]
  }

  /** The native-order words of a buffer; an odd last byte is followed by a zero byte. */
  function WordsOf(e: Endian, b: seq<U8>): seq<U16> {
    if |b| == 0 then []
    else if |b| == 1 then [Load(e, b[0], 0)]
    else [Load(e, b[0], b[1])] + WordsOf(e, b[2..])
  }

  /** The sum of the words as an unbounded integer. */
  function Total(w: seq<U16>): nat {
    if w == [] then 0 else w[0] + Total(w[1..])
  }

  /** One's-complement addition of 16-bit words: the carry comes back in at the bottom. */
  function OnesAdd(a: U16, b: U16): U16 {
    if a + b > 0xFFFF then a + b - 0xFFFF else a + b
  }

  /** The one's-complement sum, the definition of section 1 of RFC 1071. */
  function OnesSum(w: seq<U16>): U16 {
    if w == [] then 0 else OnesAdd(w[0], OnesSum(w[1..]))
  }

  /** The checksum RFC 1071 asks for: the complement of the one's-complement sum. */
  function Checksum(w: seq<U16>): U16 {
    0xFFFF - OnesSum(w)
  }

  /** The tail of `in_cksum`: two folds of the 32-bit accumulator, then complement and truncate. */
  function Finish(sum: U32): U16 {
    var folded := sum / 0x1_0000 + sum % 0x1_0000;
    var carried := (folded + folded / 0x1_0000) % 0x1_0000_0000;
    0xFFFF - carried % 0x1_0000
  }

  lemma TotalStep(e: Endian, b: seq<U8>)
    requires |b| > 0
    ensures |b| > 1 ==> Total(WordsOf(e, b)) == Load(e, b[0], b[1]) + Total(WordsOf(e, b[2..]))
    ensures |b| == 1 ==> Total(WordsOf(e, b)) == Load(e, b[0], 0)
  {
    if |b| > 1 {
      assert WordsOf(e, b)[1..] == WordsOf(e, b[2..]);
    }
  }

  lemma WrappedAdd(n: nat, x: nat)
    ensures (n % 0x1_0000_0000 + x) % 0x1_0000_0000 == (n + x) % 0x1_0000_0000
  {
  }

  /** `in_cksum`: walk the words with a 32-bit accumulator, mop up an odd byte, fold, complement. */
  method InCksum(e: Endian, a: array<U8>, off: nat, len: nat) returns (c: U16)
    requires off + len <= a.Length && len < 0x8000_0000
    ensures c == Finish(Total(WordsOf(e, a[off..off + len])) % 0x1_0000_0000)
  {
    var sum: U32 := 0;
    var w := off;
    var nleft := len;
    ghost var added: nat := 0;
    ghost var all := Total(WordsOf(e, a[off..off + len]));
    while nleft > 1
      invariant w + nleft == off + len && off <= w
      invariant added + Total(WordsOf(e, a[w..off + len])) == all
      invariant sum == added % 0x1_0000_0000
    {
      TotalStep(e, a[w..off + len]);
      assert a[w..off + len][2..] == a[w + 2..off + len];
      WrappedAdd(added, Load(e, a[w], a[w + 1]));
      added := added + Load(e, a[w], a[w + 1]);
      sum := (sum + Load(e, a[w], a[w + 1])) % 0x1_0000_0000;
      w := w + 2;
      nleft := nleft - 2;
    }
    if nleft == 1 {
      TotalStep(e, a[w..off + len]);
      WrappedAdd(added, Load(e, a[w], 0));
      sum := (sum + Load(e, a[w], 0)) % 0x1_0000_0000;
    }
    c := Finish(sum);
  }

  // ----- the accumulator never overflows, and the folds give the one's-complement sum -----

  /** The representative in 1..65535 (or 0 for 0) of a sum modulo 65535. */
  function Canon(n: nat): U16 {
    if n == 0 then 0 else (n - 1) % 0xFFFF + 1
  }

  lemma {:induction false} OnesSumIsCanon(w: seq<U16>)
    ensures OnesSum(w) == Canon(Total(w))
  {
    if w != [] {
      OnesSumIsCanon(w[1..]);
    }
  }

  lemma Residue(n: nat, q: nat, r: nat)
    requires n == 0xFFFF * q + r && r < 0xFFFF
    ensures n % 0xFFFF == r
  {
  }

  /** Two folds reduce every accumulator: with `folded` the sum of its halves, at most one carry is left. */
  lemma FinishIsCanon(sum: U32)
    ensures Finish(sum) == 0xFFFF - Canon(sum)
  {
    var h, l := sum / 0x1_0000, sum % 0x1_0000;
    var folded := h + l;
    assert sum == 0xFFFF * h + folded;
    if folded < 0x1_0000 {
      assert folded / 0x1_0000 == 0;
      assert Finish(sum) == 0xFFFF - folded;
      if sum != 0 {
        Residue(sum - 1, h, folded - 1);
      }
    } else {
      assert folded / 0x1_0000 == 1;
      assert Finish(sum) == 0xFFFF - (folded - 0xFFFF);
      Residue(sum - 1, h + 1, folded - 0x1_0000);
    }
  }

  lemma {:induction false} TotalBound(w: seq<U16>)
    ensures Total(w) <= 0xFFFF * |w|
  {
    if w != [] {
      TotalBound(w[1..]);
    }
  }

  /** `n` words, the first `m` of them all ones and the rest zero. */
  function Ones(m: nat, n: nat): (w: seq<U16>)
    ensures |w| == n
  {
    seq(n, i => if i < m then 0xFFFF else 0)
  }

  lemma {:induction false} TotalOfOnes(m: nat, n: nat)
    requires m <= n
    ensures Total(Ones(m, n)) == 0xFFFF * m
    decreases n
  {
    if n > 0 {
      var rest := if m > 0 then m - 1 else 0;
      assert Ones(m, n)[1..] == Ones(rest, n - 1);
      TotalOfOnes(rest, n - 1);
    }
  }

  /** 65537 words is exactly how far the 32-bit accumulator reaches. */
  lemma AccumulatorBound(n: nat)
    ensures (forall w: seq<U16> | |w| == n :: Total(w) < 0x1_0000_0000) <==> n <= 65537
  {
    forall w: seq<U16> | |w| == n && n <= 65537
      ensures Total(w) < 0x1_0000_0000
    {
      TotalBound(w);
    }
    TotalOfOnes(n, n);
    assert |Ones(n, n)| == n;
  }

  /** What the loop computes is the checksum of RFC 1071 for every buffer the accumulator can hold. */
  lemma LoopIsChecksum(w: seq<U16>)
    requires |w| <= 65537
    ensures Finish(Total(w) % 0x1_0000_0000) == Checksum(w)
  {
    AccumulatorBound(|w|);
    ModulusOfSmall(Total(w));
    FinishIsCanon(Total(w));
    OnesSumIsCanon(w);
  }

  lemma ModulusOfSmall(n: nat)
    requires n < 0x1_0000_0000
    ensures n % 0x1_0000_0000 == n
  {
  }

  /** Whether the loop returns the checksum of these words. */
  predicate LoopCorrect(w: seq<U16>) {
    Finish(Total(w) % 0x1_0000_0000) == Checksum(w)
  }

  lemma OverflowFails(w: seq<U16>)
    requires Total(w) == 0xFFFF * 65538
    ensures !LoopCorrect(w)
  {
    var n := Total(w);
    assert n == 0x1_0000_0000 + 0xFFFE;
    assert n % 0x1_0000_0000 == 0xFFFE;
    FinishIsCanon(0xFFFE);
    Residue(0xFFFD, 0, 0xFFFD);
    OnesSumIsCanon(w);
    Residue(n - 1, 65537, 0xFFFE);
  }

  /**
   * The loop is right on all data of a length exactly if it is at most 65537 words; beyond, a lost carry changes the
   * result.
   */
  lemma LoopCorrectIff(n: nat)
    ensures (forall w: seq<U16> | |w| == n :: LoopCorrect(w)) <==> n <= 65537
  {
    forall w: seq<U16> | |w| == n && n <= 65537
      ensures LoopCorrect(w)
    {
      LoopIsChecksum(w);
    }
    if n > 65537 {
      TotalOfOnes(65538, n);
      OverflowFails(Ones(65538, n));
    }
  }

  // ----- storing the checksum makes the data verify -----

  lemma {:induction false} TotalUpdate(w: seq<U16>, k: nat, c: U16)
    requires k < |w|
    ensures Total(w[k := c]) == Total(w) - w[k] + c
  {
    if k == 0 {
      assert w[k := c][1..] == w[1..];
    } else {
      assert w[k := c][1..] == w[1..][k - 1 := c];
      TotalUpdate(w[1..], k - 1, c);
    }
  }

  lemma CanonComplement(n: nat)
    ensures Canon(n + (0xFFFF - Canon(n))) == 0xFFFF
  {
    if n > 0 {
      var q, r := (n - 1) / 0xFFFF, (n - 1) % 0xFFFF;
      assert n + (0xFFFF - Canon(n)) == 0xFFFF * (q + 1);
      assert (0xFFFF * (q + 1) - 1) % 0xFFFF == 0xFFFE by {
        assert 0xFFFF * (q + 1) - 1 == 0xFFFF * q + 0xFFFE;
      }
    }
  }

  /** Writing the checksum of data whose field is zero into that field makes the checksum come out 0. */
  lemma StoredChecksumVerifies(w: seq<U16>, k: nat)
    requires k < |w| && w[k] == 0
    ensures Checksum(w[k := Checksum(w)]) == 0
  {
    TotalUpdate(w, k, Checksum(w));
    OnesSumIsCanon(w);
    OnesSumIsCanon(w[k := Checksum(w)]);
    CanonComplement(Total(w));
  }

  /** The receiver's test rejects every other value of the field, 0x0000 and 0xFFFF being the same number. */
  lemma OnlyTheChecksumVerifies(w: seq<U16>, k: nat, c: U16)
    requires k < |w| && w[k] == 0
    requires Checksum(w[k := c]) == 0
    ensures c % 0xFFFF == Checksum(w) % 0xFFFF
  {
    TotalUpdate(w, k, c);
    OnesSumIsCanon(w);
    OnesSumIsCanon(w[k := c]);
    CanonModulus(Total(w));
    CanonModulus(Total(w) + c);
    SameResidue(Total(w), c);
  }

  /** A field that makes the sum a multiple of 65535 is the complement of the rest, up to the two zeros. */
  lemma SameResidue(n: nat, c: U16)
    requires (n + c) % 0xFFFF == 0
    ensures c % 0xFFFF == (0xFFFF - n % 0xFFFF) % 0xFFFF
  {
    var q := (n + c) / 0xFFFF;
    assert c == 0xFFFF * (q - n / 0xFFFF) - n % 0xFFFF;
  }

  lemma CanonModulus(n: nat)
    ensures Canon(n) % 0xFFFF == n % 0xFFFF
  {
    if n > 0 {
      assert n == 0xFFFF * ((n - 1) / 0xFFFF) + Canon(n);
    }
  }

  // ----- byte order -----

  function Swap(w: U16): U16 {
    w % 0x100 * 0x100 + w / 0x100
  }

  function SwapAll(w: seq<U16>): (r: seq<U16>)
    ensures |r| == |w|
  {
    seq(|w|, i requires 0 <= i < |w| => Swap(w[i]))
  }

  lemma SwapOf(w: U16, h: U8, l: U8)
    requires w == 0x100 * h + l
    ensures Swap(w) == 0x100 * l + h
  {
  }

  /** One's-complement addition commutes with swapping: the carry out of either half enters the other one. */
  lemma SwapAdd(a: U16, b: U16)
    ensures Swap(OnesAdd(a, b)) == OnesAdd(Swap(a), Swap(b))
  {
    var ah, al, bh, bl := a / 0x100, a % 0x100, b / 0x100, b % 0x100;
    SwapOf(a, ah, al);
    SwapOf(b, bh, bl);
    var h, l := ah + bh, al + bl;
    var carryUp := if 0x100 * h + l > 0xFFFF then 1 else 0;
    var carryDown := if 0x100 * l + h > 0xFFFF then 1 else 0;
    SwapOf(OnesAdd(a, b), h - 0x100 * carryUp + carryDown, l - 0x100 * carryDown + carryUp);
  }

  /** Section 2(B) of RFC 1071: the checksum of byte-swapped words is the byte-swapped checksum. */
  lemma {:induction false} ChecksumOfSwapped(w: seq<U16>)
    ensures Checksum(SwapAll(w)) == Swap(Checksum(w))
    ensures OnesSum(SwapAll(w)) == Swap(OnesSum(w))
  {
    if w != [] {
      assert SwapAll(w)[1..] == SwapAll(w[1..]);
      ChecksumOfSwapped(w[1..]);
      SwapAdd(w[0], OnesSum(w[1..]));
    }
    SwapComplement(OnesSum(w));
  }

  lemma SwapComplement(s: U16)
    ensures Swap(0xFFFF - s) == 0xFFFF - Swap(s)
  {
    var h, l := s / 0x100, s % 0x100;
    assert 0xFFFF - s == 0x100 * (0xFF - h) + (0xFF - l);
  }

  lemma {:induction false} WordsSwap(b: seq<U8>)
    ensures WordsOf(Big, b) == SwapAll(WordsOf(Little, b))
  {
    if |b| > 1 {
      WordsSwap(b[2..]);
    }
  }

  lemma StoreSwap(w: U16)
    ensures Store(Little, w) == Store(Big, Swap(w))
  {
    var h, l := w / 0x100, w % 0x100;
    SwapOf(w, h, l);
    assert Swap(w) / 0x100 == l && Swap(w) % 0x100 == h;
  }

  /** Summing native words and storing natively writes the same two bytes on either kind of machine. */
  lemma StoredBytesIndependentOfEndian(b: seq<U8>)
    ensures Store(Little, Checksum(WordsOf(Little, b))) == Store(Big, Checksum(WordsOf(Big, b)))
  {
    var c := Checksum(WordsOf(Little, b));
    WordsSwap(b);
    ChecksumOfSwapped(WordsOf(Little, b));
    assert Checksum(WordsOf(Big, b)) == Swap(c);
    StoreSwap(c);
  }

  // ----- what a receiver computes -----

  /** The bytes of a buffer as 16-bit numbers in network order, added up; an odd last byte counts as a high one. */
  function Weight(b: seq<U8>): nat {
    if |b| == 0 then 0
    else if |b| == 1 then 256 * b[0]
    else 256 * b[0] + b[1] + Weight(b[2..])
  }

  /** The sum is all ones in one's-complement arithmetic: the test of section 1 of RFC 1071. */
  predicate AllOnes(sum: nat) {
    sum > 0 && sum % 0xFFFF == 0
  }

  lemma {:induction false} WeightIsTotal(b: seq<U8>)
    ensures Weight(b) == Total(WordsOf(Big, b))
  {
    if |b| > 1 {
      WeightIsTotal(b[2..]);
      TotalStep(Big, b);
    }
  }

  lemma {:induction false} WeightAppend(a: seq<U8>, b: seq<U8>)
    requires |a| % 2 == 0
    ensures Weight(a + b) == Weight(a) + Weight(b)
  {
    if |a| == 0 {
      assert a + b == b;
    } else {
      WeightAppend(a[2..], b);
      assert (a + b)[2..] == a[2..] + b;
    }
  }

  /** A machine of either kind finds checksum 0 exactly where the sum in network order is all ones. */
  lemma ZeroIffAllOnes(e: Endian, b: seq<U8>)
    ensures Checksum(WordsOf(e, b)) == 0 <==> AllOnes(Weight(b))
  {
    WeightIsTotal(b);
    OnesSumIsCanon(WordsOf(Big, b));
    CanonFull(Weight(b));
    WordsSwap(b);
    ChecksumOfSwapped(WordsOf(Little, b));
    SwapIsZero(Checksum(WordsOf(Little, b)));
  }

  lemma CanonFull(n: nat)
    ensures Canon(n) == 0xFFFF <==> AllOnes(n)
  {
    if n > 0 {
      CanonModulus(n);
    }
  }

  lemma SwapIsZero(w: U16)
    ensures Swap(w) == 0 <==> w == 0
  {
  }

  lemma StoredWeight(c: U16)
    ensures Weight(Store(Big, c)) == c
  {
    assert Store(Big, c)[2..] == [];
  }

  /** Whatever is summed, adding the checksum as it is stored makes the sum all ones. */
  lemma ComplementSumsUp(e: Endian, b: seq<U8>)
    ensures AllOnes(Weight(b) + Weight(Store(e, Checksum(WordsOf(e, b)))))
  {
    var n, c := Weight(b), Checksum(WordsOf(Big, b));
    WeightIsTotal(b);
    OnesSumIsCanon(WordsOf(Big, b));
    StoredBytesIndependentOfEndian(b);
    StoredWeight(c);
    CanonComplement(n);
    CanonFull(n + c);
  }

  // ----- from words back to the bytes of a header -----

  lemma {:induction false} WordsLength(e: Endian, b: seq<U8>)
    ensures |WordsOf(e, b)| == (|b| + 1) / 2
  {
    if |b| > 1 {
      WordsLength(e, b[2..]);
    }
  }

  /** Storing a word at an even offset replaces exactly one word. */
  lemma {:induction false} WordsAfterStore(e: Endian, b: seq<U8>, k: nat, c: U16)
    requires 2 * k + 2 <= |b|
    ensures |WordsOf(e, b)| > k
    ensures WordsOf(e, b[2 * k := Store(e, c)[0]][2 * k + 1 := Store(e, c)[1]]) == WordsOf(e, b)[k := c]
  {
    WordsLength(e, b);
    var b' := b[2 * k := Store(e, c)[0]][2 * k + 1 := Store(e, c)[1]];
    assert Load(e, Store(e, c)[0], Store(e, c)[1]) == c;
    if k == 0 {
      assert b'[2..] == b[2..];
    } else {
      assert b'[2..] == b[2..][2 * (k - 1) := Store(e, c)[0]][2 * (k - 1) + 1 := Store(e, c)[1]];
      WordsAfterStore(e, b[2..], k - 1, c);
    }
  }

  lemma {:induction false} WordAt(e: Endian, b: seq<U8>, k: nat)
    requires 2 * k + 2 <= |b|
    ensures |WordsOf(e, b)| > k && WordsOf(e, b)[k] == Load(e, b[2 * k], b[2 * k + 1])
  {
    WordsLength(e, b);
    if k > 0 {
      WordAt(e, b[2..], k - 1);
    }
  }

  /** The bytes `b` with a zeroed 16-bit field at the even offset `at`. */
  function Zeroed(b: seq<U8>, at: nat): (z: seq<U8>)
    requires at + 2 <= |b|
    ensures |z| == |b|
  {
    b[at := 0][at + 1 := 0]
  }

  /** The bytes `b` with `w` stored natively at `at`. */
  function WithField(e: Endian, b: seq<U8>, at: nat, w: U16): (z: seq<U8>)
    requires at + 2 <= |b|
    ensures |z| == |b|
  {
    b[at := Store(e, w)[0]][at + 1 := Store(e, w)[1]]
  }

  /** Zero the field, checksum, store: afterwards a run over the same bytes returns 0. */
  lemma FieldVerifies(e: Endian, b: seq<U8>, k: nat)
    requires 2 * k + 2 <= |b|
    ensures var z := Zeroed(b, 2 * k);
            Checksum(WordsOf(e, WithField(e, z, 2 * k, Checksum(WordsOf(e, z))))) == 0
  {
    var z := Zeroed(b, 2 * k);
    WordAt(e, z, k);
    WordsAfterStore(e, z, k, Checksum(WordsOf(e, z)));
    StoredChecksumVerifies(WordsOf(e, z), k);
  }

  /** `set_ip_checksum`: always the first 20 bytes of the header. */
  method SetIpChecksum(e: Endian, a: array<U8>, ip: nat)
    requires ip + 20 <= a.Length
    modifies a
    ensures AllOnes(Weight(a[ip..ip + 20]))
    ensures a[ip..ip + 20]
            == WithField(e, Zeroed(old(a[ip..ip + 20]), 10), 10, Checksum(WordsOf(e, Zeroed(old(a[ip..ip + 20]), 10))))
    ensures forall i | 0 <= i < a.Length && !(ip + 10 <= i < ip + 12) :: a[i] == old(a[i])
  {
    ghost var hdr := a[ip..ip + 20];
    a[ip + 10], a[ip + 11] := 0, 0;
    assert a[ip..ip + 20] == Zeroed(hdr, 10);
    var c := InCksum(e, a, ip, 20);
    WordsLength(e, Zeroed(hdr, 10));
    LoopIsChecksum(WordsOf(e, Zeroed(hdr, 10)));
    FieldVerifies(e, hdr, 5);
    var bytes := Store(e, c);
    a[ip + 10], a[ip + 11] := bytes[0], bytes[1];
    assert a[ip..ip + 20] == WithField(e, Zeroed(hdr, 10), 10, c);
    ZeroIffAllOnes(e, a[ip..ip + 20]);
  }

  /** The pseudo header in front of a TCP segment: addresses, zero, protocol 6, segment length in network order. */
  function PseudoHeader(saddr: seq<U8>, daddr: seq<U8>, len: U16): (p: seq<U8>)
    requires |saddr| == |daddr| == 4
    ensures |p| == 12
  {
    saddr + daddr + [0, 6, len / 0x100, len % 0x100]
  }

  lemma PseudoWeight(saddr: seq<U8>, daddr: seq<U8>, len: U16, segment: seq<U8>)
    requires |saddr| == |daddr| == 4
    ensures Weight(PseudoHeader(saddr, daddr, len) + segment) == Weight(saddr + daddr) + 6 + len + Weight(segment)
  {
    var rest := [0, 6, len / 0x100, len % 0x100];
    var length := [len / 0x100, len % 0x100];
    WeightAppend(PseudoHeader(saddr, daddr, len), segment);
    WeightAppend(saddr + daddr, rest);
    assert PseudoHeader(saddr, daddr, len) == (saddr + daddr) + rest;
    assert rest[2..] == length && length[2..] == [];
    assert Weight(length) == len;
    assert Weight(rest) == 6 + Weight(length);
  }

  /** The checksum of pseudo header and segment makes up the sum over addresses, protocol 6, length and segment. */
  lemma SegmentSum(e: Endian, saddr: seq<U8>, daddr: seq<U8>, addresses: seq<U8>, len: U16, segment: seq<U8>)
    requires |saddr| == |daddr| == 4 && addresses == saddr + daddr
    ensures var data := PseudoHeader(saddr, daddr, len) + segment;
            var sum := Weight(addresses) + 6 + len + Weight(segment);
            && AllOnes(sum + Weight(Store(e, Checksum(WordsOf(e, data)))))
            && (Checksum(WordsOf(e, data)) == 0 <==> AllOnes(sum))
  {
    var data := PseudoHeader(saddr, daddr, len) + segment;
    PseudoWeight(saddr, daddr, len, segment);
    ComplementSumsUp(e, data);
    ZeroIffAllOnes(e, data);
  }

  /** The scratch buffer of `tcp_checksum`: pseudo header, TCP header and payload. */
  method FillScratch(a: array<U8>, ip: nat, segLen: U16) returns (chk: array<U8>)
    requires ip + 20 + segLen <= a.Length
    ensures fresh(chk)
    ensures chk[..] == PseudoHeader(a[ip + 12..ip + 16], a[ip + 16..ip + 20], segLen) + a[ip + 20..ip + 20 + segLen]
  {
    chk := new U8[12 + segLen];
    forall i | 0 <= i < 8 {
      chk[i] := a[ip + 12 + i];
    }
    chk[8], chk[9], chk[10], chk[11] := 0, 6, segLen / 0x100, segLen % 0x100;
    forall i | 0 <= i < segLen {
      chk[12 + i] := a[ip + 20 + i];
    }
    ghost var data := PseudoHeader(a[ip + 12..ip + 16], a[ip + 16..ip + 20], segLen) + a[ip + 20..ip + 20 + segLen];
    forall i | 0 <= i < 12 + segLen ensures chk[i] == data[i] {
      if i < 4 {
        assert data[i] == a[ip + 12..ip + 16][i];
      } else if i < 8 {
        assert data[i] == a[ip + 16..ip + 20][i - 4];
      } else if i >= 12 {
        assert data[i] == a[ip + 20..ip + 20 + segLen][i - 12];
      }
    }
  }

  /** `tcp_checksum`: copy everything into a scratch buffer and checksum that. */
  method TcpChecksum(e: Endian, a: array<U8>, ip: nat, segLen: U16) returns (c: U16)
    requires 20 <= segLen && segLen - 20 <= 2048
    requires ip + 20 + segLen <= a.Length
    ensures c == Checksum(WordsOf(e, PseudoHeader(a[ip + 12..ip + 16], a[ip + 16..ip + 20], segLen)
                                  + a[ip + 20..ip + 20 + segLen]))
    ensures AllOnes(Weight(a[ip + 12..ip + 20]) + 6 + segLen + Weight(a[ip + 20..ip + 20 + segLen])
                    + Weight(Store(e, c)))
  {
    var chk := FillScratch(a, ip, segLen);
    ghost var data := PseudoHeader(a[ip + 12..ip + 16], a[ip + 16..ip + 20], segLen) + a[ip + 20..ip + 20 + segLen];
    assert chk[0..12 + segLen] == data;
    c := InCksum(e, chk, 0, 12 + segLen);
    WordsLength(e, data);
    LoopIsChecksum(WordsOf(e, data));
    SegmentSum(e, a[ip + 12..ip + 16], a[ip + 16..ip + 20], a[ip + 12..ip + 20], segLen, a[ip + 20..ip + 20 + segLen]);
  }

  /** `set_tcp_checksum`: the field is 16 bytes into the TCP header. */
  method SetTcpChecksum(e: Endian, a: array<U8>, ip: nat, segLen: U16)
    requires 20 <= segLen && segLen - 20 <= 2048
    requires ip + 20 + segLen <= a.Length
    modifies a
    ensures AllOnes(Weight(a[ip + 12..ip + 20]) + 6 + segLen + Weight(a[ip + 20..ip + 20 + segLen]))
    ensures forall i | 0 <= i < a.Length && !(ip + 36 <= i < ip + 38) :: a[i] == old(a[i])
    ensures a[ip + 36..ip + 38] == Store(e, Checksum(WordsOf(e,
              Zeroed(PseudoHeader(old(a[ip + 12..ip + 16]), old(a[ip + 16..ip + 20]), segLen)
                     + old(a[ip + 20..ip + 20 + segLen]), 28))))
  {
    ghost var pseudo := PseudoHeader(a[ip + 12..ip + 16], a[ip + 16..ip + 20], segLen);
    ghost var data := pseudo + a[ip + 20..ip + 20 + segLen];
    a[ip + 36], a[ip + 37] := 0, 0;
    ghost var zeroed := PseudoHeader(a[ip + 12..ip + 16], a[ip + 16..ip + 20], segLen) + a[ip + 20..ip + 20 + segLen];
    assert zeroed == Zeroed(data, 28);
    var c := TcpChecksum(e, a, ip, segLen);
    FieldVerifies(e, data, 14);
    var bytes := Store(e, c);
    a[ip + 36], a[ip + 37] := bytes[0], bytes[1];
    ghost var final := PseudoHeader(a[ip + 12..ip + 16], a[ip + 16..ip + 20], segLen) + a[ip + 20..ip + 20 + segLen];
    assert final == WithField(e, zeroed, 28, c);
    SegmentSum(e, a[ip + 12..ip + 16], a[ip + 16..ip + 20], a[ip + 12..ip + 20], segLen, a[ip + 20..ip + 20 + segLen]);
  }
}

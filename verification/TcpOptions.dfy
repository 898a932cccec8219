/**
 * The three TCP timestamp walkers of `netcode.c`. Throughout, `s` is the memory that starts right
 * after the fixed TCP header and `n` the length of the option area in it (`doff * 4 - 20`); the
 * payload follows the options, so `|s|` may exceed `n`.
 */
module TcpOptions {
  import opened Words

  const EOL: U8 := 0
  const NOP: U8 := 1
  const TIMESTAMP: U8 := 8
  const TIMESTAMP_LEN: U8 := 10
  /** A timestamp option behind two NOPs, the layout appendix A of RFC 7323 recommends. */
  const ALIGNED_LEN: nat := 12

  /** How a walk over the options ends. */
  datatype Stop =
    | End            // ran into EOL or off the area
    | Ts(at: nat)    // stands on a timestamp option
    | Spin(at: nat)  // the next iteration starts where this one did

  /** Where the loop that starts at `p` stops; `strip` takes a timestamp option of any length. */
  function Walk(s: seq<U8>, n: nat, p: nat, anyLength: bool): Stop
    requires n <= |s|
    decreases n - p
  {
    if p + 1 >= n || s[p] == EOL then End
    else if s[p] == NOP then Walk(s, n, p + 1, anyLength)
    else if s[p] == TIMESTAMP then
      if anyLength || s[p + 1] == TIMESTAMP_LEN then Ts(p) else Spin(p)
    else if s[p + 1] == 0 then Spin(p)
    else Walk(s, n, p + s[p + 1], anyLength)
  }

  /** The loop has left after at most `k` iterations, counting every iteration the C loop makes. */
  predicate Exits(s: seq<U8>, n: nat, p: nat, anyLength: bool, k: nat)
    requires n <= |s|
    decreases k
  {
    if p + 1 >= n then true
    else if k == 0 then false
    else if s[p] == EOL then true
    else if s[p] == NOP then Exits(s, n, p + 1, anyLength, k - 1)
    else if s[p] == TIMESTAMP then
      (anyLength || s[p + 1] == TIMESTAMP_LEN) || Exits(s, n, p, anyLength, k - 1)
    else Exits(s, n, p + s[p + 1], anyLength, k - 1)
  }

  lemma {:induction false} NoSpinExits(s: seq<U8>, n: nat, p: nat, anyLength: bool)
    requires n <= |s| && !Walk(s, n, p, anyLength).Spin?
    ensures Exits(s, n, p, anyLength, n)
  {
    NoSpinExitsWithin(s, n, p, anyLength, n);
  }

  lemma {:induction false} NoSpinExitsWithin(s: seq<U8>, n: nat, p: nat, anyLength: bool, k: nat)
    requires n <= |s| && !Walk(s, n, p, anyLength).Spin? && n <= p + k
    ensures Exits(s, n, p, anyLength, k)
    decreases n - p
  {
    if p + 1 >= n || s[p] == EOL || s[p] == TIMESTAMP {
    } else if s[p] == NOP {
      NoSpinExitsWithin(s, n, p + 1, anyLength, k - 1);
    } else {
      NoSpinExitsWithin(s, n, p + s[p + 1], anyLength, k - 1);
    }
  }

  lemma {:induction false} SpinNeverExits(s: seq<U8>, n: nat, p: nat, anyLength: bool, k: nat)
    requires n <= |s| && Walk(s, n, p, anyLength).Spin?
    ensures !Exits(s, n, p, anyLength, k)
    decreases k
  {
    if k > 0 {
      if s[p] == NOP {
        SpinNeverExits(s, n, p + 1, anyLength, k - 1);
      } else {
        SpinNeverExits(s, n, if s[p] == TIMESTAMP then p else p + s[p + 1], anyLength, k - 1);
      }
    }
  }

  /** The C loop leaves after some number of iterations. */
  ghost predicate Terminates(s: seq<U8>, n: nat, anyLength: bool)
    requires n <= |s|
  {
    exists k: nat :: Exits(s, n, 0, anyLength, k)
  }

  /** Exactly when the loops terminate: the walk meets no zero-length option and no malformed timestamp. */
  lemma TerminatesIff(s: seq<U8>, n: nat, anyLength: bool)
    requires n <= |s|
    ensures Terminates(s, n, anyLength) <==> !Walk(s, n, 0, anyLength).Spin?
  {
    if Walk(s, n, 0, anyLength).Spin? {
      forall k: nat ensures !Exits(s, n, 0, anyLength, k) {
        SpinNeverExits(s, n, 0, anyLength, k);
      }
    } else {
      NoSpinExits(s, n, 0, anyLength);
      var k: nat := n;
      assert Exits(s, n, 0, anyLength, k);
    }
  }

  /**
   * Two areas no walker, or neither of the two that read values, ever leaves: an option of length zero, a timestamp of
   * length four.
   */
  lemma EndlessAreas()
    ensures forall anyLength :: !Terminates([3, 0, 0, 0], 4, anyLength)
    ensures !Terminates([TIMESTAMP, 4, 0, 0], 4, false) && Terminates([TIMESTAMP, 4, 0, 0], 4, true)
  {
    forall anyLength ensures !Terminates([3, 0, 0, 0], 4, anyLength) {
      TerminatesIff([3, 0, 0, 0], 4, anyLength);
    }
    TerminatesIff([TIMESTAMP, 4, 0, 0], 4, false);
    TerminatesIff([TIMESTAMP, 4, 0, 0], 4, true);
  }

  /** The value of four bytes in network order. */
  function Value(b0: U8, b1: U8, b2: U8, b3: U8): U32 {
    0x100_0000 * b0 + 0x1_0000 * b1 + 0x100 * b2 + b3
  }

  lemma ValueOfBytes(v: U32)
    ensures Value(v / 0x100_0000, v / 0x1_0000 % 0x100, v / 0x100 % 0x100, v % 0x100) == v
  {
    var x, y := v / 0x100, v / 0x1_0000;
    assert x / 0x100 == y && y / 0x100 == v / 0x100_0000;
    assert v == 0x100 * x + v % 0x100 && x == 0x100 * y + x % 0x100 && y == 0x100 * (y / 0x100) + y % 0x100;
  }

  /** The big-endian 32-bit value at `p`. */
  function Read32(s: seq<U8>, p: nat): U32
    requires p + 4 <= |s|
  {
    Value(s[p], s[p + 1], s[p + 2], s[p + 3])
  }

  function Write32(s: seq<U8>, p: nat, v: U32): (r: seq<U8>)
    requires p + 4 <= |s|
    ensures |r| == |s| && Read32(r, p) == v
    ensures forall i | 0 <= i < |s| && !(p <= i < p + 4) :: r[i] == s[i]
  {
    ValueOfBytes(v);
    s[p := v / 0x100_0000][p + 1 := v / 0x1_0000 % 0x100][p + 2 := v / 0x100 % 0x100][p + 3 := v % 0x100]
  }

  /** The four bytes the fast path compares: NOP, NOP, timestamp, length 10. */
  predicate AlignedHeader(s: seq<U8>, n: nat)
    requires n <= |s|
  {
    n == ALIGNED_LEN && s[0] == NOP && s[1] == NOP && s[2] == TIMESTAMP && s[3] == TIMESTAMP_LEN
  }

  /** The general walk stops on the timestamp the fast path assumes. */
  lemma FastPathAgrees(s: seq<U8>, n: nat, anyLength: bool)
    requires n <= |s| && AlignedHeader(s, n)
    ensures Walk(s, n, 0, anyLength) == Ts(2)
  {
    assert Walk(s, n, 1, anyLength) == Walk(s, n, 2, anyLength);
  }

  /** What the `get` and `set` loops need: they end, and a timestamp they stop on lies inside the segment. */
  predicate WellFormed(s: seq<U8>, n: nat) {
    n <= |s| && match Walk(s, n, 0, false)
                case End => true
                case Ts(p) => p + 10 <= |s|
                case Spin(_) => false
  }

  /** The timestamp values `get_tcp_timestamps` is meant to find. */
  function Timestamps(s: seq<U8>, n: nat): Option<(U32, U32)>
    requires WellFormed(s, n)
  {
    match Walk(s, n, 0, false)
    case Ts(p) => Some((Read32(s, p + 2), Read32(s, p + 6)))
    case _ => None
  }

  /** The number some bytes in network order stand for. */
  function Network(b: seq<U8>): nat {
    if b == [] then 0 else 256 * Network(b[..|b| - 1]) + b[|b| - 1]
  }

  lemma NetworkOfFour(s: seq<U8>, p: nat)
    requires p + 4 <= |s|
    ensures Network(s[p..p + 4]) == Read32(s, p)
  {
    var b := s[p..p + 4];
    assert b[..3] == s[p..p + 3] && s[p..p + 3][..2] == s[p..p + 2] && s[p..p + 2][..1] == s[p..p + 1];
    assert s[p..p + 1][..0] == [];
    assert Network(s[p..p + 1]) == s[p];
    assert Network(s[p..p + 2]) == 256 * Network(s[p..p + 1]) + s[p + 1];
    assert Network(s[p..p + 3]) == 256 * Network(s[p..p + 2]) + s[p + 2];
    assert Network(b) == 256 * Network(s[p..p + 3]) + s[p + 3];
  }

  /** An option area as RFC 7323 recommends it, byte by byte: the two values stand at offsets 4 and 8. */
  lemma RecommendedLayout(s: seq<U8>, n: nat)
    requires 12 <= n <= |s| && s[0] == 1 && s[1] == 1 && s[2] == 8 && s[3] == 10
    ensures WellFormed(s, n) && Network(s[4..8]) < 0x1_0000_0000 && Network(s[8..12]) < 0x1_0000_0000
    ensures Timestamps(s, n) == Some((Network(s[4..8]), Network(s[8..12])))
  {
    assert Walk(s, n, 1, false) == Walk(s, n, 2, false);
    NetworkOfFour(s, 4);
    NetworkOfFour(s, 8);
  }

  /**
   * Other options are skipped by their length, and the list of options ends where it says so: section 3.1 of RFC 793.
   */
  lemma OtherOptionsSkipped(s: seq<U8>, n: nat, p: nat)
    requires p + 1 < n <= |s|
    ensures s[p] == 0 ==> Walk(s, n, p, false) == End
    ensures s[p] == 1 ==> Walk(s, n, p, false) == Walk(s, n, p + 1, false)
    ensures s[p] !in {0, 1, 8} && s[p + 1] != 0 ==> Walk(s, n, p, false) == Walk(s, n, p + s[p + 1], false)
    ensures s[p] == 8 && s[p + 1] == 10 ==> Walk(s, n, p, false) == Ts(p)
  {
  }

  /** `get_tcp_timestamps` */
  method GetTimestamps(a: array<U8>, n: nat) returns (r: Option<(U32, U32)>)
    requires WellFormed(a[..], n)
    ensures r == Timestamps(a[..], n)
  {
    if n == 0 {
      return None;
    }
    ghost var s := a[..];
    if n == ALIGNED_LEN && a[0] == NOP && a[1] == NOP && a[2] == TIMESTAMP && a[3] == TIMESTAMP_LEN {
      FastPathAgrees(s, n, false);
      var tsval := Load32(a, 4);
      var tsecho := Load32(a, 8);
      return Some((tsval, tsecho));
    }
    var p := 0;
    while p + 1 < n
      invariant Walk(s, n, p, false) == Walk(s, n, 0, false)
      decreases n - p
    {
      var opcode, opsize := a[p], a[p + 1];
      if opcode == EOL {
        return None;
      } else if opcode == NOP {
        p := p + 1;
      } else if opcode == TIMESTAMP {
        var tsval := Load32(a, p + 2);
        var tsecho := Load32(a, p + 6);
        return Some((tsval, tsecho));
      } else {
        p := p + opsize;
      }
    }
    return None;
  }

  method Load32(a: array<U8>, p: nat) returns (v: U32)
    requires p + 4 <= a.Length
    ensures v == Read32(a[..], p)
  {
    v := Value(a[p], a[p + 1], a[p + 2], a[p + 3]);
  }

  method Save32(a: array<U8>, p: nat, v: U32)
    requires p + 4 <= a.Length
    modifies a
    ensures a[..] == Write32(old(a[..]), p, v)
  {
    a[p], a[p + 1] := v / 0x100_0000, v / 0x1_0000 % 0x100;
    a[p + 2], a[p + 3] := v / 0x100 % 0x100, v % 0x100;
  }

  function Overwrite(s: seq<U8>, p: nat, v: Option<U32>): (r: seq<U8>)
    requires p + 4 <= |s|
    ensures |r| == |s|
  {
    if v.Some? then Write32(s, p, v.value) else s
  }

  /** The segment after `set_tcp_timestamps`; an absent value leaves its four bytes alone. */
  function Updated(s: seq<U8>, n: nat, tsval: Option<U32>, tsecho: Option<U32>): (r: seq<U8>)
    requires WellFormed(s, n)
    ensures |r| == |s|
  {
    match Walk(s, n, 0, false)
    case Ts(p) => Overwrite(Overwrite(s, p + 2, tsval), p + 6, tsecho)
    case _ => s
  }

  method Put(a: array<U8>, p: nat, tsval: Option<U32>, tsecho: Option<U32>)
    requires p + 8 <= a.Length
    modifies a
    ensures a[..] == Overwrite(Overwrite(old(a[..]), p, tsval), p + 4, tsecho)
  {
    if tsval.Some? {
      Save32(a, p, tsval.value);
    }
    if tsecho.Some? {
      Save32(a, p + 4, tsecho.value);
    }
  }

  /** `set_tcp_timestamps` */
  method SetTimestamps(a: array<U8>, n: nat, tsval: Option<U32>, tsecho: Option<U32>)
    requires WellFormed(a[..], n)
    modifies a
    ensures a[..] == Updated(old(a[..]), n, tsval, tsecho)
  {
    if n == 0 || (tsval.None? && tsecho.None?) {
      return;
    }
    ghost var s := a[..];
    if n == ALIGNED_LEN && a[0] == NOP && a[1] == NOP && a[2] == TIMESTAMP && a[3] == TIMESTAMP_LEN {
      FastPathAgrees(s, n, false);
      Put(a, 4, tsval, tsecho);
      return;
    }
    var p := 0;
    while p + 1 < n
      invariant a[..] == s
      invariant Walk(s, n, p, false) == Walk(s, n, 0, false)
      decreases n - p
    {
      var opcode, opsize := a[p], a[p + 1];
      if opcode == EOL {
        return;
      } else if opcode == NOP {
        p := p + 1;
      } else if opcode == TIMESTAMP {
        Put(a, p + 2, tsval, tsecho);
        return;
      } else {
        p := p + opsize;
      }
    }
  }

  /** The byte `strip_tcp_timestamps` turns into EOL, if any: the fast path hits the first NOP instead of the option. */
  function StripAt(s: seq<U8>, n: nat): (at: Option<nat>)
    requires n <= |s|
    ensures at.Some? ==> at.value < n
  {
    if AlignedHeader(s, n) then Some(0)
    else match Walk(s, n, 0, true)
         case Ts(p) => WalkInside(s, n, 0, true); Some(p)
         case _ => None
  }

  lemma {:induction false} WalkInside(s: seq<U8>, n: nat, p: nat, anyLength: bool)
    requires n <= |s|
    ensures Walk(s, n, p, anyLength).Ts? ==> p <= Walk(s, n, p, anyLength).at && Walk(s, n, p, anyLength).at + 1 < n
    decreases n - p
  {
    if p + 1 < n {
      if s[p] == NOP {
        WalkInside(s, n, p + 1, anyLength);
      } else if s[p] != EOL && s[p] != TIMESTAMP && s[p + 1] != 0 {
        WalkInside(s, n, p + s[p + 1], anyLength);
      }
    }
  }

  /** `strip_tcp_timestamps` */
  method StripTimestamps(a: array<U8>, n: nat)
    requires n <= a.Length && !Walk(a[..], n, 0, true).Spin?
    modifies a
    ensures a[..] == match StripAt(old(a[..]), n) case None => old(a[..]) case Some(p) => old(a[..])[p := EOL]
  {
    if n == 0 {
      return;
    }
    ghost var s := a[..];
    if n == ALIGNED_LEN && a[0] == NOP && a[1] == NOP && a[2] == TIMESTAMP && a[3] == TIMESTAMP_LEN {
      a[0] := EOL;
      return;
    }
    var p := 0;
    while p + 1 < n
      invariant a[..] == s
      invariant Walk(s, n, p, true) == Walk(s, n, 0, true)
      decreases n - p
    {
      var opcode, opsize := a[p], a[p + 1];
      if opcode == EOL {
        return;
      } else if opcode == NOP {
        p := p + 1;
      } else if opcode == TIMESTAMP {
        a[p] := EOL;
        return;
      } else {
        p := p + opsize;
      }
    }
  }

  // ----- what one walker leaves for the next -----

  /** A walk that stops on a timestamp at `at` does not look past its length byte. */
  lemma {:induction false} WalkFrame(s: seq<U8>, t: seq<U8>, n: nat, p: nat, at: nat)
    requires n <= |s| == |t|
    requires Walk(s, n, p, false) == Ts(at)
    requires forall i | 0 <= i < at + 2 && i < |s| :: s[i] == t[i]
    ensures Walk(t, n, p, false) == Ts(at)
    decreases n - p
  {
    WalkInside(s, n, p, false);
    if s[p] == NOP {
      WalkInside(s, n, p + 1, false);
      WalkFrame(s, t, n, p + 1, at);
    } else if s[p] != TIMESTAMP {
      WalkInside(s, n, p + s[p + 1], false);
      WalkFrame(s, t, n, p + s[p + 1], at);
    }
  }

  /** `get` after `set`: the values set, the other one untouched, every byte outside the two values unchanged. */
  lemma GetAfterSet(s: seq<U8>, n: nat, tsval: Option<U32>, tsecho: Option<U32>)
    requires WellFormed(s, n)
    ensures WellFormed(Updated(s, n, tsval, tsecho), n)
    ensures Timestamps(Updated(s, n, tsval, tsecho), n) ==
            match Timestamps(s, n)
            case None => None
            case Some(now) =>
                 Some((if tsval.Some? then tsval.value else now.0, if tsecho.Some? then tsecho.value else now.1))
    ensures match Walk(s, n, 0, false)
            case Ts(p) => forall i | 0 <= i < |s| && !(p + 2 <= i < p + 10) :: Updated(s, n, tsval, tsecho)[i] == s[i]
            case _ => Updated(s, n, tsval, tsecho) == s
  {
    match Walk(s, n, 0, false)
    case Ts(p) =>
      WalkFrame(s, Updated(s, n, tsval, tsecho), n, 0, p);
    case _ =>
  }

  /** The segment after `strip_tcp_timestamps`. */
  function Stripped(s: seq<U8>, n: nat): (r: seq<U8>)
    requires n <= |s|
    ensures |r| == |s|
  {
    match StripAt(s, n) case None => s case Some(p) => s[p := EOL]
  }

  lemma {:induction false} WalkOfStripped(s: seq<U8>, n: nat, p: nat, anyLength: bool)
    requires n <= |s| && !Walk(s, n, p, true).Spin?
    ensures var t := match Walk(s, n, p, true) case Ts(at) => (WalkInside(s, n, p, true); s[at := EOL]) case _ => s;
            Walk(t, n, p, anyLength) == End
    decreases n - p
  {
    if p + 1 < n && s[p] != EOL && s[p] != TIMESTAMP {
      var next := if s[p] == NOP then p + 1 else p + s[p + 1];
      WalkInside(s, n, next, true);
      WalkInside(s, n, next + 1, true);
      WalkOfStripped(s, n, next, anyLength);
    }
  }

  /** `get` after `strip` finds nothing, whichever path `strip` took, and one byte at most has changed. */
  lemma GetAfterStrip(s: seq<U8>, n: nat)
    requires n <= |s| && !Walk(s, n, 0, true).Spin?
    ensures WellFormed(Stripped(s, n), n) && Timestamps(Stripped(s, n), n) == None
    ensures !Walk(Stripped(s, n), n, 0, true).Ts?
  {
    if AlignedHeader(s, n) {
    } else {
      WalkOfStripped(s, n, 0, false);
      WalkOfStripped(s, n, 0, true);
    }
  }

  /**
   * Stripping the recommended layout writes over the first NOP if there is nothing else, and over the option's kind if
   * there is.
   */
  lemma RecommendedStripped(s: seq<U8>, n: nat)
    requires 12 <= n <= |s| && s[0] == 1 && s[1] == 1 && s[2] == 8 && s[3] == 10
    ensures Stripped(s, n) == if n == 12 then s[0 := 0] else s[2 := 0]
  {
    assert Walk(s, n, 1, true) == Walk(s, n, 2, true);
  }

  // ----- fix_tcp_timestamps -----

  /** The timestamp difference as the C code adds it: both operands cut to 32 bits. */
  function Shift(ts: U32, diff: int): U32 {
    (ts + diff % 0x1_0000_0000) % 0x1_0000_0000
  }

  /** What `fix_tcp_timestamps` needs of an area: the walkers it calls end. */
  predicate Fixable(s: seq<U8>, n: nat, unexpected: bool, outOfSync: bool) {
    if unexpected then n <= |s| && !Walk(s, n, 0, true).Spin?
    else outOfSync ==> WellFormed(s, n)
  }

  /** The segment after `fix_tcp_timestamps`. */
  function Fixed(s: seq<U8>, n: nat, unexpected: bool, outOfSync: bool, diff: int): seq<U8>
    requires Fixable(s, n, unexpected, outOfSync)
  {
    if unexpected then Stripped(s, n)
    else if outOfSync && Timestamps(s, n).Some? then Updated(s, n, Some(Shift(Timestamps(s, n).value.0, diff)), None)
    else s
  }

  /** What is found in it: no timestamp, one moved by the difference with its echo left alone, or what was there. */
  lemma FixedShows(s: seq<U8>, n: nat, unexpected: bool, outOfSync: bool, diff: int)
    requires Fixable(s, n, unexpected, outOfSync) && WellFormed(s, n)
    ensures var f := Fixed(s, n, unexpected, outOfSync, diff);
            && WellFormed(f, n)
            && (unexpected ==> Timestamps(f, n) == None)
            && (!unexpected && outOfSync ==>
                Timestamps(f, n) == match Timestamps(s, n)
                                    case None => None
                                    case Some(now) => Some((Shift(now.0, diff), now.1)))
            && (!unexpected && !outOfSync ==> f == s)
  {
    if unexpected {
      GetAfterStrip(s, n);
    } else if outOfSync && Timestamps(s, n).Some? {
      GetAfterSet(s, n, Some(Shift(Timestamps(s, n).value.0, diff)), None);
    }
  }

  /** `fix_tcp_timestamps`, its two effective branches; the third only logs. */
  method FixTimestamps(a: array<U8>, n: nat, unexpected: bool, outOfSync: bool, diff: int) returns (ok: bool)
    requires Fixable(a[..], n, unexpected, outOfSync)
    modifies a
    ensures a[..] == Fixed(old(a[..]), n, unexpected, outOfSync, diff)
    ensures ok <==> unexpected || (outOfSync && Timestamps(old(a[..]), n).Some?)
  {
    if unexpected {
      StripTimestamps(a, n);
      return true;
    }
    if outOfSync {
      var now := GetTimestamps(a, n);
      if now.Some? {
        SetTimestamps(a, n, Some(Shift(now.value.0, diff)), None);
        return true;
      }
    }
    return false;
  }

  /** A 32-bit word read as a C `int`. */
  function Signed(x: U32): int {
    if x < 0x8000_0000 then x else x - 0x1_0000_0000
  }

  /** The sum of the two ints the code adds. */
  function SignedSum(ts: U32, diff: int): int {
    Signed(ts) + Signed(diff % 0x1_0000_0000)
  }

  /**
   * Where the sum fits an int it is the shift; it does not fit iff both operands have the sign bit the shift has not.
   */
  lemma ShiftIsSignedSum(ts: U32, diff: int)
    ensures var d, fits := diff % 0x1_0000_0000, -0x8000_0000 <= SignedSum(ts, diff) < 0x8000_0000;
            && (fits ==> SignedSum(ts, diff) == Signed(Shift(ts, diff)))
            && (!fits <==> ((Signed(ts) < 0) == (Signed(d) < 0) && (Signed(d) < 0) != (Signed(Shift(ts, diff)) < 0)))
  {
  }

  /**
   * With the difference taken from a recorded and a live packet, the live clock is moved onto the
   * recorded one for good: a packet `ticks` later shows the recorded value plus `ticks`.
   */
  lemma ShiftFollowsRecordedClock(recorded: U32, live: U32, ticks: U32)
    ensures Shift((live + ticks) % 0x1_0000_0000, recorded - live) == (recorded + ticks) % 0x1_0000_0000
  {
  }
}

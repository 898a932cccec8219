/** The per-source rate limiter of `mod_control.c` and the bound it really enforces. */
module RateLimit {
  import opened Words

  /** The three strings kept per source address: counter, first seen, duration. */
  datatype Record = Record(counter: int, firstSeen: int, duration: int)

  /** The record written back for a packet at time `now`. */
  function Next(r: Option<Record>, expiration: int, now: int): Record {
    match r
    case None => Record(1, now, 0)
    case Some(e) =>
      if e.duration > expiration then Record(1, now, 0)
      else Record(e.counter + 1, e.firstSeen, now - e.firstSeen)
  }

  function Lookup(m: map<U32, Record>, src: U32): Option<Record> {
    if src in m then Some(m[src]) else None
  }

  /** The backup table the module instances work on, with the two configured limits. */
  class Limiter {
    var source: map<U32, Record>
    const expiration: int
    const maxPacket: int

    constructor (expiration: int, maxPacket: int)
      ensures source == map[] && this.expiration == expiration && this.maxPacket == maxPacket
    {
      source := map[];
      this.expiration := expiration;
      this.maxPacket := maxPacket;
    }

    /** `mod_control`, for a packet of `src` seen at `now`. */
    method Control(src: U32, now: int) returns (accept: bool)
      modifies this`source
      ensures source == old(source)[src := Next(Lookup(old(source), src), expiration, now)]
      ensures accept <==> source[src].counter <= maxPacket
    {
      var counter, firstSeen, duration;
      if src !in source {
        counter, firstSeen, duration := 1, now, 0;
      } else {
        counter, firstSeen, duration := source[src].counter, source[src].firstSeen, source[src].duration;
        if duration > expiration {
          counter, firstSeen, duration := 1, now, 0;
        } else {
          counter := counter + 1;
          duration := now - firstSeen;
        }
      }
      accept := counter <= maxPacket;
      source := source[src := Record(counter, firstSeen, duration)];
    }
  }

  // ----- runs -----

  datatype Hit = Hit(src: U32, now: int)

  /** The whole table after a trace of packets. */
  function Table(trace: seq<Hit>, expiration: int): map<U32, Record> {
    if trace == [] then map[]
    else
      var before, h := Table(trace[..|trace| - 1], expiration), trace[|trace| - 1];
      before[h.src := Next(Lookup(before, h.src), expiration, h.now)]
  }

  /** One source's record after a trace, looking at that source's packets only. */
  function RecordAfter(trace: seq<Hit>, src: U32, expiration: int): Option<Record> {
    if trace == [] then None
    else
      var before, h := RecordAfter(trace[..|trace| - 1], src, expiration), trace[|trace| - 1];
      if h.src == src then Some(Next(before, expiration, h.now)) else before
  }

  /** Sources do not disturb one another. */
  lemma {:induction false} SourcesIndependent(trace: seq<Hit>, src: U32, expiration: int)
    ensures Lookup(Table(trace, expiration), src) == RecordAfter(trace, src, expiration)
  {
    if trace != [] {
      SourcesIndependent(trace[..|trace| - 1], src, expiration);
    }
  }

  predicate Clocked(trace: seq<Hit>) {
    forall i, j | 0 <= i < j < |trace| :: trace[i].now <= trace[j].now
  }

  /** The last packet of the trace belongs to `src` and is let through. */
  predicate LastAccepted(trace: seq<Hit>, src: U32, expiration: int, maxPacket: int)
    requires trace != []
  {
    trace[|trace| - 1].src == src && RecordAfter(trace, src, expiration).value.counter <= maxPacket
  }

  /** How many packets of `src` are accepted at times in the closed interval from `lo` to `hi`. */
  function Accepts(trace: seq<Hit>, src: U32, expiration: int, maxPacket: int, lo: int, hi: int): nat {
    if trace == [] then 0
    else
      Accepts(trace[..|trace| - 1], src, expiration, maxPacket, lo, hi)
      + if LastAccepted(trace, src, expiration, maxPacket) && lo <= trace[|trace| - 1].now <= hi then 1 else 0
  }

  /** Accepted packets since the current window of `src` was opened. */
  function WindowAccepts(trace: seq<Hit>, src: U32, expiration: int, maxPacket: int): nat {
    if trace == [] then 0
    else
      var before := trace[..|trace| - 1];
      (if trace[|trace| - 1].src == src && RecordAfter(trace, src, expiration).value.counter == 1 then 0
       else WindowAccepts(before, src, expiration, maxPacket))
      + if LastAccepted(trace, src, expiration, maxPacket) then 1 else 0
  }

  /** The configured limit, read as a number of packets. */
  function Limit(maxPacket: int): nat {
    if maxPacket < 0 then 0 else maxPacket
  }

  function Min(a: int, b: int): int {
    if a < b then a else b
  }

  /** Each window lets exactly its first `maxPacket` packets through, however many more arrive. */
  lemma {:induction false} WindowBound(trace: seq<Hit>, src: U32, expiration: int, maxPacket: int)
    ensures match RecordAfter(trace, src, expiration)
            case None => WindowAccepts(trace, src, expiration, maxPacket) == 0
            case Some(r) =>
                 r.counter >= 1 && WindowAccepts(trace, src, expiration, maxPacket) == Min(r.counter, Limit(maxPacket))
  {
    if trace != [] {
      WindowBound(trace[..|trace| - 1], src, expiration, maxPacket);
    }
  }

  /** Duration never runs ahead of the clock. */
  lemma {:induction false} DurationLags(trace: seq<Hit>, src: U32, expiration: int, now: int)
    requires Clocked(trace) && forall i | 0 <= i < |trace| :: trace[i].now <= now
    ensures match RecordAfter(trace, src, expiration)
            case None => true
            case Some(r) => r.firstSeen + r.duration <= now && r.firstSeen <= now
  {
    if trace != [] {
      DurationLags(trace[..|trace| - 1], src, expiration, now);
    }
  }

  /** A window is only replaced by one that starts more than `expiration` later. */
  lemma WindowStartsApart(trace: seq<Hit>, h: Hit, expiration: int)
    requires Clocked(trace + [h])
    requires RecordAfter(trace, h.src, expiration).Some?
    requires RecordAfter(trace + [h], h.src, expiration).value.counter == 1
    ensures RecordAfter(trace + [h], h.src, expiration).value.firstSeen == h.now
    ensures h.now - RecordAfter(trace, h.src, expiration).value.firstSeen > expiration
  {
    assert (trace + [h])[..|trace|] == trace;
    forall i | 0 <= i < |trace| ensures trace[i].now <= h.now {
      assert (trace + [h])[i].now <= (trace + [h])[|trace|].now;
    }
    assert Clocked(trace) by {
      forall i, j | 0 <= i < j < |trace| ensures trace[i].now <= trace[j].now {
        assert (trace + [h])[i].now <= (trace + [h])[j].now;
      }
    }
    DurationLags(trace, h.src, expiration, h.now);
    WindowBound(trace, h.src, expiration, 0);
  }

  lemma {:induction false} NothingBefore(trace: seq<Hit>, src: U32, expiration: int, maxPacket: int, lo: int, hi: int)
    requires forall i | 0 <= i < |trace| :: trace[i].now < lo
    ensures Accepts(trace, src, expiration, maxPacket, lo, hi) == 0
  {
    if trace != [] {
      NothingBefore(trace[..|trace| - 1], src, expiration, maxPacket, lo, hi);
    }
  }

  /** The bound with the state of the current window, which is what the induction carries. */
  lemma {:induction false} IntervalBoundByWindow(trace: seq<Hit>, src: U32, expiration: int, maxPacket: int, lo: int)
    requires Clocked(trace) && maxPacket >= 1
    ensures var n := Accepts(trace, src, expiration, maxPacket, lo, lo + expiration);
            match RecordAfter(trace, src, expiration)
            case None => n == 0
            case Some(r) =>
              if r.firstSeen < lo then n <= Min(r.counter, maxPacket) - 1
              else if r.firstSeen <= lo + expiration then n <= maxPacket - 1 + Min(r.counter, maxPacket)
              else n <= 2 * maxPacket - 1
  {
    if trace != [] {
      var before, h := trace[..|trace| - 1], trace[|trace| - 1];
      IntervalBoundByWindow(before, src, expiration, maxPacket, lo);
      DurationLags(before, src, expiration, h.now);
      WindowBound(before, src, expiration, maxPacket);
      if h.now < lo {
        NothingBefore(trace, src, expiration, maxPacket, lo, lo + expiration);
        WindowBound(trace, src, expiration, maxPacket);
        DurationLags(trace, src, expiration, h.now);
      }
    }
  }

  /** With expiration 0 a window that was opened before `lo` lets one packet through at `lo` and is then renewed. */
  lemma {:induction false} InstantBoundByWindow(trace: seq<Hit>, src: U32, maxPacket: int, lo: int)
    requires Clocked(trace) && maxPacket >= 1
    ensures var n, first := Accepts(trace, src, 0, maxPacket, lo, lo), Min(1, maxPacket - 1);
            match RecordAfter(trace, src, 0)
            case None => n == 0
            case Some(r) =>
              if r.firstSeen < lo then n <= if r.duration <= 0 then 0 else first
              else if r.firstSeen == lo then n <= first + Min(r.counter, maxPacket)
              else n <= first + maxPacket
  {
    if trace != [] {
      var before, h := trace[..|trace| - 1], trace[|trace| - 1];
      InstantBoundByWindow(before, src, maxPacket, lo);
      DurationLags(before, src, 0, h.now);
      WindowBound(before, src, 0, maxPacket);
      if h.now < lo {
        NothingBefore(trace, src, 0, maxPacket, lo, lo);
        WindowBound(trace, src, 0, maxPacket);
      }
    }
  }

  lemma NoneInEmpty(trace: seq<Hit>, src: U32, expiration: int, maxPacket: int, lo: int)
    requires expiration < 0
    ensures Accepts(trace, src, expiration, maxPacket, lo, lo + expiration) == 0
  {
    if trace != [] {
      NoneInEmpty(trace[..|trace| - 1], src, expiration, maxPacket, lo);
    }
  }

  /** How many packets of one source an interval of length `expiration` can see accepted. */
  function Bound(expiration: int, maxPacket: int): nat {
    if maxPacket < 1 || expiration < 0 then 0
    else if expiration == 0 then Min(maxPacket + 1, 2 * maxPacket - 1)
    else 2 * maxPacket - 1
  }

  /** Over any run, no interval of length `expiration` sees more accepted packets of one source than that. */
  lemma IntervalBound(trace: seq<Hit>, src: U32, expiration: int, maxPacket: int, lo: int)
    requires Clocked(trace)
    ensures Accepts(trace, src, expiration, maxPacket, lo, lo + expiration) <= Bound(expiration, maxPacket)
  {
    if maxPacket < 1 {
      NoneAccepted(trace, src, expiration, maxPacket, lo, lo + expiration);
    } else if expiration < 0 {
      NoneInEmpty(trace, src, expiration, maxPacket, lo);
    } else if expiration == 0 {
      InstantBoundByWindow(trace, src, maxPacket, lo);
    } else {
      IntervalBoundByWindow(trace, src, expiration, maxPacket, lo);
    }
  }

  lemma {:induction false} NoneAccepted(trace: seq<Hit>, src: U32, expiration: int, maxPacket: int, lo: int, hi: int)
    requires maxPacket < 1
    ensures Accepts(trace, src, expiration, maxPacket, lo, hi) == 0
  {
    if trace != [] {
      NoneAccepted(trace[..|trace| - 1], src, expiration, maxPacket, lo, hi);
      WindowBound(trace, src, expiration, maxPacket);
    }
  }

  // ----- the bound is reached: the documented "maxPacket per expiration" does not hold -----

  function Burst(src: U32, now: int, k: nat): (b: seq<Hit>)
    ensures |b| == k
  {
    seq(k, _ => Hit(src, now))
  }

  /** A burst at time `now` inside the current window, or right after its renewal. */
  lemma {:induction false} BurstCounts(trace: seq<Hit>, src: U32, expiration: int, maxPacket: int, lo: int, hi: int,
                                       now: int, k: nat)
    requires RecordAfter(trace, src, expiration).Some?
    requires var r := RecordAfter(trace, src, expiration).value;
             r.duration <= expiration && now - r.firstSeen <= expiration && r.counter + k <= maxPacket
    requires lo <= now <= hi
    ensures var r := RecordAfter(trace, src, expiration).value;
            RecordAfter(trace + Burst(src, now, k), src, expiration)
            == Some(Record(r.counter + k, r.firstSeen, if k == 0 then r.duration else now - r.firstSeen))
    ensures Accepts(trace + Burst(src, now, k), src, expiration, maxPacket, lo, hi)
            == Accepts(trace, src, expiration, maxPacket, lo, hi) + k
  {
    var all := trace + Burst(src, now, k);
    if k == 0 {
      assert all == trace;
    } else {
      assert all[..|all| - 1] == trace + Burst(src, now, k - 1);
      BurstCounts(trace, src, expiration, maxPacket, lo, hi, now, k - 1);
    }
  }

  /**
   * A run that reaches the bound: one packet opens a window, the rest of its quota comes at time 1, and
   * at time `expiration + 1` one rejected packet ages the window so that the next one opens a fresh quota.
   */
  function Worst(src: U32, expiration: int, maxPacket: nat): seq<Hit>
    requires maxPacket >= 1
  {
    [Hit(src, 0)] + Burst(src, 1, maxPacket - 1) + Burst(src, expiration + 1, maxPacket + 1)
  }

  /** After the first window's quota is used up. */
  lemma FirstWindow(src: U32, expiration: int, maxPacket: nat)
    requires expiration >= 1 && maxPacket >= 1
    ensures var full := [Hit(src, 0)] + Burst(src, 1, maxPacket - 1);
            && RecordAfter(full, src, expiration) == Some(Record(maxPacket, 0, if maxPacket == 1 then 0 else 1))
            && Accepts(full, src, expiration, maxPacket, 1, 1 + expiration) == maxPacket - 1
  {
    var first := [Hit(src, 0)];
    assert first[..0] == [];
    assert RecordAfter(first, src, expiration) == Some(Record(1, 0, 0));
    BurstCounts(first, src, expiration, maxPacket, 1, 1 + expiration, 1, maxPacket - 1);
  }

  /** The late packet is rejected and ages the window, the next one opens another. */
  lemma SecondWindowOpens(trace: seq<Hit>, src: U32, expiration: int, maxPacket: nat)
    requires expiration >= 1 && maxPacket >= 1
    requires RecordAfter(trace, src, expiration) == Some(Record(maxPacket, 0, if maxPacket == 1 then 0 else 1))
    ensures var late := Hit(src, expiration + 1);
            && RecordAfter(trace + [late] + [late], src, expiration) == Some(Record(1, expiration + 1, 0))
            && Accepts(trace + [late] + [late], src, expiration, maxPacket, 1, 1 + expiration)
               == Accepts(trace, src, expiration, maxPacket, 1, 1 + expiration) + 1
  {
    var late := Hit(src, expiration + 1);
    var aged := trace + [late];
    assert aged[..|trace|] == trace;
    assert RecordAfter(aged, src, expiration) == Some(Record(maxPacket + 1, 0, expiration + 1));
    assert (aged + [late])[..|aged|] == aged;
  }

  lemma WorstInParts(src: U32, expiration: int, maxPacket: nat)
    requires maxPacket >= 1
    ensures var late := expiration + 1;
            Worst(src, expiration, maxPacket)
            == [Hit(src, 0)] + Burst(src, 1, maxPacket - 1) + [Hit(src, late)] + [Hit(src, late)]
              + Burst(src, late, maxPacket - 1)
  {
    var late := Hit(src, expiration + 1);
    assert Burst(src, expiration + 1, maxPacket + 1) == [late] + [late] + Burst(src, expiration + 1, maxPacket - 1);
  }

  lemma WorstIsClocked(src: U32, expiration: int, maxPacket: nat)
    requires expiration >= 1 && maxPacket >= 1
    ensures Clocked(Worst(src, expiration, maxPacket))
  {
  }

  lemma WorstReaches(src: U32, expiration: int, maxPacket: nat)
    requires expiration >= 1 && maxPacket >= 1
    ensures Accepts(Worst(src, expiration, maxPacket), src, expiration, maxPacket, 1, 1 + expiration)
            == 2 * maxPacket - 1
  {
    var late := expiration + 1;
    var full := [Hit(src, 0)] + Burst(src, 1, maxPacket - 1);
    FirstWindow(src, expiration, maxPacket);
    SecondWindowOpens(full, src, expiration, maxPacket);
    var renewed := full + [Hit(src, late)] + [Hit(src, late)];
    BurstCounts(renewed, src, expiration, maxPacket, 1, late, late, maxPacket - 1);
    WorstInParts(src, expiration, maxPacket);
  }

  /** With expiration 0: the second packet of a window ages it, and the rest of the burst falls into the next. */
  function Instant(src: U32, maxPacket: nat): seq<Hit>
    requires maxPacket >= 2
  {
    [Hit(src, 0)] + [Hit(src, 1)] + [Hit(src, 1)] + Burst(src, 1, maxPacket - 1)
  }

  lemma InstantReaches(src: U32, maxPacket: nat)
    requires maxPacket >= 2
    ensures Clocked(Instant(src, maxPacket))
    ensures Accepts(Instant(src, maxPacket), src, 0, maxPacket, 1, 1) == maxPacket + 1
  {
    var one, two := [Hit(src, 0)], [Hit(src, 0)] + [Hit(src, 1)];
    var three := two + [Hit(src, 1)];
    assert one[..0] == [] && two[..1] == one && three[..2] == two;
    NothingBefore(one, src, 0, maxPacket, 1, 1);
    assert RecordAfter(one, src, 0) == Some(Record(1, 0, 0));
    assert RecordAfter(two, src, 0) == Some(Record(2, 0, 1)) && Accepts(two, src, 0, maxPacket, 1, 1) == 1;
    assert RecordAfter(three, src, 0) == Some(Record(1, 1, 0)) && Accepts(three, src, 0, maxPacket, 1, 1) == 2;
    BurstCounts(three, src, 0, maxPacket, 1, 1, 1, maxPacket - 1);
  }

  /** The bound is reached for every quota and every expiration. */
  lemma BoundIsReached(src: U32, expiration: int, maxPacket: int) returns (trace: seq<Hit>)
    ensures Clocked(trace)
    ensures Accepts(trace, src, expiration, maxPacket, 1, 1 + expiration) == Bound(expiration, maxPacket)
  {
    if maxPacket < 1 || expiration < 0 {
      trace := [];
    } else if expiration >= 1 {
      trace := Worst(src, expiration, maxPacket);
      WorstIsClocked(src, expiration, maxPacket);
      WorstReaches(src, expiration, maxPacket);
    } else if maxPacket >= 2 {
      trace := Instant(src, maxPacket);
      InstantReaches(src, maxPacket);
    } else {
      trace := [Hit(src, 1)];
      assert trace[..0] == [] && trace[|trace| - 1] == Hit(src, 1);
      assert RecordAfter(trace, src, 0) == Some(Record(1, 1, 0));
      assert Accepts(trace[..0], src, 0, 1, 1, 1) == 0;
    }
  }
}

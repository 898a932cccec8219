/**
 * Exclusive backends over whole runs: the counts of their target pins, what those guarantee, and when a freed pin is
 * read.
 */
module TargetPins {
  import opened Words
  import opened Keys
  import opened Tracking
  import opened TrackingRuns

  /** The live connections redirected to the backend pinned under `k`. */
  function Redirected(conns: map<nat, Conn>, k: PinKey): set<nat> {
    set id | id in conns && conns[id].targetPin == Some(k)
  }

  /**
   * The event opens a connection of a pinned backend to the outside, which takes a reference that is never given back.
   */
  predicate Borrows(t: Table, ev: Event, k: PinKey)
    requires Possible(t, ev)
  {
    ev.Open? && TargetSearch(t, ev, true) == Some(k) && k in t.targetPins
  }

  /** How many references on `k` the run has given away for good. */
  function Borrowed(evs: seq<Event>, k: PinKey): nat
    requires Run(evs, true).Some?
  {
    if evs == [] then 0
    else
      Borrowed(evs[..|evs| - 1], k) + if Borrows(Run(evs[..|evs| - 1], true).value, evs[|evs| - 1], k) then 1 else 0
  }

  /** The count of a target pin is the number of live connections redirected under it and of references given away. */
  predicate Exact(t: Table, k: PinKey, borrowed: nat) {
    Referenced(t.targetPins, t.freed, k, |Redirected(t.conns, k)| + borrowed)
  }

  /** The pin of `k` is live with this many references, or there are none. */
  predicate Referenced(pins: map<PinKey, Pin>, freed: set<PinKey>, k: PinKey, references: nat) {
    && (k in pins <==> references > 0)
    && (k in pins ==> pins[k].count == references && k !in freed)
  }

  /** Target pins, live or freed, have keys without a target address, and redirected connections have one. */
  ghost predicate Shapely(t: Table) {
    && (forall k | k in t.targetPins || k in t.freed :: k.targetIp == 0)
    && (forall id | id in t.conns && t.conns[id].redirect.Some? ::
        t.conns[id].targetPin == Some(TargetPinKey(t.conns[id].redirect.value)))
  }

  lemma RedirectedWith(conns: map<nat, Conn>, id: nat, c: Conn, k: PinKey)
    requires id in conns ==> conns[id].targetPin != Some(k)
    ensures Redirected(conns[id := c], k)
            == if c.targetPin == Some(k) then Redirected(conns, k) + {id} else Redirected(conns, k)
    ensures id !in Redirected(conns, k)
  {
  }

  lemma RedirectedSame(conns: map<nat, Conn>, id: nat, c: Conn, k: PinKey)
    requires id in conns && conns[id].targetPin == c.targetPin
    ensures Redirected(conns[id := c], k) == Redirected(conns, k)
  {
  }

  lemma RedirectedWithout(conns: map<nat, Conn>, id: nat, k: PinKey)
    requires id in conns
    ensures Redirected(conns - {id}, k) == Redirected(conns, k) - {id}
    ensures |Redirected(conns - {id}, k)| == |Redirected(conns, k)| - if conns[id].targetPin == Some(k) then 1 else 0
  {
    var before := Redirected(conns, k);
    if id in before {
      assert |before - {id}| == |before| - 1;
    } else {
      assert before - {id} == before;
    }
  }

  lemma CreatedTargets(t: Table, src: Source, p: Packet, now: int)
    ensures var made, t' := Opened(t, src, p, true, now), Create(t, src, p, true, now).0;
            && t'.freed == t.freed
            && t'.targetPins == if made.None? then t.targetPins else Pinned(t, src, p, made.value, true).targetPins
  {
  }

  lemma BorrowsIffShared(t: Table, src: Source, p: Packet, now: int)
    requires Possible(t, Open(src, p, now)) && Opened(t, src, p, true, now).Some?
    ensures var c := Opened(t, src, p, true, now).value;
            Pinned(t, src, p, c, true).targetPins == if src.FromHih? && KindOf(src, p).Outbound?
                                                     then Share(t.targetPins, SnatPin(src, p, true)) else t.targetPins
  {
  }

  /** What opening a connection does to the target pins. */
  lemma OpenTargets(t: Table, src: Source, p: Packet, now: int, k: PinKey)
    requires Possible(t, Open(src, p, now))
    ensures var t' := Create(t, src, p, true, now).0;
            && t'.freed == t.freed && (k in t'.targetPins <==> k in t.targetPins)
            && (k in t.targetPins ==> t'.targetPins[k] == if Borrows(t, Open(src, p, now), k)
                                                          then t.targetPins[k].(count := t.targetPins[k].count + 1)
                                                          else t.targetPins[k])
  {
    CreatedTargets(t, src, p, now);
    if Opened(t, src, p, true, now).Some? {
      BorrowsIffShared(t, src, p, now);
    }
  }

  lemma OpenKeepsExact(t: Table, src: Source, p: Packet, now: int, k: PinKey, borrowed: nat)
    requires Possible(t, Open(src, p, now)) && Numbered(t.conns, t.lastId) && Exact(t, k, borrowed)
    ensures Exact(Create(t, src, p, true, now).0, k, borrowed + if Borrows(t, Open(src, p, now), k) then 1 else 0)
  {
    OpenTargets(t, src, p, now, k);
    CreatedParts(t, src, p, true, now);
    var made := Opened(t, src, p, true, now);
    if made.Some? {
      RedirectedWith(t.conns, t.lastId + 1, made.value, k);
    }
  }

  lemma DivertKeepsExact(t: Table, id: nat, back: Handler, k: PinKey, borrowed: nat)
    requires Possible(t, Divert(id, back)) && t.conns[id].targetPin.None? && Exact(t, k, borrowed)
    requires !ReadsFreed(t, Divert(id, back), true)
    ensures Exact(Redirect(t, id, back, true).0, k, borrowed)
  {
    if !Refused(t, t.conns[id], back, true) {
      RedirectedWith(t.conns, id, Redirect(t, id, back, true).0.conns[id], k);
    }
  }

  /**
   * Giving a reference back keeps the counts exact whichever entry is deleted at zero, its own or none, as long as it
   * is not another live pin's; the two differ only in whether freed memory stays in the tree.
   */
  lemma ReleaseKeepsCount(pins: map<PinKey, Pin>, freed: set<PinKey>, held: Option<PinKey>, under: Option<PinKey>,
                          k: PinKey, references: nat)
    requires Referenced(pins, freed, k, references) && (held == Some(k) ==> references > 0)
    requires held.None? || under == held || under.None? || under.value !in pins
    ensures Referenced(LeftPins(pins, held, under), LeftFreed(pins, freed, held, under), k,
                       references - if held == Some(k) then 1 else 0)
    ensures k !in freed ==>
            (k in LeftFreed(pins, freed, held, under) <==> held == Some(k) && references == 1 && under != held)
  {
  }

  lemma ExpireKeepsExact(t: Table, id: nat, k: PinKey, borrowed: nat)
    requires id in t.conns && Shapely(t) && Formed(t.conns[id]) && Exact(t, k, borrowed)
    ensures Exact(Remove(t, id), k, borrowed)
  {
    var c := t.conns[id];
    RedirectedWithout(t.conns, id, k);
    assert c.targetPin == Some(k) ==> id in Redirected(t.conns, k);
    ReleaseKeepsCount(t.targetPins, t.freed, c.targetPin, c.pinKey, k, |Redirected(t.conns, k)| + borrowed);
  }

  lemma ApplyKeepsExact(t: Table, ev: Event, k: PinKey, borrowed: nat)
    requires Possible(t, ev) && !ReadsFreed(t, ev, true) && Numbered(t.conns, t.lastId) && AllFormed(t.conns)
    requires Shapely(t) && Exact(t, k, borrowed)
    ensures Exact(Apply(t, ev, true), k, borrowed + if Borrows(t, ev, k) then 1 else 0)
  {
    match ev
    case Open(src, p, now) => OpenKeepsExact(t, src, p, now, k, borrowed);
    case Divert(id, back) => DivertKeepsExact(t, id, back, k, borrowed);
    case Touch(id, now) => RedirectedSame(t.conns, id, Update(t, id, now).conns[id], k);
    case Expire(id) => ExpireKeepsExact(t, id, k, borrowed);
  }

  lemma ApplyKeepsShapely(t: Table, ev: Event)
    requires Possible(t, ev) && Shapely(t) && AllFormed(t.conns)
    ensures Shapely(Apply(t, ev, true))
  {
    match ev
    case Open(src, p, now) =>
      CreatedParts(t, src, p, true, now);
      forall k ensures k in Create(t, src, p, true, now).0.targetPins <==> k in t.targetPins {
        OpenTargets(t, src, p, now, k);
      }
      OpenTargets(t, src, p, now, PinKey(0, 0, 0));
    case Divert(id, back) =>
    case Touch(id, now) =>
    case Expire(id) =>
  }

  lemma {:induction false} AlwaysShapely(evs: seq<Event>)
    requires Run(evs, true).Some?
    ensures Shapely(Run(evs, true).value)
  {
    if evs != [] {
      AlwaysShapely(evs[..|evs| - 1]);
      AlwaysFormed(evs[..|evs| - 1], true);
      ApplyKeepsShapely(Run(evs[..|evs| - 1], true).value, evs[|evs| - 1]);
    }
  }

  /**
   * Over every run each target pin counts the connections redirected under it and the references given away, exactly.
   */
  lemma {:induction false} AlwaysExact(evs: seq<Event>, k: PinKey)
    requires Run(evs, true).Some?
    ensures Exact(Run(evs, true).value, k, Borrowed(evs, k))
  {
    if evs != [] {
      var before := evs[..|evs| - 1];
      AlwaysExact(before, k);
      AlwaysShapely(before);
      AlwaysFormed(before, true);
      ApplyKeepsExact(Run(before, true).value, evs[|evs| - 1], k, Borrowed(before, k));
    }
  }

  // ----- exclusivity -----

  /** Every redirected connection's backend is pinned to that connection's target address. */
  ghost predicate TargetsPinned(pins: map<PinKey, Pin>, conns: map<nat, Conn>) {
    forall id | id in conns && conns[id].redirect.Some? ::
      var k := TargetPinKey(conns[id].redirect.value);
      k in pins && pins[k].ip == conns[id].dstIp
  }

  /** A pin that is there before and after an event names the same address. */
  lemma AddressStays(t: Table, ev: Event, k: PinKey)
    requires Possible(t, ev) && k in t.targetPins && k in Apply(t, ev, true).targetPins
    ensures Apply(t, ev, true).targetPins[k].ip == t.targetPins[k].ip
  {
    if ev.Open? {
      OpenTargets(t, ev.src, ev.p, ev.now, k);
    }
  }

  /** While a connection redirected under a pin lives, its count keeps the pin, and with it the address. */
  lemma {:induction false} AlwaysTargetsPinned(evs: seq<Event>)
    requires Run(evs, true).Some?
    ensures TargetsPinned(Run(evs, true).value.targetPins, Run(evs, true).value.conns)
  {
    if evs != [] {
      var before, ev := Run(evs[..|evs| - 1], true).value, evs[|evs| - 1];
      AlwaysTargetsPinned(evs[..|evs| - 1]);
      AlwaysFormed(evs[..|evs| - 1], true);
      AlwaysShapely(evs);
      var t := Run(evs, true).value;
      forall id | id in t.conns && t.conns[id].redirect.Some?
        ensures var k := TargetPinKey(t.conns[id].redirect.value);
                k in t.targetPins && t.targetPins[k].ip == t.conns[id].dstIp
      {
        var k := TargetPinKey(t.conns[id].redirect.value);
        AlwaysExact(evs, k);
        assert id in Redirected(t.conns, k);
        PinnedAfter(before, ev, id, k);
      }
    }
  }

  /** A connection redirected after an event was redirected before to the same address, or is by this event. */
  lemma PinnedAfter(t: Table, ev: Event, id: nat, k: PinKey)
    requires Possible(t, ev) && AllFormed(t.conns) && TargetsPinned(t.targetPins, t.conns)
             && k in Apply(t, ev, true).targetPins
    requires var t' := Apply(t, ev, true);
             id in t'.conns && t'.conns[id].redirect.Some? && k == TargetPinKey(t'.conns[id].redirect.value)
    ensures Apply(t, ev, true).targetPins[k].ip == Apply(t, ev, true).conns[id].dstIp
  {
    if k in t.targetPins {
      AddressStays(t, ev, k);
    }
    if ev.Open? {
      CreatedParts(t, ev.src, ev.p, true, ev.now);
    }
  }

  /**
   * Exclusive backends, over every run: the connections redirected to one (VLAN, address) share one target
   * address, so the key a reply arrives with determines the key the attacker uses.
   */
  lemma ExclusiveBackend(evs: seq<Event>, a: nat, b: nat)
    requires Run(evs, true).Some?
    requires var t := Run(evs, true).value;
             && a in t.conns && b in t.conns
             && t.conns[a].redirect.Some? && t.conns[b].redirect.Some?
             && TargetPinKey(t.conns[a].redirect.value) == TargetPinKey(t.conns[b].redirect.value)
    ensures var t := Run(evs, true).value;
            var c, d := t.conns[a], t.conns[b];
            && c.dstIp == d.dstIp
            && (ReplyKey(c, c.redirect.value) == ReplyKey(d, d.redirect.value) ==> OuterKey(c) == OuterKey(d))
  {
    AlwaysTargetsPinned(evs);
    AlwaysFormed(evs, true);
  }

  /** Two live connections cannot own one entry. */
  lemma OneOwner(t: Table, s: Slot, a: nat, b: nat)
    requires Indexed(t) && Owns(t.conns, s, a) && Owns(t.conns, s, b)
    ensures a == b
  {
    assert Holds(t.trees, s, a) && Holds(t.trees, s, b);
  }

  /** Some other live connection expects the reply the redirection would bring from its own front handler. */
  ghost predicate FrontExpects(conns: map<nat, Conn>, id: nat, k: ConnKey) {
    exists x :: x in conns && x != id && conns[x].kind.Inbound? && IntKey(conns[x]) == k
  }

  lemma PinnedDivertApartIff(t: Table, id: nat, back: Handler)
    requires Indexed(t) && AllFormed(t.conns) && TargetsPinned(t.targetPins, t.conns) && Possible(t, Divert(id, back))
    requires !Refused(t, t.conns[id], back, true)
    ensures Apart(t, Divert(id, back), true) <==> !FrontExpects(t.conns, id, ReplyKey(t.conns[id], back))
  {
    var k := ReplyKey(t.conns[id], back);
    var s := (Ext2, k);
    if s in t.trees && t.trees[s] != id {
      var x := t.trees[s];
      assert Holds(t.trees, s, x);
      assert Owns(t.conns, s, x);
      if IntKey(t.conns[x]) != k {
        OneOwner(t, (Ext1, OuterKey(t.conns[id])), x, id);
      }
    }
    if FrontExpects(t.conns, id, k) {
      var x :| x in t.conns && x != id && t.conns[x].kind.Inbound? && IntKey(t.conns[x]) == k;
      assert Owns(t.conns, s, x);
      assert Holds(t.trees, s, x);
    }
  }

  /**
   * With exclusive backends a permitted redirection takes another connection's entry iff that one expects the same
   * reply from its front handler.
   */
  lemma ExclusiveDivertApartIff(evs: seq<Event>, id: nat, back: Handler)
    requires Run(evs, true).Some? && ApartRun(evs, true) && Possible(Run(evs, true).value, Divert(id, back))
    requires !Refused(Run(evs, true).value, Run(evs, true).value.conns[id], back, true)
    ensures var t := Run(evs, true).value;
            Apart(t, Divert(id, back), true) <==> !FrontExpects(t.conns, id, ReplyKey(t.conns[id], back))
  {
    AlwaysIndexed(evs, true);
    AlwaysFormed(evs, true);
    AlwaysTargetsPinned(evs);
    PinnedDivertApartIff(Run(evs, true).value, id, back);
  }

  // ----- freed pins -----

  /**
   * Event `i` of the run removes the last connection redirected under `k` when no reference on it has been given away.
   */
  ghost predicate LastRelease(evs: seq<Event>, i: nat, k: PinKey)
    requires i < |evs| && Run(evs[..i], true).Some?
  {
    && evs[i].Expire?
    && Redirected(Run(evs[..i], true).value.conns, k) == {evs[i].id}
    && Borrowed(evs[..i], k) == 0
  }

  /** One event frees the pin of `k` exactly if it is a last release of it; what was freed stays in the tree. */
  lemma FreedByEvent(t: Table, ev: Event, k: PinKey, borrowed: nat)
    requires Possible(t, ev) && !ReadsFreed(t, ev, true) && AllFormed(t.conns) && Shapely(t) && Exact(t, k, borrowed)
    ensures k in Apply(t, ev, true).freed <==>
            k in t.freed || (ev.Expire? && Redirected(t.conns, k) == {ev.id} && borrowed == 0)
  {
    match ev
    case Open(src, p, now) => OpenTargets(t, src, p, now, k);
    case Divert(id, back) =>
    case Touch(id, now) =>
    case Expire(id) =>
      var held := Redirected(t.conns, k);
      if held == {id} {
        assert id in held;
        assert |held| == 1;
      } else if t.conns[id].targetPin == Some(k) {
        assert id in held;
        OnlyOne(held, id);
      }
  }

  lemma OnlyOne(s: set<nat>, x: nat)
    requires x in s
    ensures |s| == 1 <==> s == {x}
  {
    assert |s - {x}| == |s| - 1;
    assert s == (s - {x}) + {x};
  }

  /** The event `i` of the run that frees the pin of `k`. */
  ghost predicate FreedIn(evs: seq<Event>, k: PinKey)
    requires forall i | 0 <= i < |evs| :: Run(evs[..i], true).Some?
  {
    exists i | 0 <= i < |evs| :: LastRelease(evs, i, k)
  }

  lemma PrefixesRun(evs: seq<Event>)
    requires Run(evs, true).Some?
    ensures forall i | 0 <= i < |evs| :: Run(evs[..i], true).Some?
  {
    forall i | 0 <= i < |evs| ensures Run(evs[..i], true).Some? {
      PrefixRuns(evs, i, true);
    }
  }

  lemma FreedInLonger(evs: seq<Event>, before: seq<Event>, k: PinKey)
    requires evs != [] && before == evs[..|evs| - 1]
    requires (forall i | 0 <= i < |evs| :: Run(evs[..i], true).Some?)
             && (forall i | 0 <= i < |before| :: Run(before[..i], true).Some?)
    ensures FreedIn(evs, k) <==> FreedIn(before, k) || LastRelease(evs, |evs| - 1, k)
  {
    forall i | 0 <= i < |before| ensures LastRelease(evs, i, k) <==> LastRelease(before, i, k) {
      assert before[..i] == evs[..i];
    }
  }

  /** A freed entry is in the tree exactly if some event of the run was the last release of its pin. */
  lemma {:induction false} FreedIff(evs: seq<Event>, k: PinKey)
    requires Run(evs, true).Some?
    ensures forall i | 0 <= i < |evs| :: Run(evs[..i], true).Some?
    ensures k in Run(evs, true).value.freed <==> FreedIn(evs, k)
  {
    PrefixesRun(evs);
    if evs != [] {
      var before := evs[..|evs| - 1];
      FreedIff(before, k);
      AlwaysFormed(before, true);
      AlwaysShapely(before);
      AlwaysExact(before, k);
      FreedByEvent(Run(before, true).value, evs[|evs| - 1], k, Borrowed(before, k));
      FreedInLonger(evs, before, k);
    }
  }

  /**
   * Exactly when a run first finds a freed pin: the event looks up the pin of a backend whose last redirected
   * connection was removed earlier, no outgoing connection of that backend having taken a reference. Removing a
   * connection never does.
   */
  lemma FirstFreedRead(evs: seq<Event>, ev: Event)
    requires Run(evs, true).Some? && Possible(Run(evs, true).value, ev)
    ensures forall i | 0 <= i < |evs| :: Run(evs[..i], true).Some?
    ensures var search := TargetSearch(Run(evs, true).value, ev, true);
            ReadsFreed(Run(evs, true).value, ev, true) <==> !ev.Expire? && search.Some? && FreedIn(evs, search.value)
  {
    var t := Run(evs, true).value;
    var search := TargetSearch(t, ev, true);
    PrefixesRun(evs);
    if search.Some? {
      FreedIff(evs, search.value);
      AlwaysExact(evs, search.value);
      if ev.Expire? {
        assert ev.id in Redirected(t.conns, search.value);
      }
    }
  }

  /** As long as no pin has seen its last release, no search for any key can meet freed memory on its way. */
  lemma NothingFreedIff(evs: seq<Event>)
    requires Run(evs, true).Some?
    ensures forall i | 0 <= i < |evs| :: Run(evs[..i], true).Some?
    ensures Run(evs, true).value.freed == {} <==> forall k :: !FreedIn(evs, k)
  {
    PrefixesRun(evs);
    forall k ensures k in Run(evs, true).value.freed <==> FreedIn(evs, k) {
      FreedIff(evs, k);
    }
  }

  /**
   * No defined event takes a freed entry out of the tree again: from then on every search for that backend's pin is
   * undefined.
   */
  lemma {:induction false} FreedForGood(evs: seq<Event>, more: seq<Event>, k: PinKey)
    requires Run(evs, true).Some? && Run(evs + more, true).Some? && k in Run(evs, true).value.freed
    ensures k in Run(evs + more, true).value.freed
    decreases |more|
  {
    if more == [] {
      assert evs + more == evs;
    } else {
      var all := evs + more;
      var before := evs + more[..|more| - 1];
      assert all[..|all| - 1] == before;
      FreedForGood(evs, more[..|more| - 1], k);
      AlwaysFormed(before, true);
      AlwaysShapely(before);
      AlwaysExact(before, k);
      FreedByEvent(Run(before, true).value, all[|all| - 1], k, Borrowed(before, k));
    }
  }

  /** Without exclusive backends no pin is taken and none is freed under a wrong key. */
  lemma {:induction false} SharedBackendsFreeNothing(evs: seq<Event>)
    requires Run(evs, false).Some?
    ensures Run(evs, false).value.freed == {} && Run(evs, false).value.targetPins == map[]
  {
    if evs != [] {
      SharedBackendsFreeNothing(evs[..|evs| - 1]);
    }
  }
}

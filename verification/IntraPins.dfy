/** Pins of exclusive internal handlers over whole runs: whose key the tree holds, and when such a key is freed. */
module IntraPins {
  import opened Words
  import opened Keys
  import opened Tracking
  import opened TrackingRuns
  import opened TargetPins

  /** Every internal pin has a founder, a live connection that holds the pin; nothing the tree holds has been freed. */
  ghost predicate WellFounded(t: Table) {
    && t.misfreed == {}
    && (forall k | k in t.intraPins :: t.intraPins[k].founder in Holders(t.conns, k, true))
  }

  /** The pin of `k` is there, and its key in the tree is that of connection `id`. */
  predicate FoundedBy(t: Table, k: PinKey, id: nat) {
    k in t.intraPins && t.intraPins[k].founder == id
  }

  lemma OpenFounds(t: Table, src: Source, p: Packet, exclusiveHih: bool, now: int)
    ensures var made, t' := Opened(t, src, p, exclusiveHih, now), Create(t, src, p, exclusiveHih, now).0;
            && t'.misfreed == t.misfreed
            && t'.intraPins == if made.Some? && made.value.kind.Internal? && made.value.pinKey.Some?
                               then Hold(t.intraPins, made.value.pinKey.value, p.dstIp, t.lastId + 1) else t.intraPins
  {
    var made := Opened(t, src, p, exclusiveHih, now);
    if made.Some? {
      CreatedTable(t, src, p, exclusiveHih, now, made.value);
    }
  }

  lemma OpenKeepsFounded(t: Table, src: Source, p: Packet, exclusiveHih: bool, now: int)
    requires WellFounded(t) && Numbered(t.conns, t.lastId)
    ensures WellFounded(Create(t, src, p, exclusiveHih, now).0)
  {
    var made, t' := Opened(t, src, p, exclusiveHih, now), Create(t, src, p, exclusiveHih, now).0;
    OpenFounds(t, src, p, exclusiveHih, now);
    CreatedParts(t, src, p, exclusiveHih, now);
    if made.Some? {
      IntraEffect(t, src, p, exclusiveHih, now);
      forall k | k in t'.intraPins ensures t'.intraPins[k].founder in Holders(t'.conns, k, true) {
        HoldersAdd(t.conns, t.lastId + 1, made.value, k, true);
      }
    }
  }

  /** A holder that is not the founder leaves the founder behind, and with it the pin. */
  lemma ExpireKeepsFounded(t: Table, id: nat)
    requires WellFounded(t) && Conserved(t.intraPins, t.conns, true, true) && id in t.conns
    requires !IsFounder(t.intraPins, id, t.conns[id])
    ensures WellFounded(Remove(t, id))
    ensures forall k | k in t.intraPins :: FoundedBy(Remove(t, id), k, t.intraPins[k].founder)
  {
    var t' := Remove(t, id);
    ConservedDrop(t.intraPins, t.conns, id, true, true);
    forall k | k in t.intraPins ensures t.intraPins[k].founder in Holders(t'.conns, k, true) && k in t'.intraPins {
      assert t.intraPins[k].founder in Holders(t.conns, k, true);
      HoldersDrop(t.conns, id, k, true);
      assert Counted(t'.intraPins, t'.conns, k, true);
    }
    assert forall k | k in t'.intraPins :: k in t.intraPins;
  }

  lemma SameKeepsFounded(t: Table, t': Table, id: nat)
    requires WellFounded(t) && id in t.conns && id in t'.conns && t'.conns == t.conns[id := t'.conns[id]]
    requires t'.intraPins == t.intraPins && t'.misfreed == t.misfreed
    requires t'.conns[id].kind == t.conns[id].kind && t'.conns[id].pinKey == t.conns[id].pinKey
    ensures WellFounded(t')
  {
    forall k | k in t.intraPins ensures t.intraPins[k].founder in Holders(t'.conns, k, true) {
      HoldersSame(t.conns, id, t'.conns[id], k, true);
    }
  }

  lemma ApplyKeepsFounded(t: Table, ev: Event, exclusiveHih: bool)
    requires WellFounded(t) && Numbered(t.conns, t.lastId) && Conserved(t.intraPins, t.conns, true, true)
    requires Possible(t, ev) && !FreesShared(t, ev)
    ensures WellFounded(Apply(t, ev, exclusiveHih))
  {
    match ev
    case Open(src, p, now) => OpenKeepsFounded(t, src, p, exclusiveHih, now);
    case Divert(id, back) =>
      if !Refused(t, t.conns[id], back, exclusiveHih) {
        SameKeepsFounded(t, Redirect(t, id, back, exclusiveHih).0, id);
      }
    case Touch(id, now) => SameKeepsFounded(t, Update(t, id, now), id);
    case Expire(id) => ExpireKeepsFounded(t, id);
  }

  /** In every run that is defined the founder of each internal pin is alive and holds it. */
  lemma {:induction false} AlwaysFounded(evs: seq<Event>, exclusiveHih: bool)
    requires Run(evs, exclusiveHih).Some?
    ensures WellFounded(Run(evs, exclusiveHih).value)
  {
    if evs != [] {
      var before := evs[..|evs| - 1];
      AlwaysFounded(before, exclusiveHih);
      AlwaysFormed(before, exclusiveHih);
      AlwaysConserved(before, exclusiveHih);
      ApplyKeepsFounded(Run(before, exclusiveHih).value, evs[|evs| - 1], exclusiveHih);
    }
  }

  // ----- when a shared key is freed -----

  /** The event opens connection `id` and with it the internal pin of `k`, for which nobody has been pinned. */
  ghost predicate Founding(t: Table, ev: Event, exclusiveHih: bool, id: nat, k: PinKey)
    requires Possible(t, ev)
  {
    && ev.Open? && id == t.lastId + 1 && Holders(t.conns, k, true) == {}
    && var made := Opened(t, ev.src, ev.p, exclusiveHih, ev.now);
       made.Some? && made.value.kind.Internal? && made.value.pinKey == Some(k)
  }

  /** Some event of the run founded the pin of `k` with connection `id`. */
  ghost predicate FoundedIn(evs: seq<Event>, exclusiveHih: bool, id: nat, k: PinKey)
    requires Run(evs, exclusiveHih).Some?
  {
    evs != [] && (FoundedIn(evs[..|evs| - 1], exclusiveHih, id, k)
                  || Founding(Run(evs[..|evs| - 1], exclusiveHih).value, evs[|evs| - 1], exclusiveHih, id, k))
  }

  /** One event makes the connection the founder of `k` iff it founds the pin; what was founded stays so. */
  lemma FounderAfterEvent(t: Table, ev: Event, exclusiveHih: bool, id: nat, k: PinKey)
    requires WellFounded(t) && Numbered(t.conns, t.lastId) && Conserved(t.intraPins, t.conns, true, true)
    requires Possible(t, ev) && !FreesShared(t, ev)
    ensures var t' := Apply(t, ev, exclusiveHih);
            FoundedBy(t', k, id)
            <==> (FoundedBy(t, k, id)) || Founding(t, ev, exclusiveHih, id, k)
  {
    assert Counted(t.intraPins, t.conns, k, true);
    match ev
    case Open(src, p, now) => OpenFounds(t, src, p, exclusiveHih, now);
    case Divert(_, _) =>
    case Touch(_, _) =>
    case Expire(gone) => ExpireKeepsFounded(t, gone);
  }

  /** A connection's key is the tree's exactly if some event of the run founded the pin with it. */
  lemma {:induction false} FounderIff(evs: seq<Event>, exclusiveHih: bool, id: nat, k: PinKey)
    requires Run(evs, exclusiveHih).Some?
    ensures var t := Run(evs, exclusiveHih).value;
            FoundedBy(t, k, id) <==> FoundedIn(evs, exclusiveHih, id, k)
  {
    if evs != [] {
      var before := evs[..|evs| - 1];
      FounderIff(before, exclusiveHih, id, k);
      AlwaysFounded(before, exclusiveHih);
      AlwaysFormed(before, exclusiveHih);
      AlwaysConserved(before, exclusiveHih);
      FounderAfterEvent(Run(before, exclusiveHih).value, evs[|evs| - 1], exclusiveHih, id, k);
    }
  }

  lemma MisfreesIff(t: Table, ev: Event, exclusiveHih: bool)
    requires Possible(t, ev) && t.misfreed == {}
    ensures FreesShared(t, ev) <==> Apply(t, ev, exclusiveHih).misfreed != {}
  {
    match ev
    case Open(src, p, now) => OpenFounds(t, src, p, exclusiveHih, now);
    case Divert(id, back) => assert Redirect(t, id, back, exclusiveHih).0.misfreed == {};
    case Touch(_, _) =>
    case Expire(_) =>
  }

  /** The keys a connection founded are its own, so removing it frees a shared key iff there is one. */
  lemma FreesIffFounder(t: Table, id: nat)
    requires WellFounded(t) && id in t.conns
    ensures IsFounder(t.intraPins, id, t.conns[id]) <==> exists k :: FoundedBy(t, k, id)
  {
    var c := t.conns[id];
    if IsFounder(t.intraPins, id, c) {
      assert FoundedBy(t, c.pinKey.value, id);
    }
    forall k | FoundedBy(t, k, id) ensures IsFounder(t.intraPins, id, c) {
      assert id in Holders(t.conns, k, true);
    }
  }

  /**
   * Exactly when a run first frees a key the internal pin tree holds, or frees one twice: it removes the connection
   * that was the first to be pinned to an exclusive internal handler. Every such connection does it, alone or not.
   */
  lemma FirstSharedFree(evs: seq<Event>, ev: Event, exclusiveHih: bool)
    requires Run(evs, exclusiveHih).Some? && Possible(Run(evs, exclusiveHih).value, ev)
    ensures FreesShared(Run(evs, exclusiveHih).value, ev) <==>
            Apply(Run(evs, exclusiveHih).value, ev, exclusiveHih).misfreed != {}
    ensures FreesShared(Run(evs, exclusiveHih).value, ev) <==>
            ev.Expire? && exists k :: FoundedIn(evs, exclusiveHih, ev.id, k)
  {
    var t := Run(evs, exclusiveHih).value;
    AlwaysFounded(evs, exclusiveHih);
    MisfreesIff(t, ev, exclusiveHih);
    if ev.Expire? {
      FreesIffFounder(t, ev.id);
      if k :| FoundedIn(evs, exclusiveHih, ev.id, k) {
        FounderIff(evs, exclusiveHih, ev.id, k);
      }
      if k :| FoundedBy(t, k, ev.id) {
        FounderIff(evs, exclusiveHih, ev.id, k);
      }
    }
  }

  /**
   * An internal pin, once made, is there in every defined continuation, for the same address and with the same founder.
   */
  lemma {:induction false} FoundedForGood(evs: seq<Event>, more: seq<Event>, exclusiveHih: bool, k: PinKey)
    requires Run(evs, exclusiveHih).Some? && Run(evs + more, exclusiveHih).Some?
             && k in Run(evs, exclusiveHih).value.intraPins
    ensures var t, t' := Run(evs, exclusiveHih).value, Run(evs + more, exclusiveHih).value;
            && FoundedBy(t', k, t.intraPins[k].founder)
            && t'.intraPins[k].ip == t.intraPins[k].ip
    decreases |more|
  {
    AlwaysFounded(evs, exclusiveHih);
    if more == [] {
      assert evs + more == evs;
    } else {
      var all, before := evs + more, evs + more[..|more| - 1];
      assert all[..|all| - 1] == before;
      FoundedForGood(evs, more[..|more| - 1], exclusiveHih, k);
      AlwaysFounded(before, exclusiveHih);
      AlwaysFormed(before, exclusiveHih);
      AlwaysConserved(before, exclusiveHih);
      PinStays(Run(before, exclusiveHih).value, all[|all| - 1], exclusiveHih, k);
    }
  }

  lemma OpenKeepsAddress(t: Table, src: Source, p: Packet, exclusiveHih: bool, now: int, k: PinKey)
    requires k in t.intraPins
    ensures var t' := Create(t, src, p, exclusiveHih, now).0;
            k in t'.intraPins && t'.intraPins[k].ip == t.intraPins[k].ip
  {
    var made := Opened(t, src, p, exclusiveHih, now);
    CreatedParts(t, src, p, exclusiveHih, now);
    if made.Some? {
      IntraEffect(t, src, p, exclusiveHih, now);
    }
  }

  lemma PinStays(t: Table, ev: Event, exclusiveHih: bool, k: PinKey)
    requires WellFounded(t) && Numbered(t.conns, t.lastId) && Conserved(t.intraPins, t.conns, true, true)
    requires Possible(t, ev) && !FreesShared(t, ev) && k in t.intraPins
    ensures var t' := Apply(t, ev, exclusiveHih);
            && k in t'.intraPins && t'.intraPins[k].ip == t.intraPins[k].ip
            && FoundedBy(t', k, t.intraPins[k].founder)
  {
    FounderAfterEvent(t, ev, exclusiveHih, t.intraPins[k].founder, k);
    ApplyKeepsFounded(t, ev, exclusiveHih);
    match ev
    case Open(src, p, now) => OpenKeepsAddress(t, src, p, exclusiveHih, now, k);
    case Divert(_, _) =>
    case Touch(_, _) =>
    case Expire(_) =>
  }
}

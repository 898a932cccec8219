/** Everything that is injected over whole runs: whole frames whose checksums verify. */
module TransportRuns {
  import opened Words
  import opened Replay
  import opened Gateway
  import opened GatewayRuns
  import opened FrameRuns
  import Checksum
  import Frame
  import T = Transport

  /** The frame a series of jobs can be done on, one after the other. */
  ghost predicate Workable(l: Frame.Layout, jobs: seq<T.Job>) {
    && Frame.Shaped(l) && T.Summable(l.bytes)
    && forall j | j in jobs :: T.Proper(j) && T.Fits(l.bytes, j.w)
  }

  /** The frame after the jobs. */
  function AllSent(e: Checksum.Endian, l: Frame.Layout, jobs: seq<T.Job>): (n: Frame.Layout)
    requires Workable(l, jobs)
    ensures Frame.Shaped(n) && T.Summable(n.bytes)
    decreases |jobs|
  {
    if jobs == [] then l else AllSent(e, T.Sent(e, l, jobs[0]), jobs[1..])
  }

  /** The frame operations of the jobs. */
  function Ops(jobs: seq<T.Job>): (ops: seq<Frame.Op>)
    ensures |ops| == |jobs| && forall i | 0 <= i < |jobs| :: ops[i] == jobs[i].op
  {
    seq(|jobs|, i requires 0 <= i < |jobs| => jobs[i].op)
  }

  /** No operation of the series tags what is tagged. */
  predicate Clean(tagged: bool, jobs: seq<T.Job>) {
    forall i | 0 <= i < |jobs| :: jobs[i].op.NatIn? ==> i == 0 && !tagged
  }

  lemma {:induction false} CleanKeepsFrame(e: Checksum.Endian, l: Frame.Layout, jobs: seq<T.Job>)
    requires Workable(l, jobs) && Clean(Frame.Tagged(l), jobs)
    ensures Frame.Excess(AllSent(e, l, jobs)) == Frame.Excess(l)
    ensures Frame.Complete(AllSent(e, l, jobs)) <==> Frame.Complete(l)
    decreases |jobs|
  {
    if jobs != [] {
      T.SentKeepsFrame(e, l, jobs[0]);
      CleanKeepsFrame(e, T.Sent(e, l, jobs[0]), jobs[1..]);
    }
  }

  lemma {:induction false} LastVerifies(e: Checksum.Endian, l: Frame.Layout, jobs: seq<T.Job>)
    requires Workable(l, jobs) && jobs != [] && T.Finishes(jobs[|jobs| - 1])
    ensures T.Verifies(AllSent(e, l, jobs).bytes)
    decreases |jobs|
  {
    if |jobs| == 1 {
      T.SentVerifies(e, l, jobs[0]);
    } else {
      LastVerifies(e, T.Sent(e, l, jobs[0]), jobs[1..]);
    }
  }

  /**
   * Every packet of every run: outside packets arrive untagged, and then whatever routes, ports, numbers and options
   * its work is done with, what is injected in the end is a whole frame, and its IP header and TCP segment verify at
   * the receiver.
   */
  lemma EveryFrameVerifies(cfg: Config, initiator: Role, destination: Role, proto: Proto, es: seq<Event>, i: nat,
                           e: Checksum.Endian, l: Frame.Layout, jobs: seq<T.Job>)
    requires Started(initiator, destination, es) && Arrivals(es) && i < |es|
    requires Workable(l, jobs) && Frame.Excess(l) == 0 && (es[i].p.origin.Ext? ==> !Frame.Tagged(l))
    requires CarriesOut(Ops(jobs), WorkOn(cfg, Born(initiator, destination, proto), es, es[i].p))
    ensures Frame.Excess(AllSent(e, l, jobs)) == 0
    ensures Frame.Complete(l) ==> Frame.Injectable(AllSent(e, l, jobs))
    ensures jobs != [] && T.Finishes(jobs[|jobs| - 1]) ==> T.Verifies(AllSent(e, l, jobs).bytes)
  {
    PacketWork(cfg, initiator, destination, proto, es, i);
    SeriesIsClean(es[i].p.origin, Frame.Tagged(l), jobs, WorkOn(cfg, Born(initiator, destination, proto), es, es[i].p));
    CleanKeepsFrame(e, l, jobs);
    if Frame.Complete(l) {
      Frame.InjectedIsWire(AllSent(e, l, jobs));
    }
    if jobs != [] && T.Finishes(jobs[|jobs| - 1]) {
      LastVerifies(e, l, jobs);
    }
  }

  lemma SeriesIsClean(origin: Role, tagged: bool, jobs: seq<T.Job>, w: seq<Work>)
    requires Series(origin, w) && CarriesOut(Ops(jobs), w) && (origin.Ext? ==> !tagged)
    ensures Clean(tagged, jobs)
  {
    forall i | 0 <= i < |jobs| && jobs[i].op.NatIn? ensures i == 0 && !tagged {
      assert Does(Ops(jobs)[i], w[i]);
    }
  }
}

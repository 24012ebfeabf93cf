/** What the event side promises over every run from the moment all buffers are queued. */
module EventTheorems {
  import opened BufferOwnership
  import opened OwnershipProofs
  import opened EventQueue
  import opened ErrorBroadcast

  /** The circulation theorem: however the receiver, the worker, the host and the rest of the
      driver interleave, each of the 512 buffers is in exactly one place, none is ever lost
      for want of a node, and a receiver holding a buffer always has a node to put it on. */
  lemma EveryBufferInOnePlace(d: Dev, run: seq<Step>, t: State)
    requires Runs(EventQueue.Start(d), run, t)
    ensures Where(t).Once() && t.lost == []
    ensures t.rx.Holds() != [] || t.wk.Wanting? ==> t.q.unused != []
  {
    StartConserved(d);
    ConservedHolds(EventQueue.Start(d), run, t);
    NodeAtHand(Where(t));
  }

  /** The broadcast theorem, about every run in which the queue is not torn down: once the
      failed receiver is done, each stream open throughout has been sent an ERROR event, none
      twice; and when the worker has emptied the queue, each that is still open is in ERROR
      and none of its buffers, of whatever queue type, is ACTIVE. */
  lemma EveryOpenStreamIsTold(d: Dev, run: seq<Step>, t: State)
    requires OwnedArePending(d) && Runs(EventQueue.Start(d), run, t)
    requires t.q.broken && t.rx.Exited? && t.ready && |t.hist.open| <= t.hist.free
    ensures Increasing(t.hist.sent) && t.hist.skipped == []
    ensures forall x :: x in t.hist.atFail && x !in t.hist.closed ==> x in t.hist.sent
    ensures t.q.resps == [] && !t.wk.Handling? ==>
              forall x :: x in t.hist.atFail && x !in t.hist.closed ==> Quiet(t.dev, x)
  {
    StartConserved(d);
    SoundHolds(EventQueue.Start(d), run, t);
    NoneSkipped(t);
    if t.q.resps == [] && !t.wk.Handling? {
      forall x | x in t.hist.atFail && x !in t.hist.closed
        ensures Quiet(t.dev, x)
      {
        assert Reached(t, x);
      }
    }
  }

  /** With fewer, as many streams are told as there were free buffers, at least. */
  lemma ShortBroadcast(d: Dev, run: seq<Step>, t: State)
    requires OwnedArePending(d) && Runs(EventQueue.Start(d), run, t)
    requires t.q.broken && t.rx.Exited? && t.ready
    ensures t.hist.skipped != [] ==> |t.hist.sent| >= t.hist.free
    ensures forall x :: x in t.hist.atFail && x !in t.hist.closed && x !in t.hist.sent ==> x in t.hist.skipped
  {
    StartConserved(d);
    SoundHolds(EventQueue.Start(d), run, t);
  }
}

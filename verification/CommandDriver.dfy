/** The critical sections of driver/virtio_video_vq.c as they update the lists in place, each
    proved to compute its step of the state machine in CommandQueue. */
module CommandDriver {
  import opened Sequences
  import opened HabVirtqueue
  import opened CommandQueue
  import opened CommandSafety

  /** The loop of virtio_video_free_vbufs: detach until both lists are empty. */
  function TeardownAll(c: Core): Core
    decreases |c.q.vbufs| + |c.q.resps|
  {
    if c.q.vbufs == [] && c.q.resps == [] then TeardownOne(c) else TeardownAll(TeardownOne(c))
  }

  ghost predicate Listed(c: Core, v: Vbuf) {
    v in Bufs(c.q.vbufs) || v in Bufs(c.q.resps)
  }

  lemma TeardownOneStep(c: Core)
    requires Safe(c) && (c.q.vbufs != [] || c.q.resps != [])
    ensures var d := TeardownOne(c);
            && Safe(d) && FreesOnlyPending(c, d)
            && (exists v :: v !in d.pending && forall u :: Listed(c, u) ==> Listed(d, u) || u == v)
            && d.q.broken == c.q.broken && |d.q.vbufs| + |d.q.resps| < |c.q.vbufs| + |c.q.resps|
  {
    var (q1, v) := c.q.Detach();
    ReclaimSafe(c.(q := q1), v.value);
    if c.q.vbufs != [] {
      IdsTail(c.q.vbufs);
    } else {
      IdsTail(c.q.resps);
    }
    assert forall u :: Listed(c, u) ==> Listed(TeardownOne(c), u) || u == v.value;
  }

  /** Teardown frees each listed buffer that is still pending, once, and nothing else; it ends
      with both lists and the node pool empty. */
  lemma {:induction false} TeardownFreesListed(c: Core)
    requires Safe(c)
    ensures var d := TeardownAll(c);
            && Safe(d) && FreesOnlyPending(c, d)
            && d.q == Hvq([], [], [], c.q.broken)
            && (forall v :: Listed(c, v) ==> v !in d.pending)
    decreases |c.q.vbufs| + |c.q.resps|
  {
    hide Safe, FreesOnlyPending, Listed;
    if c.q.vbufs == [] && c.q.resps == [] {
      NothingListed(c, TeardownOne(c));
    } else {
      var c1 := TeardownOne(c);
      TeardownOneStep(c);
      TeardownFreesListed(c1);
      FreesInTurn(c, c1, TeardownAll(c));
      ListedGone(c, c1, TeardownAll(c));
    }
  }

  lemma NothingListed(c: Core, d: Core)
    requires c.q.vbufs == [] && c.q.resps == [] && Safe(c) && d == c.(q := c.q.Detach().0)
    ensures Safe(d) && FreesOnlyPending(c, d) && forall v :: !Listed(c, v)
  {
    SameSlab(c, d);
    FreesNothing(c, d);
  }

  lemma ListedGone(c: Core, c1: Core, d: Core)
    requires exists v :: v !in c1.pending && forall u :: Listed(c, u) ==> Listed(c1, u) || u == v
    requires FreesOnlyPending(c1, d) && forall v :: Listed(c1, v) ==> v !in d.pending
    ensures forall v :: Listed(c, v) ==> v !in d.pending
  {
    hide Listed;
  }

  lemma TeardownStep(c: Core)
    ensures var (q1, v) := c.q.Detach();
            && (v == None ==> TeardownAll(c) == c.(q := q1))
            && (v != None ==> TeardownAll(c) == TeardownAll(ReclaimIfPending(c.(q := q1), v.value)))
  {
    hide ReclaimIfPending;
  }

  lemma DrainStep(c: Core)
    ensures c.q.resps == [] ==> Drain(c) == c
    ensures c.q.resps != [] ==>
              var (q1, v) := c.q.Unattach(RespList); v.Some? && Drain(c) == Drain(CompleteOne(c.(q := q1), v.value))
  {
    hide CompleteOne;
  }

  class CommandDevice {
    const hvq: HabQueue<Vbuf>
    var ready: bool
    var pending: seq<Vbuf>
    var completed: set<Vbuf>
    ghost var live: set<Vbuf>
    ghost var freed: seq<Vbuf>

    ghost function C(): Core
      reads this, hvq
    {
      Core(live, pending, freed, completed, hvq.Q(), ready, false)
    }

    ghost predicate Valid()
      reads this, hvq
    {
      hvq.Valid() && Safe(C())
    }

    constructor ()
      ensures Valid() && fresh(hvq) && C() == Init().core
    {
      hvq := new HabQueue(DEFAULT_VQ_NUM);
      ready, pending, completed, live, freed := true, [], {}, {}, [];
    }

    method VbufIsPending(v: Vbuf) returns (found: bool)
      ensures found == (v in pending)
    {
      for i := 0 to |pending|
        invariant v !in pending[..i]
      {
        if pending[i] == v {
          return true;
        }
      }
      return false;
    }

    method FreeVbuf(v: Vbuf)
      requires Valid() && v in pending
      modifies this
      ensures Valid() && C() == CommandQueue.FreeVbuf(old(C()), v)
    {
      var i := 0;
      while pending[i] != v
        invariant 0 <= i < |pending| && v !in pending[..i]
        decreases |pending| - i
      {
        i := i + 1;
      }
      assert IndexOf(pending, v) == i;
      pending := pending[..i] + pending[i + 1..];
      live, freed := live - {v}, freed + [v];
    }

    /** virtio_video_queue_cmd_buffer from taking qlock to failing or dropping it in kick. */
    method QueueLocked(v: Vbuf, breakBetween: bool) returns (sending: Option<Vbuf>)
      requires Valid() && v in live && v !in pending
      modifies this, hvq
      ensures Valid() && (C(), sending) == Submit(old(C()), v, breakBetween)
    {
      SubmitSafe(C(), v, breakBetween);
      pending := pending + [v];
      var added := hvq.AddSgs(v);
      if breakBetween {
        hvq.broken := true; // another thread, without the lock
      }
      sending := None;
      if !hvq.broken {
        sending := hvq.Unattach(VbufList);
      }
    }

    /** The search and delivery of process_msm_hab_cmd_resp. A SESSION_ERROR message is not
        matched: the caller then ends as after a failed receive. */
    method ProcessCmdResp(k: Key, sessionError: bool) returns (found: Option<Vbuf>)
      requires Valid()
      modifies hvq
      ensures Valid()
      ensures if sessionError then C() == old(C()) && found == None else (C(), found) == Match(old(C()), k)
    {
      found := None;
      if sessionError {
        return;
      }
      var i := 0;
      while i < |pending|
        invariant i <= |pending| && i <= FirstWithKey(pending, k)
      {
        if pending[i].key == k {
          found := Some(pending[i]);
          var ok := hvq.Attach(RespList, pending[i]);
          return;
        }
        i := i + 1;
      }
    }

    /** The inner loop's body. */
    method CompleteOne(v: Vbuf)
      requires Valid()
      modifies this
      ensures Valid() && C() == CommandQueue.CompleteOne(old(C()), v)
      ensures hvq.Q() == old(hvq.Q()) && ready == old(ready)
    {
      CompleteOneSafe(C(), v);
      IsPendingSafe(C(), v);
      var found := VbufIsPending(v);
      if found {
        if v.isSync {
          completed := completed + {v};
        } else {
          FreeVbuf(v);
        }
      }
    }

    /** The outer loop of the source leaves after one turn, because enable_cb is (true). */
    method CmdCb()
      requires Valid()
      modifies this, hvq
      ensures Valid() && C() == CommandQueue.CmdCb(old(C()))
    {
      if !ready {
        return;
      }
      ghost var all := Drain(C());
      DrainStep(C());
      var v := hvq.Unattach(RespList);
      hide Drain, CommandQueue.CompleteOne, Safe;
      while v != None
        invariant Valid() && ready
        invariant v == None ==> all == C()
        invariant v != None ==> all == Drain(CommandQueue.CompleteOne(C(), v.value))
        decreases |hvq.resps|, v != None
      {
        CompleteOne(v.value);
        DrainStep(C());
        v := hvq.Unattach(RespList);
      }
    }

    method FreeIfPending(v: Vbuf)
      requires Valid()
      modifies this
      ensures Valid() && C() == ReclaimIfPending(old(C()), v)
      ensures hvq.Q() == old(hvq.Q()) && ready == old(ready)
    {
      IsPendingSafe(C(), v);
      var found := VbufIsPending(v);
      if found {
        FreeVbuf(v);
      }
    }

    /** The tail of virtio_video_queue_cmd_buffer_sync; `rem` is what the wait has returned. */
    method Reclaim(v: Vbuf, rem: nat) returns (timedOut: bool)
      requires Valid()
      modifies this
      ensures timedOut <==> rem == 0
      ensures Valid() && C() == ReclaimIfPending(old(C()), v)
      ensures hvq.Q() == old(hvq.Q()) && ready == old(ready)
    {
      timedOut := rem == 0;
      FreeIfPending(v);
    }

    /** The detach callback of the queue. */
    method DetachOne() returns (v: Option<Vbuf>)
      requires Valid()
      modifies hvq
      ensures Valid() && C() == old(C()).(q := old(C()).q.Detach().0) && v == old(C()).q.Detach().1
      ensures v != None ==> |hvq.vbufs| + |hvq.resps| < |old(hvq.vbufs)| + |old(hvq.resps)|
    {
      SameSlab(C(), C().(q := C().q.Detach().0));
      hide Safe;
      v := hvq.DetachUnusedBuf();
    }

    /** virtio_video_free_vbufs for the command queue. */
    method FreeVbufs()
      requires Valid()
      modifies this, hvq
      ensures Valid() && C() == TeardownAll(old(C()))
    {
      ghost var all := TeardownAll(C());
      TeardownStep(C());
      hide TeardownAll, ReclaimIfPending, Safe;
      var v := DetachOne();
      while v != None
        invariant Valid()
        invariant v == None ==> C() == all
        invariant v != None ==> all == TeardownAll(ReclaimIfPending(C(), v.value))
        decreases |hvq.vbufs| + |hvq.resps|, v != None
      {
        FreeIfPending(v.value);
        TeardownStep(C());
        v := DetachOne();
      }
    }
  }
}

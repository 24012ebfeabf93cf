/** The event loops in place: filling the queue at start, the worker's drain and handlers, and
    the failing receiver's round of ERROR events, each when nothing interleaves with it. */
module EventDriver {
  import opened Sequences
  import opened HabVirtqueue
  import opened BufferOwnership
  import opened BufferDriver
  import opened EventQueue
  import SS = StreamState

  function ContentOf(content: map<nat, Content>, e: nat): Content {
    if e in content then content[e] else Blank
  }

  /** What the buffers say, in order. */
  function Says(content: map<nat, Content>, es: seq<nat>): seq<Content> {
    seq(|es|, i requires 0 <= i < |es| => ContentOf(content, es[i]))
  }

  /** The handlers run one after the other. */
  function HandleAll(d: Dev, cs: seq<Content>, stuck: set<nat>): Dev
    decreases |cs|
  {
    if cs == [] then d else HandleAll(EventQueue.HandleEvent(d, cs[0], stuck), cs[1..], stuck)
  }

  lemma TailNoDup(l: seq<Node<nat>>)
    requires l != [] && NoDup(Bufs(l))
    ensures Bufs(l) == [l[0].buf] + Bufs(l[1..]) && NoDup(Bufs(l[1..])) && l[0].buf !in Bufs(l[1..])
  {
    IdsTail(l);
    assert forall i :: 0 <= i < |l| - 1 ==> Bufs(l)[i + 1] == Bufs(l[1..])[i];
    assert Bufs(l)[0] == l[0].buf;
  }

  lemma HandleAllStep(d: Dev, content: map<nat, Content>, es: seq<nat>, stuck: set<nat>)
    requires es != [] && NoDup(es)
    ensures HandleAll(d, Says(content, es), stuck) ==
              HandleAll(EventQueue.HandleEvent(d, ContentOf(content, es[0]), stuck), Says(content[es[0] := Blank], es[1..]), stuck)
  {
    assert Says(content, es)[1..] == Says(content[es[0] := Blank], es[1..]);
  }

  /** The first of the streams, up to the number of free buffers, have each an ERROR event in
      the free buffer of the same rank at the end of the response list; the rest stay free. */
  ghost predicate TellsFirst(free: seq<nat>, ids: seq<nat>, content: map<nat, Content>, before: seq<nat>, after: seq<nat>, left: seq<nat>) {
    var n := if |free| < |ids| then |free| else |ids|;
    && after == before + free[..n] && left == free[n..]
    && forall k :: 0 <= k < n ==> ContentOf(content, free[k]) == ErrorOf(ids[k])
  }

  ghost predicate Told(content: map<nat, Content>, sent: seq<nat>, ids: seq<nat>) {
    |sent| <= |ids| && forall k :: 0 <= k < |sent| ==> ContentOf(content, sent[k]) == ErrorOf(ids[k])
  }

  lemma BufsLength(l: seq<Node<nat>>)
    ensures |Bufs(l)| == |l|
  {
  }

  lemma NoneTold(content: map<nat, Content>, ids: seq<nat>)
    ensures Told(content, [], ids)
  {
  }

  lemma TellNext(free: seq<nat>, sent: seq<nat>, b: nat, left: seq<nat>, content: map<nat, Content>, ids: seq<nat>, i: nat)
    requires NoDup(free) && free == sent + ([b] + left) && |sent| == i < |ids| && Told(content, sent, ids)
    ensures free == (sent + [b]) + left && Told(content[b := ErrorOf(ids[i])], sent + [b], ids)
  {
    assert free[i] == b && forall k :: 0 <= k < i ==> free[k] == sent[k];
    assert sent + ([b] + left) == (sent + [b]) + left;
  }

  lemma TellsAll(free: seq<nat>, ids: seq<nat>, content: map<nat, Content>, before: seq<nat>, sent: seq<nat>, left: seq<nat>)
    requires free == sent + left && Told(content, sent, ids) && |sent| == if |free| < |ids| then |free| else |ids|
    ensures TellsFirst(free, ids, content, before, before + sent, left)
  {
    assert free[..|sent|] == sent && free[|sent|..] == left;
  }

  class EventDevice {
    const hvq: HabQueue<nat>
    const vvd: VideoDevice
    var content: map<nat, Content>
    var ready: bool

    /** virtio_video_alloc_events: every buffer is queued over a node of its own. */
    constructor (vvd: VideoDevice)
      ensures fresh(hvq) && this.vvd == vvd && hvq.Valid() && hvq.Q() == Filled(DEFAULT_VQ_NUM)
      ensures ready && content == map[]
    {
      hvq := new HabQueue(DEFAULT_VQ_NUM);
      this.vvd := vvd;
      content, ready := map[], true;
      new;
      for i := 0 to DEFAULT_VQ_NUM
        invariant fresh(hvq) && hvq.Valid() && content == map[] && ready
        invariant hvq.Q() == Hvq(seq(DEFAULT_VQ_NUM - i, k => i + k), Filled(i).vbufs, [], false)
      {
        var ok := hvq.AddSgs(i);
      }
    }

    /** virtio_video_queue_event_buffer */
    method QueueEventBuffer(e: nat) returns (ok: bool)
      requires hvq.Valid()
      modifies this`content, hvq
      ensures hvq.Valid() && content == old(content)[e := Blank]
      ensures hvq.Q() == old(hvq.Q()).AddSgs(e) && ok == old(hvq.Q()).AddOk()
    {
      content := content[e := Blank];
      ok := hvq.AddSgs(e);
    }

    /** virtio_video_handle_event */
    method HandleEvent(e: nat, stuck: set<nat>)
      modifies vvd
      ensures vvd.D() == EventQueue.HandleEvent(old(vvd.D()), ContentOf(content, e), stuck)
    {
      var evt := if e in content then content[e] else Blank;
      if evt == Blank || evt.sid !in vvd.streams {
        return;
      }
      match evt {
        case FrameDone(sid, rid, failed, eos, erased) => vvd.HandleBufDone(sid, rid, failed, eos, erased, stuck);
        case ResChange(sid) =>
          if vvd.streams[sid].state == SS.Init {
            vvd.StateUpdate(sid, SS.DynamicResChange);
          }
        case ErrorOf(sid) =>
          vvd.StateUpdate(sid, SS.Error);
          vvd.HandleError(sid);
        case Unknown(_) =>
      }
    }

    /** One turn of the worker's inner loop. */
    method HandleNext(stuck: set<nat>)
      requires hvq.Valid() && hvq.resps != []
      modifies this`content, hvq, vvd
      ensures hvq.Valid() && hvq.broken == old(hvq.broken)
      ensures hvq.resps == old(hvq.resps)[1..]
      ensures var b := old(hvq.resps)[0].buf;
              && content == old(content)[b := Blank]
              && vvd.D() == EventQueue.HandleEvent(old(vvd.D()), ContentOf(old(content), b), stuck)
              && Bufs(hvq.vbufs) == Bufs(old(hvq.vbufs)) + if hvq.broken then [] else [b]
    {
      var evt := hvq.Unattach(RespList);
      HandleEvent(evt.value, stuck);
      ghost var vbufs := hvq.vbufs;
      var ok := QueueEventBuffer(evt.value);
      if ok {
        IdsAppend(vbufs, hvq.vbufs[|vbufs|]);
      }
    }

    /** virtio_video_process_events: every filled buffer is handled, oldest first, and goes
        back on the queue unless the queue is broken. */
    method ProcessEvents(stuck: set<nat>)
      requires hvq.Valid() && NoDup(Bufs(hvq.resps))
      modifies this`content, hvq, vvd
      ensures hvq.Valid()
      ensures !ready ==> hvq.Q() == old(hvq.Q()) && vvd.D() == old(vvd.D())
      ensures ready ==>
                && hvq.resps == [] && hvq.broken == old(hvq.broken)
                && vvd.D() == HandleAll(old(vvd.D()), Says(old(content), Bufs(old(hvq.resps))), stuck)
                && Bufs(hvq.vbufs) == Bufs(old(hvq.vbufs)) + if hvq.broken then [] else Bufs(old(hvq.resps))
    {
      if !ready {
        return;
      }
      ghost var all := HandleAll(vvd.D(), Says(content, Bufs(hvq.resps)), stuck);
      ghost var free := Bufs(hvq.vbufs) + if hvq.broken then [] else Bufs(hvq.resps);
      while hvq.resps != []
        invariant hvq.Valid() && NoDup(Bufs(hvq.resps)) && hvq.broken == old(hvq.broken)
        invariant all == HandleAll(vvd.D(), Says(content, Bufs(hvq.resps)), stuck)
        invariant free == Bufs(hvq.vbufs) + if hvq.broken then [] else Bufs(hvq.resps)
        decreases |hvq.resps|
      {
        ghost var d, l, c, vbufs := vvd.D(), hvq.resps, content, Bufs(hvq.vbufs);
        TailNoDup(l);
        HandleNext(stuck);
        HandleAllStep(d, c, Bufs(l), stuck);
        assert vbufs + ([l[0].buf] + Bufs(l[1..])) == (vbufs + [l[0].buf]) + Bufs(l[1..]);
        assert Bufs(l)[1..] == Bufs(l[1..]);
      }
    }

    /** One turn of the receiver's round, for stream sid. */
    method SendError(sid: nat)
      requires hvq.Valid()
      modifies this`content, hvq
      ensures hvq.Valid() && hvq.broken == old(hvq.broken)
      ensures old(hvq.vbufs) == [] ==> hvq.Q() == old(hvq.Q()) && content == old(content)
      ensures old(hvq.vbufs) != [] ==>
                var b := Bufs(old(hvq.vbufs))[0];
                && content == old(content)[b := ErrorOf(sid)]
                && Bufs(hvq.resps) == Bufs(old(hvq.resps)) + [b]
                && Bufs(old(hvq.vbufs)) == [b] + Bufs(hvq.vbufs)
    {
      hide Bufs;
      UnattachConserves(hvq.Q(), VbufList);
      var evt := hvq.Unattach(VbufList);
      if evt.Some? {
        assert hvq.unused != [];
        content := content[evt.value := ErrorOf(sid)];
        AttachConserves(hvq.Q(), RespList, evt.value);
        var ok := hvq.Attach(RespList, evt.value);
      }
    }

    /** The receiver's round over the open streams, `ids` in the order of the idr. */
    method TellStreams(ids: seq<nat>)
      requires hvq.Valid() && NoDup(Bufs(hvq.vbufs))
      modifies this`content, hvq
      ensures hvq.Valid() && hvq.broken == old(hvq.broken)
      ensures TellsFirst(Bufs(old(hvq.vbufs)), ids, content, Bufs(old(hvq.resps)), Bufs(hvq.resps), Bufs(hvq.vbufs))
    {
      hide Bufs, TellsFirst, ContentOf, Told, NoDup;
      ghost var free := Bufs(hvq.vbufs);
      ghost var sent: seq<nat> := [];
      NoneTold(content, ids);
      BufsLength(hvq.vbufs);
      assert free == sent + free;
      for i := 0 to |ids|
        invariant hvq.Valid() && hvq.broken == old(hvq.broken) && free == sent + Bufs(hvq.vbufs)
        invariant |sent| == (if |free| < i then |free| else i) <= |ids| && (|sent| < |free| <==> hvq.vbufs != [])
        invariant Bufs(hvq.resps) == Bufs(old(hvq.resps)) + sent
        invariant Told(content, sent, ids)
      {
        ghost var vbufs, told := hvq.vbufs, content;
        SendError(ids[i]);
        BufsLength(hvq.vbufs);
        if vbufs != [] {
          ghost var b := Bufs(vbufs)[0];
          TellNext(free, sent, b, Bufs(hvq.vbufs), told, ids, i);
          sent := sent + [b];
        }
      }
      TellsAll(free, ids, content, Bufs(old(hvq.resps)), sent, Bufs(hvq.vbufs));
    }

    /** The error path of virtio_video_hab_resp_handler for the event queue. The buffer in the
        receiver's hands joins the free ones, and the first streams, as many as there are free
        buffers, each get an ERROR event in those buffers, oldest first. */
    method RecvFailed(msg: Option<nat>, ids: seq<nat>)
      requires hvq.Valid() && (msg.Some? ==> hvq.unused != [])
      requires NoDup(Bufs(hvq.vbufs)) && (msg.Some? ==> msg.value !in Bufs(hvq.vbufs))
      modifies this`content, hvq
      ensures hvq.Valid() && hvq.broken
      ensures var free := Bufs(old(hvq.vbufs)) + if msg.Some? then [msg.value] else [];
              TellsFirst(free, ids, content, Bufs(old(hvq.resps)), Bufs(hvq.resps), Bufs(hvq.vbufs))
    {
      hvq.broken := true;
      if msg.Some? {
        AttachConserves(hvq.Q(), VbufList, msg.value);
        var ok := hvq.Attach(VbufList, msg.value);
      }
      TellStreams(ids);
    }
  }
}

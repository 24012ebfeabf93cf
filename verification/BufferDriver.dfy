/** The functions of virtio_video_device.c, virtio_video_vq.c and virtio_video_msm_vb2.c that
    work on the pending buffer list in place, each tied to its step in BufferOwnership. */
module BufferDriver {
  import opened Sequences
  import opened ExportCache
  import opened BufferOwnership
  import opened OwnershipProofs
  import SS = StreamState

  const VIDEO_MAX_PLANES: nat := 8

  /** The ids obtained are nonzero, and there is one for every plane if the loop has run to the end. */
  lemma {:induction false} GetIdsNonzero(c: Cache, h: Host, planes: seq<Plane>, q: QueueType, ws: seq<World>)
    requires |planes| == |ws|
    ensures var (_, _, ids, ok) := GetIds(c, h, planes, q, ws);
            |ids| <= |planes| && 0 !in ids && (ok ==> |ids| == |planes|)
    decreases |planes|
  {
    if planes != [] {
      var (c1, h1, id) := GetId(c, h, planes[0].dmabuf, planes[0].size, q, ws[0]);
      if id != 0 { GetIdsNonzero(c1, h1, planes[1..], q, ws[1..]); }
    }
  }

  /** The id array: the ids obtained, then zeros. */
  predicate Padded(exportId: seq<nat>, ids: seq<nat>) {
    && |ids| <= VIDEO_MAX_PLANES == |exportId|
    && (forall k :: 0 <= k < VIDEO_MAX_PLANES ==> exportId[k] == if k < |ids| then ids[k] else 0)
  }

  /** The ids already obtained, in front of what the rest of the planes gives. */
  function Prefixed(ids: seq<nat>, r: (Cache, Host, seq<nat>, bool)): (Cache, Host, seq<nat>, bool) {
    (r.0, r.1, ids + r.2, r.3)
  }

  lemma NothingPadded(exportId: seq<nat>)
    requires |exportId| == VIDEO_MAX_PLANES && forall k :: 0 <= k < VIDEO_MAX_PLANES ==> exportId[k] == 0
    ensures Padded(exportId, [])
  {
  }

  lemma PaddedNext(exportId: seq<nat>, ids: seq<nat>, id: nat)
    requires Padded(exportId, ids) && |ids| < VIDEO_MAX_PLANES
    ensures |exportId| == VIDEO_MAX_PLANES && Padded(exportId[|ids| := id], ids + [id])
  {
  }

  lemma PaddedAt(exportId: seq<nat>, ids: seq<nat>, plane: nat)
    requires Padded(exportId, ids) && 0 !in ids && plane < VIDEO_MAX_PLANES
    ensures exportId[plane] != 0 <==> plane < |ids|
    ensures plane < |ids| ==> exportId[plane] == ids[plane]
  {
    assert plane < |ids| ==> ids[plane] in ids;
  }

  lemma PutIdsHead(c: Cache, h: Host, ids: seq<nat>, plane: nat, stuck: set<nat>)
    requires plane < |ids|
    ensures var (c1, h1) := PutId(c, h, ids[plane], true, stuck);
            PutIds(c, h, ids[plane..], stuck) == PutIds(c1, h1, ids[plane + 1..], stuck)
  {
    assert ids[plane..][1..] == ids[plane + 1..];
  }

  lemma SameCache(d: Dev, sid: nat)
    requires sid in d.streams
    ensures d.WithCache(sid, d.streams[sid].cache, d.host) == d
  {
  }

  lemma WithCacheTwice(d: Dev, sid: nat, c: Cache, h: Host, c1: Cache, h1: Host)
    requires sid in d.streams
    ensures d.WithCache(sid, c, h).WithCache(sid, c1, h1) == d.WithCache(sid, c1, h1)
  {
  }

  lemma RefuseCommutes(d: Dev, b: nat, rid: nat, c: Cache, h: Host, c1: Cache, h1: Host)
    requires b in d.bufs && d.bufs[b].sid in d.streams
    ensures var sid := d.bufs[b].sid;
            && d.WithCache(sid, c, h).WithCache(sid, c1, h1) == d.WithCache(sid, c1, h1)
            && PutOnList(d.WithCache(sid, c, h), b, rid).SetState(sid, SS.Error).WithCache(sid, c1, h1)
               == PutOnList(d, b, rid).SetState(sid, SS.Error).WithCache(sid, c1, h1)
  {
  }

  lemma ExportStep(before: seq<nat>, c: Cache, h: Host, planes: seq<Plane>, q: QueueType, ws: seq<World>, plane: nat)
    requires plane <= |planes| == |ws|
    ensures plane == |planes| ==> Prefixed(before, GetIds(c, h, planes[plane..], q, ws[plane..])) == (c, h, before, true)
    ensures plane < |planes| ==>
              var (c1, h1, id) := GetId(c, h, planes[plane].dmabuf, planes[plane].size, q, ws[plane]);
              Prefixed(before, GetIds(c, h, planes[plane..], q, ws[plane..])) ==
                if id == 0 then (c1, h1, before, false)
                else Prefixed(before + [id], GetIds(c1, h1, planes[plane + 1..], q, ws[plane + 1..]))
  {
    assert before + [] == before;
    if plane == |planes| {
      return;
    }
    var (c1, h1, id) := GetId(c, h, planes[plane].dmabuf, planes[plane].size, q, ws[plane]);
    var r := GetIds(c1, h1, planes[plane + 1..], q, ws[plane + 1..]);
    assert planes[plane..][1..] == planes[plane + 1..] && ws[plane..][1..] == ws[plane + 1..];
    assert before + ([id] + r.2) == (before + [id]) + r.2;
  }

  /** struct virtio_video_device with what it reaches: its streams, the host, the vb2 buffers. */
  class VideoDevice {
    var streams: map<nat, Strm>
    var host: Host
    var bufs: map<nat, Buf>
    var pendingBufList: seq<nat>
    ghost var taken: multiset<nat>
    ghost var given: multiset<nat>
    ghost var warned: bool

    ghost function D(): Dev
      reads this
    {
      Dev(streams, host, bufs, pendingBufList, taken, given, warned)
    }

    method Vb2BufferDone(b: nat, st: VbState)
      modifies this`bufs, this`given, this`warned
      ensures D() == VbDone(old(D()), b, st)
    {
      if b in bufs && bufs[b].vb == Active {
        bufs := bufs[b := bufs[b].(vb := st)];
        given := given + multiset{b};
      } else {
        warned := true;
      }
    }

    method StateUpdate(sid: nat, n: SS.State)
      modifies this`streams
      ensures D() == old(D()).SetState(sid, n)
    {
      if sid in streams && streams[sid].state != SS.Error {
        streams := streams[sid := streams[sid].(state := n)];
      } else if sid in streams {
        assert streams[sid := streams[sid].(state := SS.Error)] == streams;
      }
    }

    /** virtio_video_pending_buf_list_del takes the first entry with the buffer's id. */
    method PendingBufListDel(rid: nat) returns (ok: bool)
      modifies this`pendingBufList
      ensures var i := FirstWithRid(old(D()), rid, 0);
              && (ok <==> i < |old(pendingBufList)|)
              && pendingBufList == if ok then RemoveAt(old(pendingBufList), i) else old(pendingBufList)
    {
      ok := false;
      if pendingBufList == [] {
        return;
      }
      for i := 0 to |pendingBufList|
        invariant D() == old(D())
        invariant FirstWithRid(D(), rid, 0) == FirstWithRid(D(), rid, i)
      {
        if pendingBufList[i] in bufs && bufs[pendingBufList[i]].rid == rid {
          pendingBufList := pendingBufList[..i] + pendingBufList[i + 1..];
          return true;
        }
      }
    }

    /** The safe walk of virtio_video_queue_release_buffers. */
    method QueueReleaseBuffers(sid: nat, qt: QueueType)
      modifies this`pendingBufList, this`bufs, this`given, this`warned
      ensures D() == Release(old(D()), sid, qt)
    {
      var i := 0;
      while i < |pendingBufList|
        invariant i <= |pendingBufList|
        invariant Release(old(D()), sid, qt) == ReleaseFrom(D(), sid, qt, i)
        decreases |pendingBufList| - i
      {
        var b := pendingBufList[i];
        if b in bufs && bufs[b].sid == sid && bufs[b].qt == qt && TestsActive(bufs[b].vb) {
          pendingBufList := pendingBufList[..i] + pendingBufList[i + 1..];
          Vb2BufferDone(b, Error);
        } else {
          i := i + 1;
        }
      }
    }

    method HandleError(sid: nat)
      modifies this`pendingBufList, this`bufs, this`given, this`warned
      ensures D() == BufferOwnership.HandleError(old(D()), sid)
    {
      QueueReleaseBuffers(sid, InputMeta);
      QueueReleaseBuffers(sid, OutputMeta);
      QueueReleaseBuffers(sid, Input);
      QueueReleaseBuffers(sid, Output);
    }

    /** virtio_video_buf_done: the flags that matter are ERROR and EOS. */
    method BufDone(b: nat, failed: bool, eos: bool)
      requires b in bufs
      modifies this`streams, this`bufs, this`given, this`warned
      ensures var d2 := old(D()).WithBuf(b, old(bufs)[b].(queued := false));
              D() == VbDone(if eos then d2.SetState(old(bufs)[b].sid, SS.Stopped) else d2, b, if failed then Error else Done)
    {
      bufs := bufs[b := bufs[b].(queued := false)];
      var doneState := if failed then Error else Done;
      if eos {
        StateUpdate(bufs[b].sid, SS.Stopped);
      }
      Vb2BufferDone(b, doneState);
    }

    /** One search finds the buffer of an event, a second takes it off the list. */
    method ReturnBuffer(rid: nat, failed: bool, eos: bool)
      modifies this
      ensures D() == ReturnByRid(old(D()), rid, failed, eos)
    {
      var found: Option<nat> := None;
      for i := 0 to |pendingBufList|
        invariant D() == old(D()) && found == None
        invariant FirstWithRid(D(), rid, 0) == FirstWithRid(D(), rid, i)
      {
        if pendingBufList[i] in bufs && bufs[pendingBufList[i]].rid == rid {
          found := Some(pendingBufList[i]);
          break;
        }
      }
      if found.Some? {
        var ok := PendingBufListDel(bufs[found.value].rid);
        BufDone(found.value, failed, eos);
      }
    }

    /** virtio_video_handle_buf_done */
    method HandleBufDone(sid: nat, rid: nat, failed: bool, eos: bool, erased: seq<nat>, stuck: set<nat>)
      requires sid in streams
      modifies this
      ensures D() == Complete(old(D()), sid, rid, failed, eos, erased, stuck)
    {
      ReturnBuffer(rid, failed, eos);
      var (c, h) := PutId(streams[sid].cache, host, rid, false, stuck);
      var (c1, h1) := Cleanup(c, h, erased, stuck);
      streams, host := streams[sid := streams[sid].(cache := c1)], h1;
    }

    method GetExportId(sid: nat, p: Plane, qt: QueueType, w: World) returns (id: nat)
      requires sid in streams
      modifies this`streams, this`host
      ensures var r := GetId(old(streams)[sid].cache, old(host), p.dmabuf, p.size, qt, w);
              id == r.2 && D() == old(D()).WithCache(sid, r.0, r.1)
    {
      var r := GetId(streams[sid].cache, host, p.dmabuf, p.size, qt, w);
      streams, host, id := streams[sid := streams[sid].(cache := r.0)], r.1, r.2;
    }

    /** The plane loop of msm_vidc_buf_queue, stopping at the first plane without an id. */
    method ExportPlanes(b: nat, ws: seq<World>) returns (exportId: seq<nat>, ok: bool)
      requires b in bufs && bufs[b].sid in streams && |ws| == |bufs[b].planes| <= VIDEO_MAX_PLANES
      modifies this`streams, this`host
      ensures var x := old(bufs)[b];
              var (c, h, ids, done) := GetIds(old(streams)[x.sid].cache, old(host), x.planes, x.qt, ws);
              && 0 !in ids && ok == done && Padded(exportId, ids)
              && D() == old(D()).WithCache(x.sid, c, h)
    {
      exportId, ok := seq(VIDEO_MAX_PLANES, _ => 0), true;
      var x := bufs[b];
      ghost var all := GetIds(streams[x.sid].cache, host, x.planes, x.qt, ws);
      GetIdsNonzero(streams[x.sid].cache, host, x.planes, x.qt, ws);
      ghost var d0, c, h, got: seq<nat> := D(), streams[x.sid].cache, host, [];
      SameCache(d0, x.sid);
      assert x.planes[0..] == x.planes && ws[0..] == ws && [] + all.2 == all.2;
      assert all == Prefixed(got, all);
      hide GetId, GetIds, Padded;
      NothingPadded(exportId);
      for plane := 0 to |x.planes|
        invariant D() == d0.WithCache(x.sid, c, h) && ok
        invariant |got| == plane && Padded(exportId, got)
        invariant all == Prefixed(got, GetIds(c, h, x.planes[plane..], x.qt, ws[plane..]))
      {
        ExportStep(got, c, h, x.planes, x.qt, ws, plane);
        ghost var r := GetId(c, h, x.planes[plane].dmabuf, x.planes[plane].size, x.qt, ws[plane]);
        var id := GetExportId(x.sid, x.planes[plane], x.qt, ws[plane]);
        WithCacheTwice(d0, x.sid, c, h, r.0, r.1);
        c, h := r.0, r.1;
        if id == 0 {
          ok := false;
          return;
        }
        PaddedNext(exportId, got, id);
        exportId := exportId[plane := id];
        got := got + [id];
      }
      ExportStep(got, c, h, x.planes, x.qt, ws, |x.planes|);
      assert |got| == |x.planes|;
    }

    /** The unexport loop: every slot that holds an id. */
    method UnexportPlanes(sid: nat, exportId: seq<nat>, ghost ids: seq<nat>, stuck: set<nat>)
      requires sid in streams && 0 !in ids && Padded(exportId, ids)
      modifies this`streams, this`host
      ensures var (c, h) := PutIds(old(streams)[sid].cache, old(host), ids, stuck);
              D() == old(D()).WithCache(sid, c, h)
    {
      assert |exportId| == VIDEO_MAX_PLANES;
      hide PutId, PutIds, Padded;
      ghost var d0, c0, h0 := D(), streams[sid].cache, host;
      SameCache(d0, sid);
      ghost var left := ids;
      for plane := 0 to VIDEO_MAX_PLANES
        invariant sid in streams && D() == d0.WithCache(sid, streams[sid].cache, host)
        invariant left == if plane <= |ids| then ids[plane..] else []
        invariant PutIds(c0, h0, ids, stuck) == PutIds(streams[sid].cache, host, left, stuck)
      {
        ghost var c1, h1 := streams[sid].cache, host;
        PaddedAt(exportId, ids, plane);
        if exportId[plane] != 0 {
          PutIdsHead(c1, h1, ids, plane, stuck);
          var (c, h) := PutId(streams[sid].cache, host, exportId[plane], true, stuck);
          streams, host := streams[sid := streams[sid].(cache := c)], h;
          WithCacheTwice(d0, sid, c1, h1, c, h);
        }
        left := if plane + 1 <= |ids| then ids[plane + 1..] else [];
      }
    }

    /** The tail of a buffer that got all its ids. */
    method SubmitBuf(b: nat, rid: nat, submitOk: bool)
      requires b in bufs && bufs[b].sid in streams
      modifies this`bufs, this`pendingBufList, this`streams
      ensures var d1 := PutOnList(old(D()), b, rid);
              D() == if submitOk then d1 else d1.SetState(old(bufs)[b].sid, SS.Error)
    {
      bufs := bufs[b := bufs[b].(queued := true, rid := rid, covered := true)];
      pendingBufList := pendingBufList + [b];
      if !submitOk {
        StateUpdate(bufs[b].sid, SS.Error);
      }
    }

    /** msm_vidc_buf_queue, after vb2 has marked the buffer ACTIVE. A failed submission has
        already moved the stream to ERROR in virtio_video_v4l2_to_hab. */
    method BufQueue(b: nat, ws: seq<World>, submitOk: bool, stuck: set<nat>)
      requires b in bufs && bufs[b].sid in streams && 0 < |bufs[b].planes| == |ws| <= VIDEO_MAX_PLANES
      modifies this
      ensures D() == QueueBuf(old(D()), b, ws, submitOk, stuck)
    {
      bufs := bufs[b := bufs[b].(vb := Active)];
      taken := taken + multiset{b};
      ghost var d0 := D();
      var sid := bufs[b].sid;
      if streams[sid].state == SS.Error {
        Vb2BufferDone(b, Error);
        return;
      }
      ghost var x := bufs[b];
      ghost var got := GetIds(streams[sid].cache, host, x.planes, x.qt, ws);
      var exportId, ok := ExportPlanes(b, ws);
      ghost var d1 := d0.WithCache(sid, got.0, got.1);
      if ok {
        GetIdsNonzero(old(streams)[sid].cache, old(host), x.planes, x.qt, ws);
        SubmitBuf(b, exportId[0], submitOk);
        if submitOk {
          return;
        }
      }
      ghost var d2 := D();
      UnexportPlanes(sid, exportId, got.2, stuck);
      Vb2BufferDone(b, Error);
      var (c1, h1) := PutIds(got.0, got.1, got.2, stuck);
      RefuseCommutes(d0, b, if ok then got.2[0] else 0, got.0, got.1, c1, h1);
    }

    method PutExportQueueType(sid: nat, q: QueueType, stuck: set<nat>)
      requires sid in streams
      modifies this`streams, this`host, this`bufs
      ensures D() == PutType(old(D()), sid, q, stuck)
    {
      var (c, h) := PutTypeFrom(streams[sid].cache, host, q, stuck, 0);
      streams, host, bufs := streams[sid := streams[sid].(cache := c)], h, Uncover(bufs, sid, q);
    }

    /** msm_vidc_stop_streaming up to the wait for all buffers: a failed streamoff command has
        already moved the stream to ERROR. Afterwards, on the paths that release, the driver
        owns no buffer of the queue nor of its meta queue. */
    method StopStreaming(sid: nat, q: QueueType, offOk: bool, stuck: set<nat>)
      requires sid in streams && OwnedArePending(D())
      modifies this
      ensures D() == BufferOwnership.StopStreaming(old(D()), sid, q, offOk, stuck)
      ensures OwnedArePending(D())
      ensures old(D()).State(sid) == SS.Error || (IsData(q) && !offOk) ==>
                NoneActive(D(), sid, q) && (IsData(q) ==> NoneActive(D(), sid, Meta(q)))
    {
      StopStreamingEmptiesQueues(D(), sid, q, offOk, stuck);
      var failed := streams[sid].state == SS.Error;
      if !failed {
        if q == InputMeta || q == OutputMeta {
          return;
        }
        if !offOk {
          StateUpdate(sid, SS.Error);
        }
        failed := !offOk;
        if q == Output {
          PutExportQueueType(sid, Output, stuck);
          PutExportQueueType(sid, OutputMeta, stuck);
        } else if q == Input {
          PutExportQueueType(sid, Input, stuck);
          PutExportQueueType(sid, InputMeta, stuck);
        }
      }
      if failed {
        if q == Input {
          QueueReleaseBuffers(sid, InputMeta);
        } else if q == Output {
          QueueReleaseBuffers(sid, OutputMeta);
        }
        QueueReleaseBuffers(sid, q);
      }
    }
  }
}

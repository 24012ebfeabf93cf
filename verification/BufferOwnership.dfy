/** Which vb2 buffers the driver owns: the device's pending list, the paths that put buffers
    on it and the paths that take them off, with the export caches they use. */
module BufferOwnership {
  import opened Sequences
  import opened ExportCache
  import SS = StreamState

  /** The vb2 states the driver can see. vb2 marks a buffer ACTIVE before buf_queue. */
  datatype VbState = Dequeued | Active | Done | Error

  /** The test of the release loop, (state & VB2_BUF_STATE_ACTIVE) > 0. The enumeration is the
      kernel's, where ACTIVE, DONE and ERROR (4, 5, 6) share that bit and DEQUEUED is 0. */
  predicate TestsActive(st: VbState) {
    st != Dequeued
  }

  /** One plane: the dma-buf behind its descriptor, if it is open, and its length. */
  datatype Plane = Plane(dmabuf: Option<nat>, size: nat)

  /** `covered` is history: no streamoff has released the exports of the buffer's queue type
      since the buffer was queued. */
  datatype Buf = Buf(sid: nat, qt: QueueType, planes: seq<Plane>, vb: VbState, rid: nat, queued: bool, covered: bool)

  datatype Strm = Strm(state: SS.State, cache: Cache)

  /** The device. `taken` and `given` are history: how often vb2 handed each buffer to the
      driver and got it back; `warned` records a vb2_buffer_done on a buffer not ACTIVE,
      which vb2 refuses. */
  datatype Dev = Dev(streams: map<nat, Strm>, host: Host, bufs: map<nat, Buf>, pending: seq<nat>,
                     taken: multiset<nat>, given: multiset<nat>, warned: bool)
  {
    function State(sid: nat): SS.State
      requires sid in streams
    {
      streams[sid].state
    }

    function SetState(sid: nat, n: SS.State): Dev {
      if sid in streams
      then this.(streams := streams[sid := streams[sid].(state := SS.Update(streams[sid].state, n))])
      else this
    }

    function WithCache(sid: nat, c: Cache, h: Host): Dev
      requires sid in streams
    {
      this.(streams := streams[sid := streams[sid].(cache := c)], host := h)
    }

    function WithBuf(b: nat, x: Buf): Dev {
      this.(bufs := bufs[b := x])
    }
  }

  /** vb2_buffer_done */
  function VbDone(d: Dev, b: nat, st: VbState): (e: Dev)
    ensures e.streams == d.streams
  {
    if b in d.bufs && d.bufs[b].vb == Active
    then d.WithBuf(b, d.bufs[b].(vb := st)).(given := d.given + multiset{b})
    else d.(warned := true)
  }

  // ---- buf_queue ----

  /** The plane loop: the ids obtained so far, and whether every plane got one. */
  function GetIds(c: Cache, h: Host, planes: seq<Plane>, q: QueueType, ws: seq<World>): (Cache, Host, seq<nat>, bool)
    requires |planes| == |ws|
    decreases |planes|
  {
    if planes == [] then (c, h, [], true)
    else
      var (c1, h1, id) := GetId(c, h, planes[0].dmabuf, planes[0].size, q, ws[0]);
      if id == 0 then (c1, h1, [], false)
      else
        var (c2, h2, ids, ok) := GetIds(c1, h1, planes[1..], q, ws[1..]);
        (c2, h2, [id] + ids, ok)
  }

  ghost predicate GetIdsAllowed(c: Cache, h: Host, planes: seq<Plane>, q: QueueType, ws: seq<World>)
    requires |planes| == |ws|
    decreases |planes|
  {
    planes != [] ==>
      && Allowed(h, planes[0].dmabuf, ws[0])
      && var (c1, h1, id) := GetId(c, h, planes[0].dmabuf, planes[0].size, q, ws[0]);
         id != 0 ==> GetIdsAllowed(c1, h1, planes[1..], q, ws[1..])
  }

  /** The unexport loop of a failed buf_queue. */
  function PutIds(c: Cache, h: Host, ids: seq<nat>, stuck: set<nat>): (Cache, Host)
    decreases |ids|
  {
    if ids == [] then (c, h)
    else
      var (c1, h1) := PutId(c, h, ids[0], true, stuck);
      PutIds(c1, h1, ids[1..], stuck)
  }

  /** vb2 marks the buffer ACTIVE and calls buf_queue. */
  function HandOver(d: Dev, b: nat): Dev
    requires b in d.bufs
  {
    d.WithBuf(b, d.bufs[b].(vb := Active)).(taken := d.taken + multiset{b})
  }

  /** The buffer goes on the pending list with its first export id. */
  function PutOnList(d: Dev, b: nat, rid: nat): Dev
    requires b in d.bufs
  {
    d.WithBuf(b, d.bufs[b].(queued := true, rid := rid, covered := true)).(pending := d.pending + [b])
  }

  /** vb2 hands the buffer over, then msm_vidc_buf_queue runs. */
  function QueueBuf(d: Dev, b: nat, ws: seq<World>, submitOk: bool, stuck: set<nat>): Dev
    requires b in d.bufs && d.bufs[b].sid in d.streams && |ws| == |d.bufs[b].planes|
  {
    var x := d.bufs[b];
    var strm := d.streams[x.sid];
    var d0 := HandOver(d, b);
    if strm.state == SS.Error then VbDone(d0, b, Error)
    else
      var (c, h, ids, ok) := GetIds(strm.cache, d.host, x.planes, x.qt, ws);
      if !ok then
        var (c1, h1) := PutIds(c, h, ids, stuck);
        VbDone(d0.WithCache(x.sid, c1, h1), b, Error)
      else
        var d1 := PutOnList(d0, b, if ids == [] then 0 else ids[0]);
        if submitOk then d1.WithCache(x.sid, c, h)
        else
          // virtio_video_v4l2_to_hab has already moved the stream to ERROR
          var (c1, h1) := PutIds(c, h, ids, stuck);
          VbDone(d1.SetState(x.sid, SS.Error).WithCache(x.sid, c1, h1), b, Error)
  }

  // ---- completion events ----

  function FirstWithRid(d: Dev, rid: nat, i: nat): (j: nat)
    requires i <= |d.pending|
    ensures i <= j <= |d.pending|
    ensures forall k :: i <= k < j ==> !(d.pending[k] in d.bufs && d.bufs[d.pending[k]].rid == rid)
    ensures j < |d.pending| ==> d.pending[j] in d.bufs && d.bufs[d.pending[j]].rid == rid
    decreases |d.pending| - i
  {
    if i == |d.pending| || (d.pending[i] in d.bufs && d.bufs[d.pending[i]].rid == rid) then i
    else FirstWithRid(d, rid, i + 1)
  }

  /** The part of a completion before the cache is told. */
  function ReturnByRid(d: Dev, rid: nat, failed: bool, eos: bool): (e: Dev)
    ensures e.streams.Keys == d.streams.Keys
  {
    var i := FirstWithRid(d, rid, 0);
    if i == |d.pending| then d
    else
      var b := d.pending[i];
      var d2 := d.(pending := RemoveAt(d.pending, i)).WithBuf(b, d.bufs[b].(queued := false));
      VbDone(if eos then d2.SetState(d.bufs[b].sid, SS.Stopped) else d2, b, if failed then Error else Done)
  }

  /** virtio_video_handle_buf_done for an event of stream sid about export id rid. */
  function Complete(d: Dev, sid: nat, rid: nat, failed: bool, eos: bool, erased: seq<nat>, stuck: set<nat>): Dev
    requires sid in d.streams
  {
    var d1 := ReturnByRid(d, rid, failed, eos);
    var (c, h) := PutId(d1.streams[sid].cache, d1.host, rid, false, stuck);
    var (c1, h1) := Cleanup(c, h, erased, stuck);
    d1.WithCache(sid, c1, h1)
  }

  // ---- release ----

  predicate Owned(d: Dev, b: nat, sid: nat, qt: QueueType) {
    b in d.bufs && d.bufs[b].sid == sid && d.bufs[b].qt == qt
  }

  /** virtio_video_queue_release_buffers from list position i on. */
  function ReleaseFrom(d: Dev, sid: nat, qt: QueueType, i: nat): Dev
    requires i <= |d.pending|
    decreases |d.pending| - i
  {
    if i == |d.pending| then d
    else
      var b := d.pending[i];
      if Owned(d, b, sid, qt) && TestsActive(d.bufs[b].vb) then
        ReleaseFrom(VbDone(d.(pending := RemoveAt(d.pending, i)), b, Error), sid, qt, i)
      else ReleaseFrom(d, sid, qt, i + 1)
  }

  function Release(d: Dev, sid: nat, qt: QueueType): Dev {
    ReleaseFrom(d, sid, qt, 0)
  }

  /** virtio_video_handle_error on a memory-to-memory device: meta queues first. */
  function HandleError(d: Dev, sid: nat): Dev {
    Release(Release(Release(Release(d, sid, InputMeta), sid, OutputMeta), sid, Input), sid, Output)
  }

  function ErrorEvent(d: Dev, sid: nat): Dev {
    HandleError(d.SetState(sid, SS.Error), sid)
  }

  function Meta(q: QueueType): QueueType {
    if q == Input || q == InputMeta then InputMeta else OutputMeta
  }

  function Uncover(bufs: map<nat, Buf>, sid: nat, q: QueueType): map<nat, Buf> {
    map b | b in bufs :: if bufs[b].sid == sid && bufs[b].qt == q then bufs[b].(covered := false) else bufs[b]
  }

  function PutType(d: Dev, sid: nat, q: QueueType, stuck: set<nat>): Dev
    requires sid in d.streams
  {
    var (c, h) := PutTypeFrom(d.streams[sid].cache, d.host, q, stuck, 0);
    d.WithCache(sid, c, h).(bufs := Uncover(d.bufs, sid, q))
  }

  /** msm_vidc_stop_streaming up to the wait for all buffers. */
  function StopStreaming(d: Dev, sid: nat, q: QueueType, offOk: bool, stuck: set<nat>): Dev
    requires sid in d.streams
  {
    var data := q == Input || q == Output;
    if d.State(sid) == SS.Error then
      Release(if data then Release(d, sid, Meta(q)) else d, sid, q)
    else if !data then d
    else
      var d1 := if offOk then d else d.SetState(sid, SS.Error);
      var d2 := PutType(PutType(d1, sid, q, stuck), sid, Meta(q), stuck);
      if offOk then d2 else Release(Release(d2, sid, Meta(q)), sid, q)
  }

  datatype Action =
    | Open(sid: nat)
    | NewBuf(b: nat, sid: nat, qt: QueueType, planes: seq<Plane>)
    | Queue(b: nat, ws: seq<World>, submitOk: bool, stuck: set<nat>)
    | Completion(sid: nat, rid: nat, failed: bool, eos: bool, erased: seq<nat>, stuck: set<nat>)
    | ErrorOn(sid: nat)
    | CommandFailed(sid: nat)
    | Stop(sid: nat, q: QueueType, offOk: bool, stuck: set<nat>)
    | Dequeue(b: nat)
    | Close(sid: nat, stuck: set<nat>)

  ghost predicate Enabled(d: Dev, a: Action) {
    match a
    case Open(sid) => sid !in d.streams && forall b :: b in d.bufs ==> d.bufs[b].sid != sid
    case NewBuf(b, sid, _, planes) => b !in d.bufs && b !in d.pending && sid in d.streams && planes != []
    case Queue(b, ws, _, _) =>
      && b in d.bufs && d.bufs[b].vb == Dequeued && d.bufs[b].sid in d.streams && 0 < |d.bufs[b].planes| == |ws|
      && GetIdsAllowed(d.streams[d.bufs[b].sid].cache, d.host, d.bufs[b].planes, d.bufs[b].qt, ws)
    case Completion(sid, _, _, _, _, _) => sid in d.streams
    case ErrorOn(sid) => sid in d.streams
    case CommandFailed(sid) => sid in d.streams
    case Stop(sid, _, _, _) => sid in d.streams
    case Dequeue(b) => b in d.bufs && (d.bufs[b].vb == Done || d.bufs[b].vb == Error)
    case Close(sid, _) => sid in d.streams && forall b :: b in d.bufs && d.bufs[b].sid == sid ==> d.bufs[b].vb != Active
  }

  ghost function Apply(d: Dev, a: Action): Dev
    requires Enabled(d, a)
  {
    match a
    case Open(sid) => d.(streams := d.streams[sid := Strm(SS.Idle, Cache([], 0))])
    case NewBuf(b, sid, qt, planes) => d.WithBuf(b, Buf(sid, qt, planes, Dequeued, 0, false, false))
    case Queue(b, ws, submitOk, stuck) => QueueBuf(d, b, ws, submitOk, stuck)
    case Completion(sid, rid, failed, eos, erased, stuck) => Complete(d, sid, rid, failed, eos, erased, stuck)
    case ErrorOn(sid) => ErrorEvent(d, sid)
    case CommandFailed(sid) => d.SetState(sid, SS.Error)
    case Stop(sid, q, offOk, stuck) => StopStreaming(d, sid, q, offOk, stuck)
    case Dequeue(b) => d.WithBuf(b, d.bufs[b].(vb := Dequeued))
    case Close(sid, stuck) =>
      d.(streams := d.streams - {sid}, host := DestroyAll(d.streams[sid].cache, d.host, stuck),
         bufs := map b | b in d.bufs && d.bufs[b].sid != sid :: d.bufs[b])
  }

  ghost predicate DeviceReaches(d: Dev, run: seq<Action>, e: Dev)
    decreases |run|
  {
    if run == [] then d == e else Enabled(d, run[0]) && DeviceReaches(Apply(d, run[0]), run[1..], e)
  }

  function Start(h: Host): Dev {
    Dev(map[], h, map[], [], multiset{}, multiset{}, false)
  }

  // ---- every run: ACTIVE buffers are on the pending list ----

  /** The driver owns exactly the ACTIVE buffers, and can find them. */
  ghost predicate OwnedArePending(d: Dev) {
    && (forall b :: b in d.bufs && d.bufs[b].vb == Active ==> b in d.pending)
    && (forall b :: d.taken[b] == d.given[b] + (if b in d.bufs && d.bufs[b].vb == Active then 1 else 0))
  }

  lemma RemoveAtKeepsOthers<T>(s: seq<T>, i: nat, x: T)
    requires i < |s| && x in s && x != s[i]
    ensures x in RemoveAt(s, i)
  {
    var j :| 0 <= j < |s| && s[j] == x;
    assert RemoveAt(s, i)[if j < i then j else j - 1] == x;
  }

  /** Taking one entry off the list and returning its buffer. */
  lemma ReturnOne(d: Dev, i: nat, st: VbState)
    requires i < |d.pending| && OwnedArePending(d) && st != Active
    ensures OwnedArePending(VbDone(d.(pending := RemoveAt(d.pending, i)), d.pending[i], st))
  {
    var e := VbDone(d.(pending := RemoveAt(d.pending, i)), d.pending[i], st);
    forall b | b in e.bufs && e.bufs[b].vb == Active
      ensures b in e.pending
    {
      RemoveAtKeepsOthers(d.pending, i, b);
    }
  }

  /** What a release does to the rest of the device. */
  ghost predicate ReleaseEffect(d: Dev, e: Dev, sid: nat, qt: QueueType) {
    && e.streams == d.streams && e.host == d.host && e.bufs.Keys == d.bufs.Keys
    && (forall b :: b in e.pending ==> b in d.pending)
    && (forall b :: b in d.bufs ==> e.bufs[b] == d.bufs[b] || (Owned(d, b, sid, qt) && e.bufs[b] == d.bufs[b].(vb := Error)))
    && (forall b :: b in d.pending && !Owned(d, b, sid, qt) ==> b in e.pending)
  }

  lemma ReleaseOneEffect(d: Dev, sid: nat, qt: QueueType, i: nat)
    requires i < |d.pending| && Owned(d, d.pending[i], sid, qt)
    ensures ReleaseEffect(d, VbDone(d.(pending := RemoveAt(d.pending, i)), d.pending[i], Error), sid, qt)
  {
    forall x | x in d.pending && !Owned(d, x, sid, qt)
      ensures x in RemoveAt(d.pending, i)
    {
      RemoveAtKeepsOthers(d.pending, i, x);
    }
  }

  lemma ReleaseEffectTransitive(d: Dev, e: Dev, f: Dev, sid: nat, qt: QueueType)
    requires ReleaseEffect(d, e, sid, qt) && ReleaseEffect(e, f, sid, qt)
    ensures ReleaseEffect(d, f, sid, qt)
  {
    assert forall b :: Owned(d, b, sid, qt) <==> Owned(e, b, sid, qt);
  }

  lemma {:induction false} ReleaseFromEffect(d: Dev, sid: nat, qt: QueueType, i: nat)
    requires i <= |d.pending|
    ensures ReleaseEffect(d, ReleaseFrom(d, sid, qt, i), sid, qt)
    decreases |d.pending| - i
  {
    if i < |d.pending| {
      var b := d.pending[i];
      if Owned(d, b, sid, qt) && TestsActive(d.bufs[b].vb) {
        var d1 := VbDone(d.(pending := RemoveAt(d.pending, i)), b, Error);
        ReleaseOneEffect(d, sid, qt, i);
        ReleaseFromEffect(d1, sid, qt, i);
        ReleaseEffectTransitive(d, d1, ReleaseFrom(d, sid, qt, i), sid, qt);
      } else {
        ReleaseFromEffect(d, sid, qt, i + 1);
      }
    }
  }

  ghost predicate Stays(d: Dev, b: nat, sid: nat, qt: QueueType) {
    !(Owned(d, b, sid, qt) && TestsActive(d.bufs[b].vb))
  }

  ghost predicate AllStay(d: Dev, n: nat, sid: nat, qt: QueueType)
    requires n <= |d.pending|
  {
    forall k :: 0 <= k < n ==> Stays(d, d.pending[k], sid, qt)
  }

  /** The loop leaves only entries it does not match. An entry of a buffer it has returned
      cannot have been passed over: it would have matched then. */
  lemma {:induction false} ReleaseFromLeaves(d: Dev, sid: nat, qt: QueueType, i: nat)
    requires i <= |d.pending| && AllStay(d, i, sid, qt)
    ensures AllStay(ReleaseFrom(d, sid, qt, i), |ReleaseFrom(d, sid, qt, i).pending|, sid, qt)
    decreases |d.pending| - i
  {
    if i < |d.pending| {
      var b := d.pending[i];
      if Owned(d, b, sid, qt) && TestsActive(d.bufs[b].vb) {
        var d1 := VbDone(d.(pending := RemoveAt(d.pending, i)), b, Error);
        forall k | 0 <= k < i
          ensures Stays(d1, d1.pending[k], sid, qt)
        {
          assert Stays(d, d.pending[k], sid, qt) && d.pending[k] != b;
        }
        ReleaseFromLeaves(d1, sid, qt, i);
      } else {
        ReleaseFromLeaves(d, sid, qt, i + 1);
      }
    }
  }

  lemma {:induction false} ReleaseFromOwned(d: Dev, sid: nat, qt: QueueType, i: nat)
    requires i <= |d.pending| && OwnedArePending(d)
    ensures OwnedArePending(ReleaseFrom(d, sid, qt, i))
    decreases |d.pending| - i
  {
    if i < |d.pending| {
      var b := d.pending[i];
      if Owned(d, b, sid, qt) && TestsActive(d.bufs[b].vb) {
        ReturnOne(d, i, Error);
        ReleaseFromOwned(VbDone(d.(pending := RemoveAt(d.pending, i)), b, Error), sid, qt, i);
      } else {
        ReleaseFromOwned(d, sid, qt, i + 1);
      }
    }
  }

  /** A released queue has no ACTIVE buffer left anywhere. */
  lemma ReleaseEmptiesQueue(d: Dev, sid: nat, qt: QueueType)
    requires OwnedArePending(d)
    ensures var e := Release(d, sid, qt);
            && OwnedArePending(e) && ReleaseEffect(d, e, sid, qt)
            && (forall b :: Owned(e, b, sid, qt) ==> e.bufs[b].vb != Active)
  {
    ReleaseFromEffect(d, sid, qt, 0);
    ReleaseFromLeaves(d, sid, qt, 0);
    ReleaseFromOwned(d, sid, qt, 0);
    var e := Release(d, sid, qt);
    forall b | Owned(e, b, sid, qt)
      ensures e.bufs[b].vb != Active
    {
      assert b in e.pending ==> Stays(e, b, sid, qt);
    }
  }
}

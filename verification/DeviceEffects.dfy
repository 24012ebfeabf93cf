/** What queueing, completion, events and streamoff do to the device: which buffers, entries,
    states, cached ids and exports change, and to what. */
module DeviceEffects {
  import opened Sequences
  import opened ExportCache
  import opened BufferOwnership
  import opened OwnershipProofs
  import opened CacheSteps
  import opened CacheEffects
  import opened PlaneLoops
  import opened QueuedOnce
  import SS = StreamState

  // ---- buf_queue ----

  /** The dma-buf of the first plane is what the id stands for, and its entry is in use. */
  ghost predicate StandsForFirstPlane(c: Cache, h: Host, x: Buf, rid: nat) {
    && x.planes != [] && x.planes[0].dmabuf.Some?
    && rid in h.table && h.table[rid] == Export(x.planes[0].dmabuf.value, x.planes[0].size)
    && Entry(x.planes[0].dmabuf.value, x.planes[0].size, x.qt, rid, true) in c.entries
  }

  lemma FirstIdStands(c: Cache, h: Host, x: Buf, ws: seq<World>)
    requires 0 < |x.planes| == |ws| && Agree(c, h) && GetIdsAllowed(c, h, x.planes, x.qt, ws)
    ensures var (c1, h1, ids, ok) := GetIds(c, h, x.planes, x.qt, ws);
            ids != [] ==> StandsForFirstPlane(c1, h1, x, ids[0])
  {
    hide GetId, CacheStep, Agree;
    var p := x.planes[0];
    var (c1, h1, id) := GetId(c, h, p.dmabuf, p.size, x.qt, ws[0]);
    GetIdTransparent(c, h, p.dmabuf, p.size, x.qt, ws[0]);
    if id != 0 {
      var rest := GetIds(c1, h1, x.planes[1..], x.qt, ws[1..]);
      GetIdsStep(c1, h1, x.planes[1..], x.qt, ws[1..]);
      EntrySurvives(c1, h1, rest.0, rest.1, Entry(p.dmabuf.value, p.size, x.qt, id, true));
    }
  }

  lemma EntrySurvives(c: Cache, h: Host, c1: Cache, h1: Host, e: Entry)
    requires Agree(c, h) && CacheStep(c, h, c1, h1, {}) && e in c.entries && e.inUse
    ensures e in c1.entries && e.id in h1.table && h1.table[e.id] == Export(e.inode, e.size)
  {
  }

  /** The planes of the buffer that a Queue action hands over all get an id. */
  ghost predicate AllPlanesExported(d: Dev, a: Action)
    requires a.Queue? && Enabled(d, a)
  {
    var x := d.bufs[a.b];
    EveryPlaneGetsId(CacheOf(d, x.sid), d.host, x.planes, x.qt, a.ws)
  }

  /** The buffer is the driver's: ACTIVE, last on the list, under its first plane's id. */
  ghost predicate Accepts(d: Dev, e: Dev, b: nat)
    requires b in d.bufs
  {
    var x := d.bufs[b];
    && b in e.bufs && e.bufs[b] == x.(vb := Active, queued := true, covered := true, rid := e.bufs[b].rid)
    && x.sid in e.streams && StandsForFirstPlane(CacheOf(e, x.sid), e.host, x, e.bufs[b].rid)
    && e.pending == d.pending + [b] && e.given == d.given
  }

  /** The buffer is back in vb2's hands in ERROR, and none of the ids obtained for it is still
      cached or exported, unless the host has refused to give it up. */
  ghost predicate GivesBack(d: Dev, e: Dev, a: Action)
    requires a.Queue? && Enabled(d, a)
  {
    var x := d.bufs[a.b];
    && a.b in e.bufs && e.bufs[a.b].vb == Error && e.given == d.given + multiset{a.b}
    && e.bufs[a.b].sid == x.sid && e.bufs[a.b].qt == x.qt && e.bufs[a.b].planes == x.planes
    && x.sid in e.streams
    && forall k :: 0 <= k < |x.planes| && Obtains(d, a, k) ==>
         var id := PlaneId(CacheOf(d, x.sid), d.host, x.planes, x.qt, a.ws, k);
         id in a.stuck || (id !in CacheOf(e, x.sid).Ids() && id !in e.host.table)
  }

  /** The k-th plane is reached and gets an id. */
  ghost predicate Obtains(d: Dev, a: Action, k: nat)
    requires a.Queue? && Enabled(d, a) && k < |d.bufs[a.b].planes|
  {
    var x := d.bufs[a.b];
    && d.State(x.sid) != SS.Error
    && forall j :: 0 <= j <= k ==> PlaneId(CacheOf(d, x.sid), d.host, x.planes, x.qt, a.ws, j) != 0
  }

  /** Everything but buffer b, the list's end, b's stream and the host stays. */
  ghost predicate OnlyQueues(d: Dev, e: Dev, b: nat)
    requires b in d.bufs
  {
    && b in e.bufs && e.bufs == d.bufs[b := e.bufs[b]] && e.taken == d.taken + multiset{b} && e.warned == d.warned
    && e.streams.Keys == d.streams.Keys
    && (forall s :: s in d.streams && s != d.bufs[b].sid ==> e.streams[s] == d.streams[s])
  }

  /** When a buffer is accepted, and what becomes of it either way. A submission that fails puts
      the stream in ERROR and leaves an entry on the list. */
  lemma QueueExact(d: Dev, a: Action)
    requires CachesSound(d) && a.Queue? && Enabled(d, a)
    ensures var e, sid := Apply(d, a), d.bufs[a.b].sid;
            && OnlyQueues(d, e, a.b)
            && (if d.State(sid) != SS.Error && AllPlanesExported(d, a) && a.submitOk
                then Accepts(d, e, a.b) && e.State(sid) == d.State(sid)
                else GivesBack(d, e, a))
            && (d.State(sid) == SS.Error ==> e.host == d.host && e.streams == d.streams && e.pending == d.pending)
            && (d.State(sid) != SS.Error && !AllPlanesExported(d, a) ==> e.State(sid) == d.State(sid) && e.pending == d.pending)
            && (d.State(sid) != SS.Error && AllPlanesExported(d, a) && !a.submitOk ==>
                  e.State(sid) == SS.Error && e.pending == d.pending + [a.b])
  {
    var x := d.bufs[a.b];
    if d.State(x.sid) == SS.Error {
      RefusedAtOnce(d, a);
    } else {
      PlanesDecide(d, a);
      if !AllPlanesExported(d, a) {
        PlaneWithoutId(d, a);
      } else if a.submitOk {
        Submitted(d, a);
      } else {
        SubmissionFailed(d, a);
      }
    }
  }

  ghost function PlaneLoop(d: Dev, a: Action): (Cache, Host, seq<nat>, bool)
    requires a.Queue? && Enabled(d, a)
  {
    GetIds(CacheOf(d, d.bufs[a.b].sid), d.host, d.bufs[a.b].planes, d.bufs[a.b].qt, a.ws)
  }

  lemma PlanesDecide(d: Dev, a: Action)
    requires a.Queue? && Enabled(d, a)
    ensures PlaneLoop(d, a).3 <==> AllPlanesExported(d, a)
    ensures forall k :: 0 <= k < |d.bufs[a.b].planes| && Obtains(d, a, k) ==>
              k < |PlaneLoop(d, a).2| && PlaneLoop(d, a).2[k] == PlaneId(CacheOf(d, d.bufs[a.b].sid), d.host, d.bufs[a.b].planes, d.bufs[a.b].qt, a.ws, k)
  {
    var x := d.bufs[a.b];
    GetIdsLoops(CacheOf(d, x.sid), d.host, x.planes, x.qt, a.ws);
    hide GetIds, GetIdsAllowed, PlaneId;
  }

  lemma RefusedAtOnce(d: Dev, a: Action)
    requires a.Queue? && Enabled(d, a) && d.State(d.bufs[a.b].sid) == SS.Error
    ensures var e := Apply(d, a);
            OnlyQueues(d, e, a.b) && GivesBack(d, e, a) && e.host == d.host && e.streams == d.streams && e.pending == d.pending
  {
    hide GetIds, GetIdsAllowed;
  }

  /** Taking everything back again. */
  lemma TakenBack(d: Dev, a: Action)
    requires CachesSound(d) && a.Queue? && Enabled(d, a)
    ensures var (c, h, ids, ok) := PlaneLoop(d, a);
            var (c1, h1) := PutIds(c, h, ids, a.stuck);
            forall k :: 0 <= k < |ids| ==> ids[k] in a.stuck || (ids[k] !in c1.Ids() && ids[k] !in h1.table)
  {
    var x := d.bufs[a.b];
    var (c, h, ids, ok) := PlaneLoop(d, a);
    GetIdsStep(CacheOf(d, x.sid), d.host, x.planes, x.qt, a.ws);
    hide GetIds, GetIdsAllowed, PutIds;
    PutIdsExact(c, h, ids, a.stuck);
    var c1 := PutIds(c, h, ids, a.stuck).0;
    forall k | 0 <= k < |ids| && ids[k] !in a.stuck
      ensures ids[k] !in c1.Ids()
    {
      assert forall i :: 0 <= i < |c1.entries| ==> c1.entries[i] in c1.entries;
    }
  }

  lemma PlaneWithoutId(d: Dev, a: Action)
    requires CachesSound(d) && a.Queue? && Enabled(d, a) && d.State(d.bufs[a.b].sid) != SS.Error && !PlaneLoop(d, a).3
    ensures var e := Apply(d, a);
            OnlyQueues(d, e, a.b) && GivesBack(d, e, a) && e.State(d.bufs[a.b].sid) == d.State(d.bufs[a.b].sid) && e.pending == d.pending
  {
    hide CachesSound, AllPlanesExported, GetIds, GetIdsAllowed, PutIds;
    PlanesDecide(d, a);
    TakenBack(d, a);
    var (c, h, ids, ok) := PlaneLoop(d, a);
    var (c1, h1) := PutIds(c, h, ids, a.stuck);
    assert Apply(d, a) == VbDone(HandOver(d, a.b).WithCache(d.bufs[a.b].sid, c1, h1), a.b, Error);
    hide Obtains, PlaneId;
  }

  lemma Submitted(d: Dev, a: Action)
    requires CachesSound(d) && a.Queue? && Enabled(d, a) && d.State(d.bufs[a.b].sid) != SS.Error && PlaneLoop(d, a).3 && a.submitOk
    ensures var e := Apply(d, a);
            OnlyQueues(d, e, a.b) && Accepts(d, e, a.b) && e.State(d.bufs[a.b].sid) == d.State(d.bufs[a.b].sid)
  {
    var x := d.bufs[a.b];
    GetIdsLoops(CacheOf(d, x.sid), d.host, x.planes, x.qt, a.ws);
    FirstIdStands(CacheOf(d, x.sid), d.host, x, a.ws);
    hide CachesSound, GetIds, GetIdsAllowed, StandsForFirstPlane;
    var (c, h, ids, ok) := PlaneLoop(d, a);
    assert Apply(d, a) == PutOnList(HandOver(d, a.b), a.b, ids[0]).WithCache(x.sid, c, h);
  }

  lemma SubmissionFailed(d: Dev, a: Action)
    requires CachesSound(d) && a.Queue? && Enabled(d, a) && d.State(d.bufs[a.b].sid) != SS.Error && PlaneLoop(d, a).3 && !a.submitOk
    ensures var e := Apply(d, a);
            OnlyQueues(d, e, a.b) && GivesBack(d, e, a) && e.State(d.bufs[a.b].sid) == SS.Error && e.pending == d.pending + [a.b]
  {
    hide CachesSound, AllPlanesExported, GetIds, GetIdsAllowed, PutIds;
    PlanesDecide(d, a);
    TakenBack(d, a);
    var sid := d.bufs[a.b].sid;
    var (c, h, ids, ok) := PlaneLoop(d, a);
    var (c1, h1) := PutIds(c, h, ids, a.stuck);
    assert Apply(d, a) == VbDone(PutOnList(HandOver(d, a.b), a.b, if ids == [] then 0 else ids[0]).SetState(sid, SS.Error).WithCache(sid, c1, h1), a.b, Error);
    hide Obtains, PlaneId;
  }
}

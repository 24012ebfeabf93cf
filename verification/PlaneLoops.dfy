/** The loops over the planes of a buffer, told from left to right: which planes get an id, and
    what giving the ids back leaves. */
module PlaneLoops {
  import opened Sequences
  import opened ExportCache
  import opened BufferOwnership
  import opened CacheSteps
  import opened CacheEffects

  /** The cache and the host after the first k planes have been asked for. */
  function AfterPlanes(c: Cache, h: Host, planes: seq<Plane>, q: QueueType, ws: seq<World>, k: nat): (Cache, Host)
    requires k <= |planes| == |ws|
  {
    if k == 0 then (c, h)
    else
      var (c1, h1) := AfterPlanes(c, h, planes, q, ws, k - 1);
      var r := GetId(c1, h1, planes[k - 1].dmabuf, planes[k - 1].size, q, ws[k - 1]);
      (r.0, r.1)
  }

  /** What plane k is then given. */
  function PlaneId(c: Cache, h: Host, planes: seq<Plane>, q: QueueType, ws: seq<World>, k: nat): nat
    requires k < |planes| == |ws|
  {
    var (c1, h1) := AfterPlanes(c, h, planes, q, ws, k);
    GetId(c1, h1, planes[k].dmabuf, planes[k].size, q, ws[k]).2
  }

  ghost predicate EveryPlaneGetsId(c: Cache, h: Host, planes: seq<Plane>, q: QueueType, ws: seq<World>)
    requires |planes| == |ws|
  {
    forall k :: 0 <= k < |planes| ==> PlaneId(c, h, planes, q, ws, k) != 0
  }

  /** Asking for one plane more at the front. */
  lemma {:induction false} AfterFirst(c: Cache, h: Host, planes: seq<Plane>, q: QueueType, ws: seq<World>, k: nat)
    requires k < |planes| == |ws|
    ensures var r := GetId(c, h, planes[0].dmabuf, planes[0].size, q, ws[0]);
            AfterPlanes(c, h, planes, q, ws, k + 1) == AfterPlanes(r.0, r.1, planes[1..], q, ws[1..], k)
  {
    hide GetId;
    if k > 0 {
      AfterFirst(c, h, planes, q, ws, k - 1);
      assert planes[1..][k - 1] == planes[k] && ws[1..][k - 1] == ws[k];
    }
  }

  /** The loop hands out the planes' ids in order and stops at the first plane without one. */
  ghost predicate Loops(c: Cache, h: Host, planes: seq<Plane>, q: QueueType, ws: seq<World>, r: (Cache, Host, seq<nat>, bool))
    requires |planes| == |ws|
  {
    && |r.2| <= |planes| && (r.3 <==> |r.2| == |planes|)
    && (forall k :: 0 <= k < |r.2| ==> r.2[k] == PlaneId(c, h, planes, q, ws, k) != 0)
    && (|r.2| < |planes| ==> PlaneId(c, h, planes, q, ws, |r.2|) == 0)
    && (r.0, r.1) == AfterPlanes(c, h, planes, q, ws, if r.3 then |planes| else |r.2| + 1)
  }

  lemma {:induction false} GetIdsLoops(c: Cache, h: Host, planes: seq<Plane>, q: QueueType, ws: seq<World>)
    requires |planes| == |ws|
    ensures Loops(c, h, planes, q, ws, GetIds(c, h, planes, q, ws))
    decreases |planes|
  {
    hide GetId, Loops;
    if planes == [] {
      NoPlanes(c, h, q);
    } else {
      var r := GetId(c, h, planes[0].dmabuf, planes[0].size, q, ws[0]);
      if r.2 == 0 {
        FirstPlaneFails(c, h, planes, q, ws);
      } else {
        GetIdsLoops(r.0, r.1, planes[1..], q, ws[1..]);
        OnePlaneMore(c, h, planes, q, ws, GetIds(r.0, r.1, planes[1..], q, ws[1..]));
      }
    }
  }

  lemma NoPlanes(c: Cache, h: Host, q: QueueType)
    ensures Loops(c, h, [], q, [], (c, h, [], true))
  {
  }

  lemma FirstPlaneFails(c: Cache, h: Host, planes: seq<Plane>, q: QueueType, ws: seq<World>)
    requires |planes| == |ws| && planes != []
    requires GetId(c, h, planes[0].dmabuf, planes[0].size, q, ws[0]).2 == 0
    ensures var r := GetId(c, h, planes[0].dmabuf, planes[0].size, q, ws[0]); Loops(c, h, planes, q, ws, (r.0, r.1, [], false))
  {
    hide GetId;
    var r := GetId(c, h, planes[0].dmabuf, planes[0].size, q, ws[0]);
    assert AfterPlanes(c, h, planes, q, ws, 0) == (c, h);
    assert AfterPlanes(c, h, planes, q, ws, 1) == (r.0, r.1);
  }

  lemma OnePlaneMore(c: Cache, h: Host, planes: seq<Plane>, q: QueueType, ws: seq<World>, rest: (Cache, Host, seq<nat>, bool))
    requires |planes| == |ws| && planes != []
    requires var r := GetId(c, h, planes[0].dmabuf, planes[0].size, q, ws[0]);
             r.2 != 0 && Loops(r.0, r.1, planes[1..], q, ws[1..], rest)
    ensures var r := GetId(c, h, planes[0].dmabuf, planes[0].size, q, ws[0]);
            Loops(c, h, planes, q, ws, (rest.0, rest.1, [r.2] + rest.2, rest.3))
  {
    hide GetId;
    var r := GetId(c, h, planes[0].dmabuf, planes[0].size, q, ws[0]);
    forall k | 0 <= k < |planes| - 1
      ensures PlaneId(c, h, planes, q, ws, k + 1) == PlaneId(r.0, r.1, planes[1..], q, ws[1..], k)
    {
      AfterFirst(c, h, planes, q, ws, k);
    }
    assert PlaneId(c, h, planes, q, ws, 0) == r.2;
    var ids := [r.2] + rest.2;
    forall k | 0 <= k < |ids|
      ensures ids[k] == PlaneId(c, h, planes, q, ws, k) != 0
    {
      if k > 0 { assert ids[k] == rest.2[k - 1] == PlaneId(r.0, r.1, planes[1..], q, ws[1..], k - 1); }
    }
    if |ids| < |planes| {
      assert PlaneId(c, h, planes, q, ws, |rest.2| + 1) == PlaneId(r.0, r.1, planes[1..], q, ws[1..], |rest.2|);
    }
    AfterFirst(c, h, planes, q, ws, if rest.3 then |planes| - 1 else |rest.2| + 1);
    hide PlaneId, AfterPlanes;
  }

  /** Giving ids back: each is afterwards neither cached nor exported unless the host refuses,
      and all other entries and exports are as they were. */
  lemma {:induction false} PutIdsExact(c: Cache, h: Host, ids: seq<nat>, stuck: set<nat>)
    requires Agree(c, h)
    ensures var (d, h1) := PutIds(c, h, ids, stuck);
            && Agree(d, h1) && h1.issued == h.issued
            && (forall e :: e in d.entries <==> e in c.entries && (e.id in ids ==> e.id in stuck))
            && (forall id :: id in h1.table <==> id in h.table && (id in ids ==> id in stuck))
            && (forall id :: id in h1.table ==> h1.table[id] == h.table[id])
    decreases |ids|
  {
    hide Agree, PutId;
    if ids != [] {
      var (c1, h1) := PutId(c, h, ids[0], true, stuck);
      AgreeIsBacked(c, h);
      PutAwayExact(c, h, ids[0], stuck);
      PutIdKeeps(c, h, ids[0], true, stuck);
      PutIdsExact(c1, h1, ids[1..], stuck);
      assert forall id :: id in ids <==> id == ids[0] || id in ids[1..];
    }
  }

  lemma AgreeIsBacked(c: Cache, h: Host)
    requires Agree(c, h)
    ensures forall e :: e in c.entries ==> e.id in h.table
  {
  }
}

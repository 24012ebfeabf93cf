/** What each use a stream makes of its export cache can do to the ids that queued buffers and
    other streams rely on: one relation for all uses, closed under sequencing. */
module CacheSteps {
  import opened Sequences
  import opened ExportCache
  import opened BufferOwnership

  /** From (c, h) to (c1, h1), entries in use survive unless their id is in `dropped`, ids that
      appear are new to the host, and ids unexported were in this cache. */
  ghost predicate CacheStep(c: Cache, h: Host, c1: Cache, h1: Host, dropped: set<nat>) {
    && Agree(c1, h1)
    && (forall id :: id in h.issued ==> id in h1.issued && h1.issued[id] == h.issued[id])
    && (forall e :: e in c.entries && e.inUse && e.id !in dropped ==> e in c1.entries)
    && (forall id :: id in c1.Ids() ==> id in c.Ids() || id !in h.issued)
    && (forall id :: id in h.table && id !in h1.table ==> id in c.Ids())
  }

  lemma EntryId(c: Cache, e: Entry)
    requires e in c.entries
    ensures e.id in c.Ids()
  {
  }

  lemma SameEntryById(c: Cache, e: Entry, f: Entry)
    requires Structure(c) && e in c.entries && f in c.entries && e.id == f.id
    ensures e == f
  {
  }

  // ---- acquiring ids ----

  lemma HitStep(c: Cache, h: Host, i: nat)
    requires Agree(c, h) && i < |c.entries|
    ensures CacheStep(c, h, c.(entries := SetInUse(c.entries, i, true)), h, {})
  {
    var c1 := c.(entries := SetInUse(c.entries, i, true));
    HitKeeps(c, h, i);
    SameIds(c, c1);
    hide Agree, Cache.Ids;
    forall e | e in c.entries && e.inUse
      ensures e in c1.entries
    {
      var j :| 0 <= j < |c.entries| && c.entries[j] == e;
      assert c1.entries[j] == e;
    }
  }

  lemma MissStep(c: Cache, h: Host, e: Entry)
    requires Agree(c, h) && e.id != 0 && e.id !in h.issued && c.used < MAX_NUM_EXPORT_CACHE_ENTRY
    requires forall i :: 0 <= i < |c.entries| ==> !c.entries[i].Is(e.inode, e.size, e.queueType)
    ensures var x := Export(e.inode, e.size);
            CacheStep(c, h, Cache(c.entries + [e], c.used + 1), Host(h.table[e.id := x], h.issued[e.id := x]), {})
  {
    MissKeeps(c, h, e);
    AppendedIds(c, e);
    hide Agree, Cache.Ids;
  }

  lemma RefusedStep(c: Cache, h: Host, x: Export, id: nat, stuck: set<nat>)
    requires Agree(c, h) && id != 0 && id !in h.issued
    ensures CacheStep(c, h, c, Unexport(Host(h.table[id := x], h.issued[id := x]), id, stuck).0, {})
  {
    assert HostInv(h);
    hide Agree, Cache.Ids;
  }

  lemma GetIdStep(c: Cache, h: Host, dmabuf: Option<nat>, size: nat, q: QueueType, w: World)
    requires Agree(c, h) && Allowed(h, dmabuf, w)
    ensures var (c1, h1, id) := GetId(c, h, dmabuf, size, q, w);
            CacheStep(c, h, c1, h1, {})
  {
    var x := Export(dmabuf.GetOr(0), size);
    TryExportSound(h, x, w.attempts);
    assert CacheStep(c, h, c, h, {});
    hide TryExport, Agree, Unexport, SetInUse, CacheStep;
    var id := TryExport(h, x, w.attempts).1;
    var i := if dmabuf.Some? then FindKey(c.entries, dmabuf.value, size, q) else |c.entries|;
    if i < |c.entries| {
      HitStep(c, h, i);
    } else if id != 0 {
      RefusedStep(c, h, x, id, w.stuck);
      if dmabuf.Some? && c.used < MAX_NUM_EXPORT_CACHE_ENTRY {
        MissStep(c, h, Entry(dmabuf.value, size, q, id, true));
      }
    }
  }

  /** Some plane lies in the dma-buf. */
  predicate InPlanes(planes: seq<Plane>, inode: nat) {
    exists k :: 0 <= k < |planes| && planes[k].dmabuf == Some(inode)
  }

  /** Every id stands for the dma-buf of one of the planes. */
  ghost predicate IdsFor(h: Host, ids: seq<nat>, planes: seq<Plane>) {
    forall k :: 0 <= k < |ids| ==> ids[k] in h.issued && InPlanes(planes, h.issued[ids[k]].inode)
  }

  lemma NothingStep(c: Cache, h: Host)
    requires Agree(c, h)
    ensures CacheStep(c, h, c, h, {})
  {
  }

  lemma NoIds(planes: seq<Plane>)
    ensures forall h :: IdsFor(h, [], planes)
  {
  }

  /** The plane loop: each id obtained stands for a plane's dma-buf, and when all planes got
      one, the first has an entry in use for the first plane. */
  lemma {:induction false} GetIdsStep(c: Cache, h: Host, planes: seq<Plane>, q: QueueType, ws: seq<World>)
    requires |planes| == |ws| && Agree(c, h) && GetIdsAllowed(c, h, planes, q, ws)
    ensures var (c1, h1, ids, ok) := GetIds(c, h, planes, q, ws);
            && CacheStep(c, h, c1, h1, {}) && IdsFor(h1, ids, planes) && |ids| <= |planes|
            && (forall k :: 0 <= k < |ids| ==> HasInUse(c1, ids[k], q))
            && (ok ==> |ids| == |planes|)
            && (ids != [] ==> planes[0].dmabuf == Some(h1.issued[ids[0]].inode))
    decreases |planes|
  {
    hide GetId, Agree, CacheStep, HasInUse, IdsFor;
    NothingStep(c, h);
    NoIds(planes);
    if planes != [] {
      var (c1, h1, id) := GetId(c, h, planes[0].dmabuf, planes[0].size, q, ws[0]);
      GetIdStep(c, h, planes[0].dmabuf, planes[0].size, q, ws[0]);
      GetIdTransparent(c, h, planes[0].dmabuf, planes[0].size, q, ws[0]);
      if id != 0 {
        var rest := planes[1..];
        GetIdsStep(c1, h1, rest, q, ws[1..]);
        var (c2, h2, ids, ok) := GetIds(c1, h1, rest, q, ws[1..]);
        IdsJoin(c, h, c1, h1, c2, h2, planes, q, id, ids);
      }
    }
  }

  lemma IdsJoin(c: Cache, h: Host, c1: Cache, h1: Host, c2: Cache, h2: Host, planes: seq<Plane>, q: QueueType, id: nat, ids: seq<nat>)
    requires planes != [] && Agree(c, h) && CacheStep(c, h, c1, h1, {}) && CacheStep(c1, h1, c2, h2, {})
    requires planes[0].dmabuf.Some? && id in h1.table && h1.table[id] == Export(planes[0].dmabuf.value, planes[0].size)
    requires Entry(planes[0].dmabuf.value, planes[0].size, q, id, true) in c1.entries
    requires IdsFor(h2, ids, planes[1..]) && forall k :: 0 <= k < |ids| ==> HasInUse(c2, ids[k], q)
    ensures CacheStep(c, h, c2, h2, {}) && IdsFor(h2, [id] + ids, planes)
    ensures forall k :: 0 <= k < |ids| + 1 ==> HasInUse(c2, ([id] + ids)[k], q)
    ensures id in h2.issued && planes[0].dmabuf == Some(h2.issued[id].inode)
  {
    StepsJoin(c, h, c1, h1, c2, h2);
    assert HasInUse(c2, id, q) by {
      assert Entry(planes[0].dmabuf.value, planes[0].size, q, id, true) in c2.entries;
    }
    IdsForCons(h2, id, ids, planes);
  }

  lemma StepsJoin(c: Cache, h: Host, c1: Cache, h1: Host, c2: Cache, h2: Host)
    requires HostInv(h) && CacheStep(c, h, c1, h1, {}) && CacheStep(c1, h1, c2, h2, {})
    ensures CacheStep(c, h, c2, h2, {})
  {
    hide Agree, Cache.Ids;
  }

  lemma IdsForCons(h: Host, id: nat, ids: seq<nat>, planes: seq<Plane>)
    requires planes != [] && id in h.issued && planes[0].dmabuf == Some(h.issued[id].inode) && IdsFor(h, ids, planes[1..])
    ensures IdsFor(h, [id] + ids, planes)
  {
    forall k | 0 <= k < 1 + |ids|
      ensures ([id] + ids)[k] in h.issued && InPlanes(planes, h.issued[([id] + ids)[k]].inode)
    {
      if k == 0 {
        assert planes[0].dmabuf == Some(h.issued[id].inode);
      } else {
        var x := h.issued[ids[k - 1]].inode;
        assert InPlanes(planes[1..], x);
        var j :| 0 <= j < |planes[1..]| && planes[1..][j].dmabuf == Some(x);
        assert planes[j + 1].dmabuf == Some(x);
      }
    }
  }

  /** The id is cached and marked in use, for that queue type. */
  ghost predicate HasInUse(c: Cache, id: nat, q: QueueType) {
    exists e :: e in c.entries && e.id == id && e.inUse && e.queueType == q
  }

  // ---- giving ids back ----

  lemma PutIdStep(c: Cache, h: Host, id: nat, cleanup: bool, stuck: set<nat>)
    requires Agree(c, h) && (cleanup && id in h.table ==> id in c.Ids())
    ensures var (c1, h1) := PutId(c, h, id, cleanup, stuck);
            && CacheStep(c, h, c1, h1, {id})
            && (forall x :: x in c.Ids() && x != id ==> x in c1.Ids())
            && (forall x :: x in h1.table ==> x in h.table)
  {
    PutIdKeeps(c, h, id, cleanup, stuck);
    var (c1, h1) := PutId(c, h, id, cleanup, stuck);
    var i := FindId(c.entries, id);
    if i < |c.entries| {
      if c1 == Drop(c, i) {
        DropStep(c, i);
      } else if c1.entries == SetInUse(c.entries, i, false) {
        assert forall j :: 0 <= j < |c.entries| ==> c1.entries[j].id == c.entries[j].id;
        SameIds(c, c1);
        assert forall e :: e in c.entries && e.id != id ==> e in c1.entries by {
          forall e | e in c.entries && e.id != id
            ensures e in c1.entries
          {
            var j :| 0 <= j < |c.entries| && c.entries[j] == e;
            assert c1.entries[j] == e;
          }
        }
      }
    }
  }

  lemma DropStep(c: Cache, i: nat)
    requires i < |c.entries| && Structure(c)
    ensures forall e :: e in c.entries && e != c.entries[i] ==> e in Drop(c, i).entries
    ensures Drop(c, i).Ids() == c.Ids() - {c.entries[i].id}
  {
    var d := Drop(c, i);
    forall e | e in c.entries && e != c.entries[i]
      ensures e in d.entries
    {
      RemoveAtKeepsOthers(c.entries, i, e);
    }
    forall x | x in d.Ids()
      ensures x in c.Ids() && x != c.entries[i].id
    {
      var j :| 0 <= j < |d.entries| && d.entries[j].id == x;
      assert d.entries[j] == c.entries[if j < i then j else j + 1];
    }
    forall x | x in c.Ids() && x != c.entries[i].id
      ensures x in d.Ids()
    {
      var j :| 0 <= j < |c.entries| && c.entries[j].id == x;
      assert d.entries[if j < i then j else j - 1].id == x;
    }
  }

  /** Ids at the host are in the cache: what the unexport loop may be given. */
  ghost predicate Mine(c: Cache, h: Host, ids: seq<nat>) {
    forall k :: 0 <= k < |ids| && ids[k] in h.table ==> ids[k] in c.Ids()
  }

  lemma {:induction false} PutIdsStep(c: Cache, h: Host, ids: seq<nat>, stuck: set<nat>, dropped: set<nat>)
    requires Agree(c, h) && Mine(c, h, ids) && forall k :: 0 <= k < |ids| ==> ids[k] in dropped
    ensures var (c1, h1) := PutIds(c, h, ids, stuck);
            CacheStep(c, h, c1, h1, dropped)
    decreases |ids|
  {
    if ids != [] {
      var (c1, h1) := PutId(c, h, ids[0], true, stuck);
      PutIdStep(c, h, ids[0], true, stuck);
      assert Mine(c1, h1, ids[1..]) by {
        forall k | 0 <= k < |ids| - 1 && ids[1..][k] in h1.table
          ensures ids[1..][k] in c1.Ids()
        {
          assert ids[1..][k] == ids[k + 1] && ids[k + 1] in c.Ids();
        }
      }
      PutIdsStep(c1, h1, ids[1..], stuck, dropped);
      var (c2, h2) := PutIds(c1, h1, ids[1..], stuck);
    }
  }

  /** A clean-up on the host's request touches nothing in use. */
  lemma {:induction false} CleanupStep(c: Cache, h: Host, ids: seq<nat>, stuck: set<nat>)
    requires Agree(c, h)
    ensures var (c1, h1) := Cleanup(c, h, ids, stuck);
            CacheStep(c, h, c1, h1, {})
    decreases |ids|
  {
    if ids != [] {
      var (c1, h1) := if ids[0] == 0 then (c, h) else CleanupFrom(c, h, ids[0], stuck, 0);
      if ids[0] != 0 {
        CleanupFromKeeps(c, h, ids[0], stuck, 0, {});
        OnlyDropsIds(c, c1, IdleWithId(ids[0]));
      }
      assert CacheStep(c, h, c1, h1, {});
      CleanupStep(c1, h1, ids[1..], stuck);
      var (c2, h2) := Cleanup(c1, h1, ids[1..], stuck);
    }
  }

  /** The ids cached for one queue type. */
  ghost function IdsOfType(c: Cache, q: QueueType): set<nat> {
    set i | 0 <= i < |c.entries| && c.entries[i].queueType == q :: c.entries[i].id
  }

  lemma KeptIds(c: Cache, c1: Cache, q: QueueType)
    requires forall e :: e in c.entries && e.queueType != q ==> e in c1.entries
    ensures forall x :: x in c.Ids() && x !in IdsOfType(c, q) ==> x in c1.Ids()
  {
    forall x | x in c.Ids() && x !in IdsOfType(c, q)
      ensures x in c1.Ids()
    {
      var j :| 0 <= j < |c.entries| && c.entries[j].id == x;
      EntryId(c1, c.entries[j]);
    }
  }

  lemma PutTypeStep(c: Cache, h: Host, q: QueueType, stuck: set<nat>)
    requires Agree(c, h)
    ensures var (c1, h1) := PutTypeFrom(c, h, q, stuck, 0);
            && CacheStep(c, h, c1, h1, IdsOfType(c, q))
            && c1.Ids() == c.Ids() - IdsOfType(c, q)
  {
    PutTypeKeeps(c, h, q, stuck, 0, {});
    var (c1, h1) := PutTypeFrom(c, h, q, stuck, 0);
    OnlyDropsIds(c, c1, OfType(q));
    KeptIds(c, c1, q);
    forall x | x in c1.Ids()
      ensures x !in IdsOfType(c, q)
    {
      var j :| 0 <= j < |c1.entries| && c1.entries[j].id == x;
      forall k | 0 <= k < |c.entries| && c.entries[k].id == x
        ensures c.entries[k].queueType != q
      {
        SameEntryById(c, c.entries[k], c1.entries[j]);
      }
    }
  }
}

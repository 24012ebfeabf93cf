/** The export cache of driver/virtio_video_msm_mem.c: (inode, queue type, size) to the id the
    host gave for it, next to the host's own table of exports. */
module ExportCache {
  import opened Sequences

  const MAX_EXPORT_RETRY: nat := 5
  const MAX_NUM_EXPORT_CACHE_ENTRY: nat := 256

  datatype QueueType = Input | Output | InputMeta | OutputMeta

  datatype Entry = Entry(inode: nat, size: nat, queueType: QueueType, id: nat, inUse: bool) {
    predicate Is(i: nat, s: nat, q: QueueType) {
      inode == i && queueType == q && size == s
    }
  }

  datatype Export = Export(inode: nat, size: nat)

  /** The host side of habmm_export and habmm_unexport. `issued` remembers every id ever
      given out: the host hands out fresh nonzero ids. */
  datatype Host = Host(table: map<nat, Export>, issued: map<nat, Export>)

  datatype Cache = Cache(entries: seq<Entry>, used: int) {
    function Ids(): set<nat> {
      set i | 0 <= i < |entries| :: entries[i].id
    }
  }

  datatype Attempt = Exported(id: nat) | OutOfMemory | Failed

  /** What happens around one call: the results of the export attempts, whether the second
      dma_buf_get and the slab allocation work, and the ids the host refuses to unexport. */
  datatype World = World(attempts: seq<Attempt>, allocOk: bool, stuck: set<nat>)

  /** Five attempts are foreseen; one succeeds only for an open dma-buf, with a fresh id. */
  ghost predicate Allowed(h: Host, dmabuf: Option<nat>, w: World) {
    && |w.attempts| == MAX_EXPORT_RETRY
    && forall i :: 0 <= i < MAX_EXPORT_RETRY && w.attempts[i].Exported? ==>
         dmabuf.Some? && w.attempts[i].id != 0 && w.attempts[i].id !in h.issued
  }

  function FindKey(es: seq<Entry>, inode: nat, size: nat, q: QueueType): (i: nat)
    ensures i <= |es|
    ensures forall j :: 0 <= j < i ==> !es[j].Is(inode, size, q)
    ensures i < |es| ==> es[i].Is(inode, size, q)
  {
    if es == [] || es[0].Is(inode, size, q) then 0 else 1 + FindKey(es[1..], inode, size, q)
  }

  function FindId(es: seq<Entry>, id: nat): (i: nat)
    ensures i <= |es|
    ensures forall j :: 0 <= j < i ==> es[j].id != id
    ensures i < |es| ==> es[i].id == id
  {
    if es == [] || es[0].id == id then 0 else 1 + FindId(es[1..], id)
  }

  function SetInUse(es: seq<Entry>, i: nat, b: bool): seq<Entry>
    requires i < |es|
  {
    es[i := es[i].(inUse := b)]
  }

  function TryExport(h: Host, e: Export, attempts: seq<Attempt>): (Host, nat) {
    if attempts == [] then (h, 0)
    else match attempts[0]
      case Exported(id) => (Host(h.table[id := e], h.issued[id := e]), id)
      case OutOfMemory => (h, 0)
      case Failed => TryExport(h, e, attempts[1..])
  }

  function Unexport(h: Host, id: nat, stuck: set<nat>): (Host, bool) {
    if id in h.table && id !in stuck then (h.(table := h.table - {id}), true) else (h, false)
  }

  /** msm_buf_get_export_id */
  function GetId(c: Cache, h: Host, dmabuf: Option<nat>, size: nat, q: QueueType, w: World): (Cache, Host, nat) {
    if size == 0 then (c, h, 0)
    else
      var i := if dmabuf.Some? then FindKey(c.entries, dmabuf.value, size, q) else |c.entries|;
      if i < |c.entries| then (c.(entries := SetInUse(c.entries, i, true)), h, c.entries[i].id)
      else
        var (h1, id) := TryExport(h, Export(dmabuf.GetOr(0), size), w.attempts);
        if id == 0 then (c, h1, 0)
        else if c.used >= MAX_NUM_EXPORT_CACHE_ENTRY || dmabuf.None? || !w.allocOk then
          (c, Unexport(h1, id, w.stuck).0, 0)
        else
          (Cache(c.entries + [Entry(dmabuf.value, size, q, id, true)], c.used + 1), h1, id)
  }

  function Drop(c: Cache, i: nat): Cache
    requires i < |c.entries|
  {
    Cache(RemoveAt(c.entries, i), c.used - 1)
  }

  /** msm_buf_put_export_id */
  function PutId(c: Cache, h: Host, id: nat, cleanup: bool, stuck: set<nat>): (Cache, Host) {
    var (h1, ok) := if cleanup then Unexport(h, id, stuck) else (h, true);
    var i := FindId(c.entries, id);
    if !ok || i == |c.entries| then (c, h1)
    else if cleanup then (Drop(c, i), h1)
    else (c.(entries := SetInUse(c.entries, i, false)), h1)
  }

  /** The inner loop of msm_buf_cleanup_buffers from entry i on. */
  function CleanupFrom(c: Cache, h: Host, id: nat, stuck: set<nat>, i: nat): (Cache, Host)
    requires i <= |c.entries|
    decreases |c.entries| - i
  {
    if i == |c.entries| then (c, h)
    else if c.entries[i].id == id && !c.entries[i].inUse then
      var (h1, ok) := Unexport(h, id, stuck);
      if !ok then (c, h1) else CleanupFrom(Drop(c, i), h1, id, stuck, i)
    else CleanupFrom(c, h, id, stuck, i + 1)
  }

  /** msm_buf_cleanup_buffers: the ids the host asks to have cleaned up. */
  function Cleanup(c: Cache, h: Host, ids: seq<nat>, stuck: set<nat>): (Cache, Host)
    decreases |ids|
  {
    if ids == [] then (c, h)
    else
      var (c1, h1) := if ids[0] == 0 then (c, h) else CleanupFrom(c, h, ids[0], stuck, 0);
      Cleanup(c1, h1, ids[1..], stuck)
  }

  /** msm_buf_put_export_queue_type from entry i on: the result of the unexport is ignored. */
  function PutTypeFrom(c: Cache, h: Host, q: QueueType, stuck: set<nat>, i: nat): (Cache, Host)
    requires i <= |c.entries|
    decreases |c.entries| - i
  {
    if i == |c.entries| then (c, h)
    else if c.entries[i].queueType == q then
      PutTypeFrom(Drop(c, i), Unexport(h, c.entries[i].id, stuck).0, q, stuck, i)
    else PutTypeFrom(c, h, q, stuck, i + 1)
  }

  // ---- invariants ----

  ghost predicate HostInv(h: Host) {
    && 0 !in h.issued
    && (forall id :: id in h.table ==> id in h.issued && h.issued[id] == h.table[id])
  }

  /** The cache's own structure. */
  ghost predicate Structure(c: Cache) {
    && c.used == |c.entries| <= MAX_NUM_EXPORT_CACHE_ENTRY
    && (forall i, j :: 0 <= i < j < |c.entries| ==>
          c.entries[i].id != c.entries[j].id &&
          !c.entries[i].Is(c.entries[j].inode, c.entries[j].size, c.entries[j].queueType))
  }

  /** Every cached id was issued for the inode and size it is cached for, and still denotes
      them at the host, except for ids in `doomed`, whose entry is about to be dropped. */
  ghost predicate Backed(c: Cache, h: Host, doomed: set<nat>) {
    && (forall e :: e in c.entries ==> e.id in h.issued && h.issued[e.id] == Export(e.inode, e.size))
    && (forall e :: e in c.entries && e.id !in doomed ==> e.id in h.table)
  }

  ghost predicate AgreeBut(c: Cache, h: Host, doomed: set<nat>) {
    HostInv(h) && Structure(c) && Backed(c, h, doomed)
  }

  /** The invariant at call boundaries. */
  ghost predicate Agree(c: Cache, h: Host) {
    AgreeBut(c, h, {})
  }

  /** Ids exported at the host that no entry remembers. */
  function Leaked(c: Cache, h: Host): set<nat> {
    h.table.Keys - c.Ids()
  }

  lemma {:induction false} TryExportSound(h: Host, e: Export, attempts: seq<Attempt>)
    requires HostInv(h)
    requires forall i :: 0 <= i < |attempts| && attempts[i].Exported? ==> attempts[i].id != 0 && attempts[i].id !in h.issued
    ensures var (h1, id) := TryExport(h, e, attempts);
            && HostInv(h1)
            && (id == 0 ==> h1 == h)
            && (id != 0 ==> id !in h.issued && h1 == Host(h.table[id := e], h.issued[id := e]) && Exported(id) in attempts)
    decreases |attempts|
  {
    if attempts != [] && attempts[0].Failed? {
      TryExportSound(h, e, attempts[1..]);
    }
  }

  /** The export succeeds if and only if some attempt does before one runs out of memory. */
  lemma {:induction false} TryExportExact(h: Host, e: Export, attempts: seq<Attempt>)
    requires forall i :: 0 <= i < |attempts| && attempts[i].Exported? ==> attempts[i].id != 0
    ensures TryExport(h, e, attempts).1 != 0 <==> SomeSucceeds(attempts)
    decreases |attempts|
  {
    if attempts != [] && attempts[0].Failed? {
      var rest := attempts[1..];
      TryExportExact(h, e, rest);
      assert attempts == [attempts[0]] + rest;
      if SomeSucceeds(rest) {
        var i :| SucceedsAt(rest, i);
        assert SucceedsAt(attempts, i + 1);
      }
      if SomeSucceeds(attempts) {
        var i :| SucceedsAt(attempts, i);
        assert SucceedsAt(rest, i - 1);
      }
    } else if attempts != [] && attempts[0].Exported? {
      assert SucceedsAt(attempts, 0);
    }
  }

  ghost predicate SucceedsAt(attempts: seq<Attempt>, i: int) {
    0 <= i < |attempts| && attempts[i].Exported? && forall j :: 0 <= j < i ==> attempts[j].Failed?
  }

  ghost predicate SomeSucceeds(attempts: seq<Attempt>) {
    exists i :: SucceedsAt(attempts, i)
  }

  /** A known buffer: some entry has its key. */
  ghost predicate Cached(c: Cache, dmabuf: Option<nat>, size: nat, q: QueueType) {
    dmabuf.Some? && exists e :: e in c.entries && e.Is(dmabuf.value, size, q)
  }

  lemma HitKeeps(c: Cache, h: Host, i: nat)
    requires Agree(c, h) && i < |c.entries|
    ensures Agree(c.(entries := SetInUse(c.entries, i, true)), h)
    ensures c.entries[i].id in h.table && h.table[c.entries[i].id] == Export(c.entries[i].inode, c.entries[i].size)
    ensures c.entries[i].(inUse := true) in SetInUse(c.entries, i, true)
  {
    assert c.entries[i] in c.entries;
    assert SetInUse(c.entries, i, true)[i] == c.entries[i].(inUse := true);
  }

  lemma MissKeeps(c: Cache, h: Host, e: Entry)
    requires Agree(c, h) && e.id != 0 && e.id !in h.issued && c.used < MAX_NUM_EXPORT_CACHE_ENTRY
    requires forall i :: 0 <= i < |c.entries| ==> !c.entries[i].Is(e.inode, e.size, e.queueType)
    ensures var x := Export(e.inode, e.size);
            Agree(Cache(c.entries + [e], c.used + 1), Host(h.table[e.id := x], h.issued[e.id := x]))
  {
  }

  /** Transparency: whether the id comes from the cache or from a new export, it denotes at
      the host the inode and size asked for, and its entry is marked in use. */
  lemma GetIdTransparent(c: Cache, h: Host, dmabuf: Option<nat>, size: nat, q: QueueType, w: World)
    requires Agree(c, h) && Allowed(h, dmabuf, w)
    ensures var (c1, h1, id) := GetId(c, h, dmabuf, size, q, w);
            && Agree(c1, h1)
            && (id != 0 ==> && dmabuf.Some? && id in h1.table && h1.table[id] == Export(dmabuf.value, size)
                            && Entry(dmabuf.value, size, q, id, true) in c1.entries)
  {
    var x := Export(dmabuf.GetOr(0), size);
    TryExportSound(h, x, w.attempts);
    hide TryExport, Agree, Unexport, SetInUse, Allowed, Cache.Ids;
    var id := TryExport(h, x, w.attempts).1;
    var i := if dmabuf.Some? then FindKey(c.entries, dmabuf.value, size, q) else |c.entries|;
    if i < |c.entries| {
      HitKeeps(c, h, i);
    } else if id != 0 {
      if dmabuf.Some? && c.used < MAX_NUM_EXPORT_CACHE_ENTRY {
        MissKeeps(c, h, Entry(dmabuf.value, size, q, id, true));
      }
    }
  }

  /** It returns no id exactly for an empty buffer, or for an unknown one that could not be
      exported or had no room in the cache. */
  lemma GetIdFails(c: Cache, h: Host, dmabuf: Option<nat>, size: nat, q: QueueType, w: World)
    requires Agree(c, h) && Allowed(h, dmabuf, w)
    ensures GetId(c, h, dmabuf, size, q, w).2 == 0 <==>
              || size == 0
              || (!Cached(c, dmabuf, size, q) &&
                   (!SomeSucceeds(w.attempts) || !w.allocOk || |c.entries| == MAX_NUM_EXPORT_CACHE_ENTRY))
  {
    TryExportSound(h, Export(dmabuf.GetOr(0), size), w.attempts);
    TryExportExact(h, Export(dmabuf.GetOr(0), size), w.attempts);
  }

  /** Asking again right away is a hit: same id, and neither table changes. */
  lemma GetIdAgain(c: Cache, h: Host, dmabuf: Option<nat>, size: nat, q: QueueType, w: World, w': World)
    requires Agree(c, h) && Allowed(h, dmabuf, w) && GetId(c, h, dmabuf, size, q, w).2 != 0
    ensures var r := GetId(c, h, dmabuf, size, q, w); GetId(r.0, r.1, dmabuf, size, q, w') == r
  {
    GetIdTransparent(c, h, dmabuf, size, q, w);
    var (c1, h1, id) := GetId(c, h, dmabuf, size, q, w);
    var i := FindKey(c1.entries, dmabuf.value, size, q);
    var e := Entry(dmabuf.value, size, q, id, true);
    var j :| 0 <= j < |c1.entries| && c1.entries[j] == e;
    assert i == j;
    assert SetInUse(c1.entries, i, true) == c1.entries;
  }

  lemma DropKeeps(c: Cache, h: Host, i: nat, stuck: set<nat>, doomed: set<nat>)
    requires AgreeBut(c, h, doomed) && i < |c.entries|
    ensures AgreeBut(Drop(c, i), Unexport(h, c.entries[i].id, stuck).0, doomed)
    ensures Drop(c, i).Ids() == c.Ids() - {c.entries[i].id}
  {
    var d := Drop(c, i);
    forall id | id in c.Ids() && id != c.entries[i].id
      ensures id in d.Ids()
    {
      var j :| 0 <= j < |c.entries| && c.entries[j].id == id;
      assert d.entries[if j < i then j else j - 1].id == id;
    }
  }

  lemma PutIdKeeps(c: Cache, h: Host, id: nat, cleanup: bool, stuck: set<nat>)
    requires Agree(c, h)
    ensures var (c1, h1) := PutId(c, h, id, cleanup, stuck);
            Agree(c1, h1) && Leaked(c1, h1) <= Leaked(c, h)
  {
    var i := FindId(c.entries, id);
    if cleanup && i < |c.entries| {
      DropKeeps(c, h, i, stuck, {});
    } else if !cleanup && i < |c.entries| {
      assert c.entries[i] in c.entries;
      var d := c.(entries := SetInUse(c.entries, i, false));
      assert forall j :: 0 <= j < |c.entries| ==> d.entries[j].id == c.entries[j].id;
      SameIds(c, d);
    }
  }

  lemma SameIds(c: Cache, d: Cache)
    requires |c.entries| == |d.entries| && forall j :: 0 <= j < |c.entries| ==> d.entries[j].id == c.entries[j].id
    ensures c.Ids() == d.Ids()
  {
    forall id | id in c.Ids()
      ensures id in d.Ids()
    {
      var j :| 0 <= j < |c.entries| && c.entries[j].id == id;
      assert d.entries[j].id == id;
    }
    forall id | id in d.Ids()
      ensures id in c.Ids()
    {
      var j :| 0 <= j < |d.entries| && d.entries[j].id == id;
      assert c.entries[j].id == id;
    }
  }

  /** Which entries an operation may drop. */
  datatype Gone = IdleWithId(id: nat) | AnyIdle | OfType(q: QueueType) {
    predicate Has(e: Entry) {
      match this
      case IdleWithId(id) => e.id == id && !e.inUse
      case AnyIdle => !e.inUse
      case OfType(q) => e.queueType == q
    }
  }

  /** Nothing of another kind disappears, and entries that stay are unchanged. */
  ghost predicate OnlyDrops(c: Cache, d: Cache, gone: Gone) {
    && (forall e :: e in d.entries ==> e in c.entries)
    && (forall e :: e in c.entries && !gone.Has(e) ==> e in d.entries)
  }

  /** A removal unexports only ids it drops from the cache. */
  ghost predicate HostShrinks(c: Cache, h: Host, d: Cache, h1: Host) {
    && |d.entries| <= |c.entries|
    && h1.issued == h.issued
    && (forall x :: x in h1.table ==> x in h.table)
    && (forall x :: x in h.table && x !in h1.table ==> x in c.Ids() && x !in d.Ids())
  }

  lemma OnlyDropsIds(c: Cache, d: Cache, gone: Gone)
    requires OnlyDrops(c, d, gone)
    ensures d.Ids() <= c.Ids()
  {
    forall id | id in d.Ids()
      ensures id in c.Ids()
    {
      var j :| 0 <= j < |d.entries| && d.entries[j].id == id;
      assert d.entries[j] in c.entries;
    }
  }

  lemma DropOnly(c: Cache, i: nat, d: Cache, gone: Gone)
    requires i < |c.entries| && gone.Has(c.entries[i]) && OnlyDrops(Drop(c, i), d, gone)
    ensures OnlyDrops(c, d, gone)
  {
    forall e | e in c.entries && !gone.Has(e)
      ensures e in Drop(c, i).entries
    {
      var j :| 0 <= j < |c.entries| && c.entries[j] == e;
      assert Drop(c, i).entries[if j < i then j else j - 1] == e;
    }
  }

  /** Cleanup on the host's request drops only entries that are not in use. */
  lemma {:induction false} CleanupFromKeeps(c: Cache, h: Host, id: nat, stuck: set<nat>, i: nat, doomed: set<nat>)
    requires AgreeBut(c, h, doomed) && i <= |c.entries|
    ensures var (d, h1) := CleanupFrom(c, h, id, stuck, i);
            && AgreeBut(d, h1, doomed) && Leaked(d, h1) <= Leaked(c, h)
            && OnlyDrops(c, d, IdleWithId(id))
            && HostShrinks(c, h, d, h1)
    decreases |c.entries| - i
  {
    if i < |c.entries| {
      if c.entries[i].id == id && !c.entries[i].inUse {
        var (h1, ok) := Unexport(h, id, stuck);
        DropKeeps(c, h, i, stuck, doomed);
        if ok {
          CleanupFromKeeps(Drop(c, i), h1, id, stuck, i, doomed);
          DropOnly(c, i, CleanupFrom(c, h, id, stuck, i).0, IdleWithId(id));
        }
      } else {
        CleanupFromKeeps(c, h, id, stuck, i + 1, doomed);
      }
    }
  }

  lemma {:induction false} CleanupKeeps(c: Cache, h: Host, ids: seq<nat>, stuck: set<nat>)
    requires Agree(c, h)
    ensures var (d, h1) := Cleanup(c, h, ids, stuck);
            && Agree(d, h1) && Leaked(d, h1) <= Leaked(c, h)
            && OnlyDrops(c, d, AnyIdle)
            && h1.issued == h.issued
    decreases |ids|
  {
    if ids != [] {
      if ids[0] != 0 {
        CleanupFromKeeps(c, h, ids[0], stuck, 0, {});
      }
      var (c1, h1) := if ids[0] == 0 then (c, h) else CleanupFrom(c, h, ids[0], stuck, 0);
      CleanupKeeps(c1, h1, ids[1..], stuck);
    }
  }

  /** Releasing a queue type drops exactly its entries; only refused unexports leak. */
  lemma {:induction false} PutTypeKeeps(c: Cache, h: Host, q: QueueType, stuck: set<nat>, i: nat, doomed: set<nat>)
    requires AgreeBut(c, h, doomed) && i <= |c.entries| && forall j :: 0 <= j < i ==> c.entries[j].queueType != q
    ensures var (d, h1) := PutTypeFrom(c, h, q, stuck, i);
            && AgreeBut(d, h1, doomed) && Leaked(d, h1) <= Leaked(c, h) + stuck
            && OnlyDrops(c, d, OfType(q))
            && (forall e :: e in d.entries ==> e.queueType != q)
            && HostShrinks(c, h, d, h1)
    decreases |c.entries| - i
  {
    if i < |c.entries| {
      if c.entries[i].queueType == q {
        DropKeeps(c, h, i, stuck, doomed);
        PutTypeKeeps(Drop(c, i), Unexport(h, c.entries[i].id, stuck).0, q, stuck, i, doomed);
        DropOnly(c, i, PutTypeFrom(c, h, q, stuck, i).0, OfType(q));
        OnlyDropsIds(Drop(c, i), PutTypeFrom(c, h, q, stuck, i).0, OfType(q));
      } else {
        PutTypeKeeps(c, h, q, stuck, i + 1, doomed);
      }
    }
  }

  lemma AppendedIds(c: Cache, e: Entry)
    ensures Cache(c.entries + [e], c.used + 1).Ids() == c.Ids() + {e.id}
  {
    var d := Cache(c.entries + [e], c.used + 1);
    assert d.entries[|c.entries|] == e;
    forall x | x in c.Ids()
      ensures x in d.Ids()
    {
      var j :| 0 <= j < |c.entries| && c.entries[j].id == x;
      assert d.entries[j].id == x;
    }
  }

  lemma GetIdLeaks(c: Cache, h: Host, dmabuf: Option<nat>, size: nat, q: QueueType, w: World)
    requires Agree(c, h) && Allowed(h, dmabuf, w)
    ensures var (c1, h1, id) := GetId(c, h, dmabuf, size, q, w);
            Leaked(c1, h1) <= Leaked(c, h) + w.stuck
  {
    TryExportSound(h, Export(dmabuf.GetOr(0), size), w.attempts);
    hide TryExport, Agree, Cache.Ids;
    var (c1, h1, id) := GetId(c, h, dmabuf, size, q, w);
    var i := if dmabuf.Some? then FindKey(c.entries, dmabuf.value, size, q) else |c.entries|;
    if i < |c.entries| {
      SameIds(c, c.(entries := SetInUse(c.entries, i, true)));
    } else if dmabuf.Some? {
      AppendedIds(c, Entry(dmabuf.value, size, q, id, true));
    }
  }

  /** Everything is dropped when the stream goes away: msm_export_cache_destroy. */
  function DestroyAll(c: Cache, h: Host, stuck: set<nat>): Host
    decreases |c.entries|
  {
    if c.entries == [] then h
    else DestroyAll(Drop(c, 0), Unexport(h, c.entries[0].id, stuck).0, stuck)
  }

  /** After that the host keeps, of the stream's exports, only those it refused to give up. */
  lemma {:induction false} DestroyUnexports(c: Cache, h: Host, stuck: set<nat>)
    requires Agree(c, h)
    ensures var h1 := DestroyAll(c, h, stuck);
            HostInv(h1) && h1.issued == h.issued && h1.table.Keys == h.table.Keys - (c.Ids() - stuck)
    decreases |c.entries|
  {
    if c.entries != [] {
      DropKeeps(c, h, 0, stuck, {});
      assert c.entries[0].id in c.Ids();
      DestroyUnexports(Drop(c, 0), Unexport(h, c.entries[0].id, stuck).0, stuck);
    }
  }

  // ---- whole runs ----

  datatype Call =
    | Get(dmabuf: Option<nat>, size: nat, q: QueueType, w: World)
    | Put(id: nat, cleanup: bool, stuck: set<nat>)
    | CleanUp(ids: seq<nat>, stuck: set<nat>)
    | PutAll(q: QueueType, stuck: set<nat>)
  {
    /** The ids the host would not give up during the call. */
    function Stuck(): set<nat> {
      match this
      case Get(_, _, _, w) => w.stuck
      case Put(_, _, stuck) => stuck
      case CleanUp(_, stuck) => stuck
      case PutAll(_, stuck) => stuck
    }

    function Do(c: Cache, h: Host): (Cache, Host) {
      match this
      case Get(dmabuf, size, q, w) => var r := GetId(c, h, dmabuf, size, q, w); (r.0, r.1)
      case Put(id, cleanup, stuck) => PutId(c, h, id, cleanup, stuck)
      case CleanUp(ids, stuck) => Cleanup(c, h, ids, stuck)
      case PutAll(q, stuck) => PutTypeFrom(c, h, q, stuck, 0)
    }
  }

  ghost predicate Runs(c: Cache, h: Host, calls: seq<Call>, d: Cache, h1: Host)
    decreases |calls|
  {
    if calls == [] then (c, h) == (d, h1)
    else
      && (calls[0].Get? ==> Allowed(h, calls[0].dmabuf, calls[0].w))
      && var (c2, h2) := calls[0].Do(c, h); Runs(c2, h2, calls[1..], d, h1)
  }

  lemma CallKeeps(c: Cache, h: Host, a: Call)
    requires Agree(c, h) && (a.Get? ==> Allowed(h, a.dmabuf, a.w))
    ensures var (d, h1) := a.Do(c, h); Agree(d, h1) && Leaked(d, h1) <= Leaked(c, h) + a.Stuck()
  {
    match a
    case Get(dmabuf, size, q, w) =>
      GetIdTransparent(c, h, dmabuf, size, q, w);
      GetIdLeaks(c, h, dmabuf, size, q, w);
    case Put(id, cleanup, stuck) => PutIdKeeps(c, h, id, cleanup, stuck);
    case CleanUp(ids, stuck) => CleanupKeeps(c, h, ids, stuck);
    case PutAll(q, stuck) => PutTypeKeeps(c, h, q, stuck, 0, {});
  }

  lemma {:induction false} RunKeeps(c: Cache, h: Host, calls: seq<Call>, d: Cache, h1: Host)
    requires Agree(c, h) && Runs(c, h, calls, d, h1)
    ensures Agree(d, h1)
    ensures (forall i :: 0 <= i < |calls| ==> calls[i].Stuck() == {}) ==> Leaked(d, h1) <= Leaked(c, h)
    decreases |calls|
  {
    hide Agree, Leaked;
    if calls != [] {
      var (c2, h2) := calls[0].Do(c, h);
      CallKeeps(c, h, calls[0]);
      RunKeeps(c2, h2, calls[1..], d, h1);
      assert forall i :: 0 <= i < |calls| - 1 ==> calls[1..][i] == calls[i + 1];
    }
  }

  /** Over every sequence of calls on a new stream's cache, the cached ids are exported at the
      host; and they are exactly the exported ones unless the host refuses an unexport. */
  lemma CachedAreExported(issued: map<nat, Export>, calls: seq<Call>, d: Cache, h1: Host)
    requires 0 !in issued && Runs(Cache([], 0), Host(map[], issued), calls, d, h1)
    ensures Agree(d, h1) && d.Ids() <= h1.table.Keys
    ensures (forall i :: 0 <= i < |calls| ==> calls[i].Stuck() == {}) ==> d.Ids() == h1.table.Keys
  {
    RunKeeps(Cache([], 0), Host(map[], issued), calls, d, h1);
    assert Leaked(Cache([], 0), Host(map[], issued)) == {};
    assert forall i :: 0 <= i < |d.entries| ==> d.entries[i] in d.entries;
    NothingLeaked(d, h1);
  }

  lemma NothingLeaked(d: Cache, h: Host)
    requires d.Ids() <= h.table.Keys
    ensures Leaked(d, h) == {} ==> d.Ids() == h.table.Keys
  {
    forall x | x in h.table.Keys && x !in d.Ids()
      ensures x in Leaked(d, h)
    {
    }
  }

  /** struct buf_export_cache, with the host's table beside it. */
  class BufExportCache {
    var exportFifo: seq<Entry>
    var usedCount: int
    var host: Host

    ghost function C(): Cache
      reads this
    {
      Cache(exportFifo, usedCount)
    }

    ghost predicate Valid()
      reads this
    {
      Agree(C(), host)
    }

    constructor (h: Host)
      requires HostInv(h)
      ensures Valid() && C() == Cache([], 0) && host == h
    {
      exportFifo, usedCount, host := [], 0, h;
    }

    /** get_entry_from_fd: dmabuf is what dma_buf_get finds behind the descriptor. */
    method GetEntryFromFd(dmabuf: Option<nat>, size: nat, q: QueueType) returns (found: Option<Entry>)
      modifies this`exportFifo
      ensures var i := if dmabuf.Some? then FindKey(old(exportFifo), dmabuf.value, size, q) else |old(exportFifo)|;
              if i < |old(exportFifo)|
              then found == Some(old(exportFifo)[i]) && exportFifo == SetInUse(old(exportFifo), i, true)
              else found == None && exportFifo == old(exportFifo)
    {
      found := None;
      if dmabuf == None {
        return;
      }
      for i := 0 to |exportFifo|
        invariant exportFifo == old(exportFifo)
        invariant i <= FindKey(exportFifo, dmabuf.value, size, q)
      {
        if exportFifo[i].Is(dmabuf.value, size, q) {
          found := Some(exportFifo[i]);
          exportFifo := SetInUse(exportFifo, i, true);
          return;
        }
      }
    }

    /** alloc_one_export_entry */
    method AllocOneExportEntry(dmabuf: Option<nat>, size: nat, q: QueueType, id: nat, allocOk: bool) returns (ok: bool)
      modifies this`exportFifo, this`usedCount
      ensures ok <==> old(usedCount) < MAX_NUM_EXPORT_CACHE_ENTRY && dmabuf.Some? && allocOk
      ensures C() == if ok then Cache(old(exportFifo) + [Entry(dmabuf.value, size, q, id, true)], old(usedCount) + 1) else old(C())
    {
      ok := false;
      if usedCount >= MAX_NUM_EXPORT_CACHE_ENTRY || dmabuf == None || !allocOk {
        return;
      }
      exportFifo := exportFifo + [Entry(dmabuf.value, size, q, id, true)];
      usedCount := usedCount + 1;
      ok := true;
    }

    method HabmmUnexport(id: nat, stuck: set<nat>) returns (ok: bool)
      modifies this`host
      ensures (host, ok) == Unexport(old(host), id, stuck)
    {
      ok := id in host.table && id !in stuck;
      if ok {
        host := host.(table := host.table - {id});
      }
    }

    method GetExportId(dmabuf: Option<nat>, size: nat, q: QueueType, w: World) returns (id: nat)
      requires Valid() && Allowed(host, dmabuf, w)
      modifies this
      ensures Valid() && (C(), host, id) == GetId(old(C()), old(host), dmabuf, size, q, w)
    {
      GetIdTransparent(C(), host, dmabuf, size, q, w);
      id := 0;
      if size == 0 {
        return;
      }
      var found := GetEntryFromFd(dmabuf, size, q);
      if found.Some? {
        id := found.value.id;
        return;
      }
      var i, failed, outOfMemory := 0, true, false;
      ghost var e := Export(dmabuf.GetOr(0), size);
      while i < MAX_EXPORT_RETRY && !outOfMemory
        invariant i <= MAX_EXPORT_RETRY && failed && id == 0
        invariant C() == old(C()) && host == old(host)
        invariant TryExport(old(host), e, w.attempts) == if outOfMemory then (old(host), 0) else TryExport(old(host), e, w.attempts[i..])
        decreases MAX_EXPORT_RETRY - i, !outOfMemory
      {
        match w.attempts[i] {
          case Exported(x) =>
            failed, id := false, x;
            host := Host(host.table[x := Export(dmabuf.GetOr(0), size)], host.issued[x := Export(dmabuf.GetOr(0), size)]);
            break;
          case OutOfMemory => outOfMemory := true;
          case Failed =>
        }
        i := i + 1;
      }
      if failed || id == 0 {
        id := 0;
        return;
      }
      var ok := AllocOneExportEntry(dmabuf, size, q, id, w.allocOk);
      if !ok {
        var done := HabmmUnexport(id, w.stuck);
        id := 0;
      }
    }

    method FreeCacheEntry(i: nat)
      requires i < |exportFifo|
      modifies this`exportFifo, this`usedCount
      ensures C() == Drop(old(C()), i)
    {
      exportFifo := exportFifo[..i] + exportFifo[i + 1..];
      usedCount := usedCount - 1;
    }

    method PutExportId(id: nat, cleanup: bool, stuck: set<nat>)
      requires Valid()
      modifies this
      ensures Valid() && (C(), host) == PutId(old(C()), old(host), id, cleanup, stuck)
    {
      PutIdKeeps(C(), host, id, cleanup, stuck);
      if cleanup {
        var ok := HabmmUnexport(id, stuck);
        if !ok {
          return;
        }
      }
      for i := 0 to |exportFifo|
        invariant C() == old(C()) && host == if cleanup then Unexport(old(host), id, stuck).0 else old(host)
        invariant i <= FindId(exportFifo, id)
      {
        if exportFifo[i].id == id {
          if cleanup {
            FreeCacheEntry(i);
          } else {
            exportFifo := SetInUse(exportFifo, i, false);
          }
          break;
        }
      }
    }

    /** The safe walk of msm_buf_cleanup_buffers for one id. */
    method CleanupOne(id: nat, stuck: set<nat>)
      requires Valid()
      modifies this
      ensures Valid() && (C(), host) == CleanupFrom(old(C()), old(host), id, stuck, 0)
    {
      CleanupFromKeeps(C(), host, id, stuck, 0, {});
      var i := 0;
      while i < |exportFifo|
        invariant i <= |exportFifo| && Valid()
        invariant CleanupFrom(old(C()), old(host), id, stuck, 0) == CleanupFrom(C(), host, id, stuck, i)
        decreases |exportFifo| - i
      {
        if exportFifo[i].id == id && !exportFifo[i].inUse {
          DropKeeps(C(), host, i, stuck, {});
          var ok := HabmmUnexport(id, stuck);
          if !ok {
            return;
          }
          FreeCacheEntry(i);
        } else {
          i := i + 1;
        }
      }
    }

    method CleanupBuffers(ids: seq<nat>, stuck: set<nat>)
      requires Valid()
      modifies this
      ensures Valid() && (C(), host) == Cleanup(old(C()), old(host), ids, stuck)
    {
      for idx := 0 to |ids|
        invariant Valid()
        invariant Cleanup(old(C()), old(host), ids, stuck) == Cleanup(C(), host, ids[idx..], stuck)
      {
        assert ids[idx..][1..] == ids[idx + 1..];
        if ids[idx] == 0 {
          continue;
        }
        CleanupOne(ids[idx], stuck);
      }
    }

    method PutExportQueueType(q: QueueType, stuck: set<nat>)
      requires Valid()
      modifies this
      ensures Valid() && (C(), host) == PutTypeFrom(old(C()), old(host), q, stuck, 0)
    {
      var i := 0;
      while i < |exportFifo|
        invariant i <= |exportFifo| && Valid()
        invariant PutTypeFrom(old(C()), old(host), q, stuck, 0) == PutTypeFrom(C(), host, q, stuck, i)
        decreases |exportFifo| - i
      {
        if exportFifo[i].queueType == q {
          DropKeeps(C(), host, i, stuck, {});
          var ok := HabmmUnexport(exportFifo[i].id, stuck);
          FreeCacheEntry(i);
        } else {
          i := i + 1;
        }
      }
    }

    method Destroy(stuck: set<nat>)
      requires Valid()
      modifies this
      ensures HostInv(host) && C() == Cache([], 0)
      ensures host.table.Keys == old(host).table.Keys - (old(C()).Ids() - stuck)
    {
      DestroyUnexports(C(), host, stuck);
      while exportFifo != []
        invariant Valid()
        invariant DestroyAll(old(C()), old(host), stuck) == DestroyAll(C(), host, stuck)
        decreases |exportFifo|
      {
        DropKeeps(C(), host, 0, stuck, {});
        var ok := HabmmUnexport(exportFifo[0].id, stuck);
        FreeCacheEntry(0);
      }
      usedCount := 0;
    }
  }
}

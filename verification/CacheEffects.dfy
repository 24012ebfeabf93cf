/** What each use of the export cache leaves behind, entry by entry and export by export. */
module CacheEffects {
  import opened Sequences
  import opened ExportCache
  import opened BufferOwnership
  import opened CacheSteps

  /** From (c, h) to (d, h1), exactly the entries in `gone` have left the cache, unexported at
      the host unless refused; nothing else has changed. */
  ghost predicate Removes(c: Cache, h: Host, d: Cache, h1: Host, gone: set<Entry>, stuck: set<nat>) {
    && (forall e :: e in d.entries <==> e in c.entries && e !in gone)
    && h1.issued == h.issued
    && (forall id :: id in h1.table <==> id in h.table && (HasId(gone, id) ==> id in stuck))
    && (forall id :: id in h1.table ==> h1.table[id] == h.table[id])
  }

  ghost predicate HasId(es: set<Entry>, id: nat) {
    exists e :: e in es && e.id == id
  }

  lemma RemovesNothing(c: Cache, h: Host, stuck: set<nat>)
    ensures Removes(c, h, c, h, {}, stuck)
  {
  }

  /** One removal after the other. */
  lemma RemovesJoin(c: Cache, h: Host, c1: Cache, h1: Host, d: Cache, h2: Host, gone: set<Entry>, gone': set<Entry>, stuck: set<nat>)
    requires Removes(c, h, c1, h1, gone, stuck) && Removes(c1, h1, d, h2, gone', stuck)
    ensures Removes(c, h, d, h2, gone + gone', stuck)
  {
    forall id
      ensures HasId(gone + gone', id) <==> HasId(gone, id) || HasId(gone', id)
    {
      if HasId(gone, id) {
        var e :| e in gone && e.id == id;
        assert e in gone + gone';
      }
      if HasId(gone', id) {
        var e :| e in gone' && e.id == id;
        assert e in gone + gone';
      }
    }
  }

  /** Dropping one entry. */
  lemma DropRemoves(c: Cache, h: Host, i: nat, stuck: set<nat>)
    requires Structure(c) && i < |c.entries| && c.entries[i].id in h.table
    ensures Removes(c, h, Drop(c, i), Unexport(h, c.entries[i].id, stuck).0, {c.entries[i]}, stuck)
  {
    var x, d := c.entries[i], Drop(c, i);
    assert x in c.entries;
    forall e
      ensures e in d.entries <==> e in c.entries && e != x
    {
      if e in d.entries {
        var j :| 0 <= j < |d.entries| && d.entries[j] == e;
        var k := if j < i then j else j + 1;
        assert c.entries[k] == e && k != i;
      }
      if e in c.entries && e != x { RemoveAtKeepsOthers(c.entries, i, e); }
    }
    forall id
      ensures HasId({x}, id) <==> id == x.id
    {
      if id == x.id { assert x in {x}; }
    }
  }

  // ---- clean-up on the host's request ----

  /** What a clean-up of the given ids takes: idle entries the host does not hold back. */
  ghost function CleanedUp(c: Cache, ids: seq<nat>, stuck: set<nat>): set<Entry> {
    set e | e in c.entries && !e.inUse && e.id in ids && e.id !in stuck
  }

  /** Once the entry with the id is gone, the rest of the walk finds nothing. */
  lemma {:induction false} WalkFindsNothing(c: Cache, h: Host, id: nat, stuck: set<nat>, i: nat)
    requires i <= |c.entries| && forall e :: e in c.entries ==> e.id != id
    ensures CleanupFrom(c, h, id, stuck, i) == (c, h)
    decreases |c.entries| - i
  {
    if i < |c.entries| {
      assert c.entries[i] in c.entries;
      WalkFindsNothing(c, h, id, stuck, i + 1);
    }
  }

  lemma {:induction false} CleanupFromExact(c: Cache, h: Host, id: nat, stuck: set<nat>, i: nat)
    requires Agree(c, h) && i <= |c.entries|
    requires forall j :: 0 <= j < i ==> c.entries[j].id != id || c.entries[j].inUse
    ensures var (d, h1) := CleanupFrom(c, h, id, stuck, i);
            Removes(c, h, d, h1, CleanedUp(c, [id], stuck), stuck)
    decreases |c.entries| - i
  {
    if i == |c.entries| {
      assert CleanedUp(c, [id], stuck) == {};
      RemovesNothing(c, h, stuck);
    } else if c.entries[i].id == id && !c.entries[i].inUse {
      CleanupHere(c, h, id, stuck, i);
    } else {
      CleanupFromExact(c, h, id, stuck, i + 1);
    }
  }

  lemma CleanupHere(c: Cache, h: Host, id: nat, stuck: set<nat>, i: nat)
    requires Agree(c, h) && i < |c.entries| && c.entries[i].id == id && !c.entries[i].inUse
    ensures var (d, h1) := CleanupFrom(c, h, id, stuck, i);
            Removes(c, h, d, h1, CleanedUp(c, [id], stuck), stuck)
  {
    var x := c.entries[i];
    assert x in c.entries && id in h.table;
    forall e | e in c.entries && e.id == id
      ensures e == x
    {
      SameEntryById(c, e, x);
    }
    if id in stuck {
      assert CleanedUp(c, [id], stuck) == {};
      RemovesNothing(c, h, stuck);
    } else {
      assert CleanedUp(c, [id], stuck) == {x};
      DropRemoves(c, h, i, stuck);
      WalkFindsNothing(Drop(c, i), Unexport(h, id, stuck).0, id, stuck, i);
    }
  }

  /** A clean-up drops exactly the idle entries whose ids the host has named and does not
      hold back, and unexports exactly those. */
  lemma {:induction false} CleanupExact(c: Cache, h: Host, ids: seq<nat>, stuck: set<nat>)
    requires Agree(c, h)
    ensures var (d, h1) := Cleanup(c, h, ids, stuck);
            Removes(c, h, d, h1, CleanedUp(c, ids, stuck), stuck)
    decreases |ids|
  {
    hide Removes, Agree, CleanedUp;
    if ids == [] {
      NoneNamed(c, stuck);
      RemovesNothing(c, h, stuck);
    } else {
      var (c1, h1) := if ids[0] == 0 then (c, h) else CleanupFrom(c, h, ids[0], stuck, 0);
      if ids[0] == 0 {
        ZeroNamesNone(c, h, stuck);
        RemovesNothing(c, h, stuck);
      } else {
        CleanupFromExact(c, h, ids[0], stuck, 0);
        AgreeIs(c, h);
        CleanupFromKeeps(c, h, ids[0], stuck, 0, {});
        AgreeIs(c1, h1);
      }
      assert Removes(c, h, c1, h1, CleanedUp(c, [ids[0]], stuck), stuck);
      CleanupExact(c1, h1, ids[1..], stuck);
      var (d, h2) := Cleanup(c1, h1, ids[1..], stuck);
      RemovesJoin(c, h, c1, h1, d, h2, CleanedUp(c, [ids[0]], stuck), CleanedUp(c1, ids[1..], stuck), stuck);
      NamedInTurn(c, h, c1, h1, ids, stuck);
    }
  }

  lemma NoneNamed(c: Cache, stuck: set<nat>)
    ensures CleanedUp(c, [], stuck) == {}
  {
  }

  lemma ZeroNamesNone(c: Cache, h: Host, stuck: set<nat>)
    requires Agree(c, h)
    ensures CleanedUp(c, [0], stuck) == {}
  {
  }

  lemma AgreeIs(c: Cache, h: Host)
    ensures Agree(c, h) <==> AgreeBut(c, h, {})
  {
  }

  lemma NamedInTurn(c: Cache, h: Host, c1: Cache, h1: Host, ids: seq<nat>, stuck: set<nat>)
    requires ids != [] && Removes(c, h, c1, h1, CleanedUp(c, [ids[0]], stuck), stuck)
    ensures CleanedUp(c, [ids[0]], stuck) + CleanedUp(c1, ids[1..], stuck) == CleanedUp(c, ids, stuck)
  {
    assert forall id :: id in ids <==> id in [ids[0]] || id in ids[1..];
  }

  // ---- giving one id back, and a whole queue type ----

  /** Un-marking leaves the id's entry idle and every other as it was. */
  lemma UnmarkExact(c: Cache, h: Host, id: nat, stuck: set<nat>)
    requires Structure(c)
    ensures var (d, h1) := PutId(c, h, id, false, stuck);
            && h1 == h && d.used == c.used && |d.entries| == |c.entries|
            && forall k :: 0 <= k < |c.entries| ==>
                 d.entries[k] == if c.entries[k].id == id then c.entries[k].(inUse := false) else c.entries[k]
  {
  }

  /** The cleaning form: an id the host gives up is afterwards neither cached nor exported, and
      that is all; if it refuses, or never had the id, nothing changes. */
  lemma PutAwayExact(c: Cache, h: Host, id: nat, stuck: set<nat>)
    requires Agree(c, h)
    ensures var (d, h1) := PutId(c, h, id, true, stuck);
            if id in h.table && id !in stuck
            then && (forall e :: e in d.entries <==> e in c.entries && e.id != id)
                 && h1 == h.(table := h.table - {id})
            else (d, h1) == (c, h)
  {
    var i := FindId(c.entries, id);
    if id in h.table && id !in stuck && i < |c.entries| {
      DropRemoves(c, h, i, stuck);
      forall e | e in c.entries && e.id == id
        ensures e == c.entries[i]
      {
        SameEntryById(c, e, c.entries[i]);
      }
    } else if i == |c.entries| {
      assert forall e :: e in c.entries ==> e.id != id;
    }
    CachedIsExported(c, h, id);
  }

  lemma CachedIsExported(c: Cache, h: Host, id: nat)
    requires Agree(c, h)
    ensures FindId(c.entries, id) < |c.entries| ==> id in h.table
  {
    var i := FindId(c.entries, id);
    if i < |c.entries| { assert c.entries[i] in c.entries; }
  }

  ghost function OfQueueType(c: Cache, q: QueueType): set<Entry> {
    set e | e in c.entries && e.queueType == q
  }

  /** Releasing a queue type drops exactly its entries, whether or not the host gives their ids
      up, and unexports exactly those it does. */
  lemma {:induction false} PutTypeExact(c: Cache, h: Host, q: QueueType, stuck: set<nat>, i: nat)
    requires Agree(c, h) && i <= |c.entries| && forall j :: 0 <= j < i ==> c.entries[j].queueType != q
    ensures var (d, h1) := PutTypeFrom(c, h, q, stuck, i);
            Removes(c, h, d, h1, OfQueueType(c, q), stuck)
    decreases |c.entries| - i
  {
    hide Removes, Agree;
    if i == |c.entries| {
      assert OfQueueType(c, q) == {};
      RemovesNothing(c, h, stuck);
    } else if c.entries[i].queueType == q {
      var x := c.entries[i];
      var c1, h1 := Drop(c, i), Unexport(h, x.id, stuck).0;
      DropTypeEntry(c, h, i, stuck);
      PutTypeExact(c1, h1, q, stuck, i);
      var (d, h2) := PutTypeFrom(c1, h1, q, stuck, i);
      RemovesJoin(c, h, c1, h1, d, h2, {x}, OfQueueType(c1, q), stuck);
      TypeInTurn(c, h, c1, h1, x, q, stuck);
    } else {
      PutTypeExact(c, h, q, stuck, i + 1);
    }
  }

  lemma DropTypeEntry(c: Cache, h: Host, i: nat, stuck: set<nat>)
    requires Agree(c, h) && i < |c.entries|
    ensures var c1, h1 := Drop(c, i), Unexport(h, c.entries[i].id, stuck).0;
            Removes(c, h, c1, h1, {c.entries[i]}, stuck) && Agree(c1, h1)
  {
    assert c.entries[i] in c.entries;
    DropRemoves(c, h, i, stuck);
    DropKeeps(c, h, i, stuck, {});
  }

  lemma TypeInTurn(c: Cache, h: Host, c1: Cache, h1: Host, x: Entry, q: QueueType, stuck: set<nat>)
    requires Removes(c, h, c1, h1, {x}, stuck) && x in c.entries && x.queueType == q
    ensures {x} + OfQueueType(c1, q) == OfQueueType(c, q)
  {
  }

  // ---- getting an id ----

  /** A known buffer's entry is marked in use and its id handed out. */
  ghost predicate Hit(c: Cache, h: Host, d: Cache, h1: Host, id: nat, x: Export, q: QueueType) {
    && h1 == h && d.used == c.used && |d.entries| == |c.entries|
    && (exists e :: e in c.entries && e.Is(x.inode, x.size, q) && e.id == id)
    && (forall k :: 0 <= k < |c.entries| ==>
          d.entries[k] == if c.entries[k].Is(x.inode, x.size, q) then c.entries[k].(inUse := true) else c.entries[k])
  }

  /** A new buffer gets a new entry at the end, under the id of the first attempt that worked. */
  ghost predicate Miss(c: Cache, h: Host, d: Cache, h1: Host, id: nat, x: Export, q: QueueType, attempts: seq<Attempt>) {
    && id !in h.issued && (exists i :: SucceedsAt(attempts, i) && attempts[i].id == id)
    && d.entries == c.entries + [Entry(x.inode, x.size, q, id, true)] && d.used == c.used + 1
    && h1 == Host(h.table[id := x], h.issued[id := x])
  }

  /** Nothing is cached, and what has been exported in vain is taken back unless refused. */
  ghost predicate NoId(c: Cache, h: Host, d: Cache, h1: Host, stuck: set<nat>) {
    && d == c
    && (forall id :: id in h.table ==> id in h1.table && h1.table[id] == h.table[id])
    && (forall id :: id in h1.table && id !in h.table ==> id in stuck)
  }

  /** What a request leaves behind, whichever way it goes; when it fails is `GetIdFails`. */
  lemma GetIdExact(c: Cache, h: Host, dmabuf: Option<nat>, size: nat, q: QueueType, w: World)
    requires Agree(c, h) && Allowed(h, dmabuf, w)
    ensures var (d, h1, id) := GetId(c, h, dmabuf, size, q, w);
            if id == 0 then NoId(c, h, d, h1, w.stuck)
            else
              && dmabuf.Some?
              && var x := Export(dmabuf.value, size);
                 if Cached(c, dmabuf, size, q) then Hit(c, h, d, h1, id, x, q) else Miss(c, h, d, h1, id, x, q, w.attempts)
  {
    TryExportSound(h, Export(dmabuf.GetOr(0), size), w.attempts);
    hide TryExport, Unexport, SetInUse, Hit, Miss, Structure, Backed;
    if size != 0 {
      var i := if dmabuf.Some? then FindKey(c.entries, dmabuf.value, size, q) else |c.entries|;
      if i < |c.entries| {
        NoZeroIds(c, h);
        HitIsHit(c, h, i);
      } else if dmabuf.Some? {
        assert forall e :: e in c.entries ==> !e.Is(dmabuf.value, size, q);
        UnknownExact(c, h, dmabuf.value, size, q, w);
      }
    }
  }

  /** A request for a buffer the cache does not know. */
  lemma UnknownExact(c: Cache, h: Host, inode: nat, size: nat, q: QueueType, w: World)
    requires Agree(c, h) && Allowed(h, Some(inode), w) && size != 0 && FindKey(c.entries, inode, size, q) == |c.entries|
    ensures var (d, h1, id) := GetId(c, h, Some(inode), size, q, w);
            if id == 0 then NoId(c, h, d, h1, w.stuck) else Miss(c, h, d, h1, id, Export(inode, size), q, w.attempts)
  {
    var x := Export(inode, size);
    TryExportSound(h, x, w.attempts);
    FirstAttempt(h, x, w.attempts);
    var id := TryExport(h, x, w.attempts).1;
    assert NoId(c, h, c, h, w.stuck);
    if id != 0 {
      UndoExact(c, h, id, x, w.stuck);
      assert Miss(c, h, Cache(c.entries + [Entry(inode, size, q, id, true)], c.used + 1), Host(h.table[id := x], h.issued[id := x]), id, x, q, w.attempts);
    }
    hide TryExport, Unexport, NoId, Miss, Agree;
  }

  lemma UndoExact(c: Cache, h: Host, id: nat, x: Export, stuck: set<nat>)
    requires HostInv(h) && id !in h.issued
    ensures NoId(c, h, c, Unexport(Host(h.table[id := x], h.issued[id := x]), id, stuck).0, stuck)
  {
  }

  lemma NoZeroIds(c: Cache, h: Host)
    requires Agree(c, h)
    ensures forall e :: e in c.entries ==> e.id != 0
  {
  }

  lemma HitIsHit(c: Cache, h: Host, i: nat)
    requires Agree(c, h) && i < |c.entries|
    ensures var e := c.entries[i];
            e in c.entries && Hit(c, h, c.(entries := SetInUse(c.entries, i, true)), h, e.id, Export(e.inode, e.size), e.queueType)
  {
  }

  lemma {:induction false} FirstAttempt(h: Host, x: Export, attempts: seq<Attempt>)
    ensures var (h1, id) := TryExport(h, x, attempts);
            h1 != h || id != 0 ==> exists i :: SucceedsAt(attempts, i) && attempts[i].id == id
    decreases |attempts|
  {
    if attempts != [] && attempts[0].Failed? {
      FirstAttempt(h, x, attempts[1..]);
      var (h1, id) := TryExport(h, x, attempts);
      if h1 != h || id != 0 {
        var i :| SucceedsAt(attempts[1..], i) && attempts[1..][i].id == id;
        assert SucceedsAt(attempts, i + 1) && attempts[i + 1].id == id;
      }
    } else if attempts != [] && attempts[0].Exported? {
      assert SucceedsAt(attempts, 0);
    }
  }
}

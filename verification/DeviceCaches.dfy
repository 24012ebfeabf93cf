/** Over every run of the device, with no assumption on the order of calls: each stream's cache
    agrees with the host; and if the host never refuses an unexport, what it has exported is
    exactly what some open stream has cached. */
module DeviceCaches {
  import opened Sequences
  import opened ExportCache
  import opened BufferOwnership
  import opened OwnershipProofs
  import opened CacheSteps
  import opened QueuedOnce
  import SS = StreamState

  /** One use, or several, of stream sid's cache; with a willing host it leaks nothing. */
  ghost predicate Uses(d: Dev, e: Dev, sid: nat, willing: bool) {
    && (exists dropped :: CacheMoved(d, e, sid, dropped))
    && (willing ==> Leaked(CacheOf(e, sid), e.host) <= Leaked(CacheOf(d, sid), d.host))
  }

  /** Everything exported is cached by some stream. */
  ghost predicate Balanced(d: Dev) {
    forall id :: id in d.host.table ==> SomeoneHas(d, id)
  }

  ghost predicate SomeoneHas(d: Dev, id: nat) {
    exists s :: s in d.streams && id in CacheOf(d, s).Ids()
  }

  lemma UseKeeps(d: Dev, e: Dev, sid: nat, willing: bool)
    requires CachesSound(d) && Uses(d, e, sid, willing)
    ensures CachesSound(e) && (willing && Balanced(d) ==> Balanced(e))
  {
    var dropped :| CacheMoved(d, e, sid, dropped);
    MovedSound(d, e, sid, dropped);
    if willing && Balanced(d) {
      hide CachesSound, CacheStep, Cache.Ids;
      forall id | id in e.host.table
        ensures SomeoneHas(e, id)
      {
        if id !in CacheOf(e, sid).Ids() {
          assert id in Leaked(CacheOf(e, sid), e.host);
          assert id in Leaked(CacheOf(d, sid), d.host);
          assert SomeoneHas(d, id);
          var s :| s in d.streams && id in CacheOf(d, s).Ids();
          assert s in e.streams && CacheOf(e, s) == CacheOf(d, s);
        }
      }
    }
  }

  lemma SameUse(d: Dev, e: Dev)
    requires CachesSound(d) && SameCaches(d, e)
    ensures CachesSound(e) && (Balanced(d) ==> Balanced(e))
  {
    SameCachesSound(d, e);
    hide CachesSound, Cache.Ids;
    if Balanced(d) {
      forall id | id in e.host.table
        ensures SomeoneHas(e, id)
      {
        assert SomeoneHas(d, id);
        var s :| s in d.streams && id in CacheOf(d, s).Ids();
        assert s in e.streams && CacheOf(e, s) == CacheOf(d, s);
      }
    }
  }

  // ---- the uses ----

  lemma JoinSteps(c: Cache, h: Host, c1: Cache, h1: Host, c2: Cache, h2: Host, p: set<nat>, q: set<nat>)
    requires Agree(c, h) && CacheStep(c, h, c1, h1, p) && CacheStep(c1, h1, c2, h2, q)
    ensures CacheStep(c, h, c2, h2, p + q)
  {
    assert HostInv(h);
    hide Agree, Cache.Ids;
  }

  lemma {:induction false} GetIdsLeak(c: Cache, h: Host, planes: seq<Plane>, q: QueueType, ws: seq<World>)
    requires |planes| == |ws| && Agree(c, h) && GetIdsAllowed(c, h, planes, q, ws) && forall k :: 0 <= k < |ws| ==> ws[k].stuck == {}
    ensures var (c1, h1, ids, ok) := GetIds(c, h, planes, q, ws); Leaked(c1, h1) <= Leaked(c, h)
    decreases |planes|
  {
    hide GetId, Leaked, Agree;
    if planes != [] {
      var (c1, h1, id) := GetId(c, h, planes[0].dmabuf, planes[0].size, q, ws[0]);
      GetIdLeaks(c, h, planes[0].dmabuf, planes[0].size, q, ws[0]);
      GetIdTransparent(c, h, planes[0].dmabuf, planes[0].size, q, ws[0]);
      if id != 0 { GetIdsLeak(c1, h1, planes[1..], q, ws[1..]); }
    }
  }

  lemma {:induction false} PutIdsLeak(c: Cache, h: Host, ids: seq<nat>, stuck: set<nat>)
    requires Agree(c, h)
    ensures var (c1, h1) := PutIds(c, h, ids, stuck); Leaked(c1, h1) <= Leaked(c, h)
    decreases |ids|
  {
    hide PutId, Leaked, Agree;
    if ids != [] {
      var (c1, h1) := PutId(c, h, ids[0], true, stuck);
      PutIdKeeps(c, h, ids[0], true, stuck);
      PutIdsLeak(c1, h1, ids[1..], stuck);
    }
  }

  predicate Willing(a: Action) {
    match a
    case Queue(_, ws, _, stuck) => stuck == {} && forall k :: 0 <= k < |ws| ==> ws[k].stuck == {}
    case Completion(_, _, _, _, _, stuck) => stuck == {}
    case Stop(_, _, _, stuck) => stuck == {}
    case Close(_, stuck) => stuck == {}
    case _ => true
  }

  /** What the plane loop, and taking its ids back, do to the stream's cache. */
  lemma QueueCache(d: Dev, a: Action)
    requires CachesSound(d) && a.Queue? && Enabled(d, a)
    ensures var sid := d.bufs[a.b].sid;
            var (c, h, ids, ok) := GetIds(CacheOf(d, sid), d.host, d.bufs[a.b].planes, d.bufs[a.b].qt, a.ws);
            var (c1, h1) := PutIds(c, h, ids, a.stuck);
            && CacheUse(d, sid, c, h, Willing(a)) && CacheUse(d, sid, c1, h1, Willing(a))
  {
    var x := d.bufs[a.b];
    var c0 := CacheOf(d, x.sid);
    GetIdsStep(c0, d.host, x.planes, x.qt, a.ws);
    var (c, h, ids, ok) := GetIds(c0, d.host, x.planes, x.qt, a.ws);
    if Willing(a) { GetIdsLeak(c0, d.host, x.planes, x.qt, a.ws); }
    hide GetIds, GetIdsAllowed, PutIds, Leaked, CachesSound;
    assert CacheUse(d, x.sid, c, h, Willing(a));
    TakeBackUses(c0, d.host, c, h, ids, x.qt, a.stuck);
  }

  lemma TakeBackUses(c0: Cache, h0: Host, c: Cache, h: Host, ids: seq<nat>, q: QueueType, stuck: set<nat>)
    requires Agree(c0, h0) && CacheStep(c0, h0, c, h, {}) && forall k :: 0 <= k < |ids| ==> HasInUse(c, ids[k], q)
    ensures var (c1, h1) := PutIds(c, h, ids, stuck);
            && (exists dropped :: CacheStep(c0, h0, c1, h1, dropped)) && Leaked(c1, h1) <= Leaked(c, h)
  {
    PutIdsLeak(c, h, ids, stuck);
    var dropped := set k | 0 <= k < |ids| :: ids[k];
    PutIdsStep(c, h, ids, stuck, dropped);
    hide PutIds, Agree, Leaked;
    var (c1, h1) := PutIds(c, h, ids, stuck);
    JoinSteps(c0, h0, c, h, c1, h1, {}, dropped);
  }

  ghost predicate CacheUse(d: Dev, sid: nat, c: Cache, h: Host, willing: bool)
    requires sid in d.streams
  {
    && (exists dropped :: CacheStep(CacheOf(d, sid), d.host, c, h, dropped))
    && (willing ==> Leaked(c, h) <= Leaked(CacheOf(d, sid), d.host))
  }

  /** A device that differs in stream sid's cache and in the host alone, as far as caches go. */
  lemma UsesCache(d: Dev, e: Dev, sid: nat, willing: bool)
    requires sid in d.streams && e.streams.Keys == d.streams.Keys
    requires forall s :: s in d.streams && s != sid ==> CacheOf(e, s) == CacheOf(d, s)
    requires CacheUse(d, sid, CacheOf(e, sid), e.host, willing)
    ensures Uses(d, e, sid, willing)
  {
    var dropped :| CacheStep(CacheOf(d, sid), d.host, CacheOf(e, sid), e.host, dropped);
    assert CacheMoved(d, e, sid, dropped);
    hide CacheStep, Leaked;
  }

  lemma QueueKeeps(d: Dev, a: Action)
    requires CachesSound(d) && a.Queue? && Enabled(d, a)
    ensures CachesSound(Apply(d, a)) && (Willing(a) && Balanced(d) ==> Balanced(Apply(d, a)))
  {
    hide QueueBuf, GetIds, GetIdsAllowed, PutIds, CacheUse, CachesSound, Balanced, Uses;
    var sid, e := d.bufs[a.b].sid, Apply(d, a);
    QueueCache(d, a);
    QueueEnds(d, a);
    if d.State(sid) == SS.Error {
      SameUse(d, e);
    } else {
      UsesCache(d, e, sid, Willing(a));
      UseKeeps(d, e, sid, Willing(a));
    }
  }

  /** Which cache and host the call ends with. */
  lemma QueueEnds(d: Dev, a: Action)
    requires a.Queue? && Enabled(d, a)
    ensures var sid, e := d.bufs[a.b].sid, Apply(d, a);
            var (c, h, ids, ok) := GetIds(CacheOf(d, sid), d.host, d.bufs[a.b].planes, d.bufs[a.b].qt, a.ws);
            && e.streams.Keys == d.streams.Keys && (forall s :: s in d.streams && s != sid ==> CacheOf(e, s) == CacheOf(d, s))
            && (if d.State(sid) == SS.Error then SameCaches(d, e)
                else (CacheOf(e, sid), e.host) == (c, h) || (CacheOf(e, sid), e.host) == PutIds(c, h, ids, a.stuck))
  {
    hide GetIds, GetIdsAllowed, PutIds;
  }

  lemma CompletionKeeps(d: Dev, a: Action)
    requires CachesSound(d) && a.Completion? && Enabled(d, a)
    ensures CachesSound(Apply(d, a)) && (Willing(a) && Balanced(d) ==> Balanced(Apply(d, a)))
  {
    hide ReturnByRid, PutId, Cleanup, CachesSound, Balanced, Uses, CacheUse;
    var d1, sid := ReturnByRid(d, a.rid, a.failed, a.eos), a.sid;
    ReturnKeepsCaches(d, a.rid, a.failed, a.eos);
    SameUse(d, d1);
    UnmarkUses(d1, sid, a.rid, a.erased, a.stuck);
    var (c, h) := PutId(CacheOf(d1, sid), d1.host, a.rid, false, a.stuck);
    var (c1, h1) := Cleanup(c, h, a.erased, a.stuck);
    UsesCache(d1, d1.WithCache(sid, c1, h1), sid, true);
    UseKeeps(d1, d1.WithCache(sid, c1, h1), sid, true);
  }

  lemma UnmarkUses(d: Dev, sid: nat, rid: nat, erased: seq<nat>, stuck: set<nat>)
    requires CachesSound(d) && sid in d.streams
    ensures var (c, h) := PutId(CacheOf(d, sid), d.host, rid, false, stuck);
            var (c1, h1) := Cleanup(c, h, erased, stuck);
            CacheUse(d, sid, c1, h1, true)
  {
    var c0 := CacheOf(d, sid);
    assert Agree(c0, d.host);
    UnmarkStep(c0, d.host, rid, erased, stuck);
    PutIdKeeps(c0, d.host, rid, false, stuck);
    hide PutId, Cleanup, CachesSound, Agree, CacheStep, Leaked;
    var (c, h) := PutId(c0, d.host, rid, false, stuck);
    CleanupKeeps(c, h, erased, stuck);
  }

  lemma ReturnKeepsCaches(d: Dev, rid: nat, failed: bool, eos: bool)
    ensures SameCaches(d, ReturnByRid(d, rid, failed, eos))
  {
  }

  lemma PutTypeUses(d: Dev, sid: nat, q: QueueType, stuck: set<nat>)
    requires CachesSound(d) && sid in d.streams
    ensures CachesSound(PutType(d, sid, q, stuck)) && (stuck == {} && Balanced(d) ==> Balanced(PutType(d, sid, q, stuck)))
  {
    PutTypeStep(CacheOf(d, sid), d.host, q, stuck);
    PutTypeKeeps(CacheOf(d, sid), d.host, q, stuck, 0, {});
    var (c1, h1) := PutTypeFrom(CacheOf(d, sid), d.host, q, stuck, 0);
    hide PutTypeFrom, CachesSound, Balanced, Uses, Leaked, CacheStep;
    assert CacheUse(d, sid, c1, h1, stuck == {});
    var e := PutType(d, sid, q, stuck);
    UsesCache(d, e, sid, stuck == {});
    UseKeeps(d, e, sid, stuck == {});
  }

  lemma StopKeeps(d: Dev, sid: nat, q: QueueType, offOk: bool, stuck: set<nat>)
    requires CachesSound(d) && OwnedArePending(d) && sid in d.streams
    ensures var e := StopStreaming(d, sid, q, offOk, stuck); CachesSound(e) && (stuck == {} && Balanced(d) ==> Balanced(e))
  {
    hide CachesSound, Balanced, PutType, ReleasePair;
    if d.State(sid) == SS.Error {
      ReleaseKeeps(d, sid, q);
    } else if IsData(q) {
      var d1 := if offOk then d else d.SetState(sid, SS.Error);
      SameUse(d, d1);
      PutTypeUses(d1, sid, q, stuck);
      var d2 := PutType(d1, sid, q, stuck);
      PutTypeOwned(d1, sid, q, stuck);
      PutTypeStreams(d1, sid, q, stuck);
      PutTypeUses(d2, sid, Meta(q), stuck);
      PutTypeOwned(d2, sid, Meta(q), stuck);
      ReleaseKeeps(PutType(d2, sid, Meta(q), stuck), sid, q);
    }
    StopIs(d, sid, q, offOk, stuck);
  }

  lemma PutTypeStreams(d: Dev, sid: nat, q: QueueType, stuck: set<nat>)
    requires sid in d.streams
    ensures PutType(d, sid, q, stuck).streams.Keys == d.streams.Keys
  {
  }

  /** Stopping, put together from releasing exports and releasing buffers. */
  lemma StopIs(d: Dev, sid: nat, q: QueueType, offOk: bool, stuck: set<nat>)
    requires sid in d.streams
    ensures var e := StopStreaming(d, sid, q, offOk, stuck);
            if d.State(sid) == SS.Error then e == ReleasePair(d, sid, q)
            else if !IsData(q) then e == d
            else
              var d2 := PutType(if offOk then d else d.SetState(sid, SS.Error), sid, q, stuck);
              sid in d2.streams && var d3 := PutType(d2, sid, Meta(q), stuck); e == if offOk then d3 else ReleasePair(d3, sid, q)
  {
    hide ReleaseFrom;
  }

  lemma ReleaseKeeps(d: Dev, sid: nat, q: QueueType)
    requires CachesSound(d) && OwnedArePending(d)
    ensures var e := ReleasePair(d, sid, q); CachesSound(e) && (Balanced(d) ==> Balanced(e))
  {
    ReleasePairOwned(d, sid, q);
    hide CachesSound, Balanced, ReleasePair;
    SameUse(d, ReleasePair(d, sid, q));
  }

  lemma ErrorKeeps(d: Dev, sid: nat)
    requires CachesSound(d) && OwnedArePending(d) && sid in d.streams
    ensures CachesSound(ErrorEvent(d, sid)) && (Balanced(d) ==> Balanced(ErrorEvent(d, sid)))
  {
    hide CachesSound, Balanced, HandleError;
    ErrorOwned(d.SetState(sid, SS.Error), sid);
    SameUse(d, ErrorEvent(d, sid));
  }

  lemma CloseKeeps(d: Dev, sid: nat, stuck: set<nat>)
    requires CachesSound(d) && Enabled(d, Close(sid, stuck))
    ensures var e := Apply(d, Close(sid, stuck)); CachesSound(e) && (stuck == {} && Balanced(d) ==> Balanced(e))
  {
    var e := Apply(d, Close(sid, stuck));
    DestroyUnexports(CacheOf(d, sid), d.host, stuck);
    hide DestroyAll, CachesSound, Balanced;
    CloseSound(d, e, sid, stuck);
  }

  lemma CloseSound(d: Dev, e: Dev, sid: nat, stuck: set<nat>)
    requires CachesSound(d) && sid in d.streams
    requires e.streams.Keys == d.streams.Keys - {sid} && forall s :: s in e.streams ==> CacheOf(e, s) == CacheOf(d, s)
    requires HostInv(e.host) && e.host.issued == d.host.issued && e.host.table.Keys == d.host.table.Keys - (CacheOf(d, sid).Ids() - stuck)
    ensures CachesSound(e) && (stuck == {} && Balanced(d) ==> Balanced(e))
  {
    hide Cache.Ids, Structure;
    forall s | s in e.streams
      ensures Agree(CacheOf(e, s), e.host)
    {
      // the closed stream's ids are in no other cache
      assert Agree(CacheOf(d, s), d.host) && CacheOf(d, s).Ids() !! CacheOf(d, sid).Ids();
      OthersBacked(CacheOf(d, s), d.host, CacheOf(d, sid).Ids(), e.host);
    }
    if stuck == {} && Balanced(d) {
      hide CachesSound, HostInv;
      forall id | id in e.host.table
        ensures SomeoneHas(e, id)
      {
        assert SomeoneHas(d, id);
        var s :| s in d.streams && id in CacheOf(d, s).Ids();
        assert s in e.streams && CacheOf(e, s) == CacheOf(d, s);
      }
    }
  }

  lemma OthersBacked(c: Cache, h: Host, gone: set<nat>, h1: Host)
    requires Agree(c, h) && c.Ids() !! gone && HostInv(h1) && h1.issued == h.issued
    requires forall id :: id in h.table && id !in gone ==> id in h1.table
    ensures Agree(c, h1)
  {
    forall e | e in c.entries
      ensures e.id in h1.table
    {
      EntryId(c, e);
    }
  }

  lemma OpenKeeps(d: Dev, sid: nat)
    requires CachesSound(d) && Enabled(d, Open(sid))
    ensures CachesSound(Apply(d, Open(sid))) && (Balanced(d) ==> Balanced(Apply(d, Open(sid))))
  {
    var e := Apply(d, Open(sid));
    assert Opens(d, e, sid);
    OpensSound(d, e, sid);
    hide CachesSound, Cache.Ids;
    if Balanced(d) {
      forall id | id in e.host.table
        ensures SomeoneHas(e, id)
      {
        assert SomeoneHas(d, id);
        var s :| s in d.streams && id in CacheOf(d, s).Ids();
        assert s in e.streams && CacheOf(e, s) == CacheOf(d, s);
      }
    }
  }

  // ---- every run ----

  lemma StepKeepsCaches(d: Dev, a: Action)
    requires CachesSound(d) && OwnedArePending(d) && Enabled(d, a)
    ensures CachesSound(Apply(d, a)) && (Willing(a) && Balanced(d) ==> Balanced(Apply(d, a)))
  {
    hide CachesSound, Balanced, QueueBuf, Complete, StopStreaming, HandleError, DestroyAll, OwnedArePending;
    match a
    case Open(sid) => OpenKeeps(d, sid);
    case Queue(_, _, _, _) => QueueKeeps(d, a);
    case Completion(_, _, _, _, _, _) => CompletionKeeps(d, a);
    case ErrorOn(sid) => ErrorKeeps(d, sid);
    case Stop(sid, q, offOk, stuck) => StopKeeps(d, sid, q, offOk, stuck);
    case Close(sid, stuck) => CloseKeeps(d, sid, stuck);
    case _ => SameUse(d, Apply(d, a));
  }

  lemma {:induction false} CachesHold(d: Dev, run: seq<Action>, e: Dev)
    requires CachesSound(d) && OwnedArePending(d) && DeviceReaches(d, run, e)
    ensures CachesSound(e) && OwnedArePending(e)
    ensures Balanced(d) && (forall i :: 0 <= i < |run| ==> Willing(run[i])) ==> Balanced(e)
    decreases |run|
  {
    hide CachesSound, OwnedArePending, Balanced, Willing, Apply, Enabled;
    if run != [] {
      StepKeepsCaches(d, run[0]);
      StepOwned(d, run[0]);
      CachesHold(Apply(d, run[0]), run[1..], e);
      assert forall i :: 0 <= i < |run| - 1 ==> run[1..][i] == run[i + 1];
    }
  }

  /** Every run from a host without exports. */
  lemma ExportsBalance(issued: map<nat, Export>, run: seq<Action>, e: Dev)
    requires 0 !in issued && DeviceReaches(Start(Host(map[], issued)), run, e)
    ensures CachesSound(e)
    ensures (forall i :: 0 <= i < |run| ==> Willing(run[i])) ==> forall id :: id in e.host.table <==> SomeoneHas(e, id)
  {
    var d := Start(Host(map[], issued));
    assert CachesSound(d) && OwnedArePending(d) && Balanced(d);
    CachesHold(d, run, e);
    forall id | SomeoneHas(e, id)
      ensures id in e.host.table
    {
      var s :| s in e.streams && id in CacheOf(e, s).Ids();
      CachedIsThere(CacheOf(e, s), e.host, id);
    }
  }

  lemma CachedIsThere(c: Cache, h: Host, id: nat)
    requires Agree(c, h) && id in c.Ids()
    ensures id in h.table
  {
    var i :| 0 <= i < |c.entries| && c.entries[i].id == id;
    assert c.entries[i] in c.entries;
  }
}

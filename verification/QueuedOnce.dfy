/** Runs in which no submission of a buffer fails and buffers queued at the same time lie in
    distinct dma-bufs: each buffer is on the pending list exactly while it is ACTIVE, once,
    under an id of its own which no clean-up asked for by the host takes away. */
module QueuedOnce {
  import opened Sequences
  import opened ExportCache
  import opened BufferOwnership
  import opened OwnershipProofs
  import opened CacheSteps
  import SS = StreamState

  // ---- what such runs promise ----

  ghost predicate DisjointPlanes(x: Buf, y: Buf) {
    forall i :: InPlanes(x.planes, i) ==> !InPlanes(y.planes, i)
  }

  /** A buffer is queued only into dma-bufs no other ACTIVE buffer lies in, and its submission
      does not fail. */
  ghost predicate Orderly(d: Dev, a: Action)
    requires Enabled(d, a)
  {
    a.Queue? ==>
      && !SubmitFails(d, a)
      && forall x :: x in d.bufs && d.bufs[x].vb == Active ==> DisjointPlanes(d.bufs[x], d.bufs[a.b])
  }

  /** The branch of buf_queue that keeps a returned buffer on the list: everything went well
      up to the submission, which failed. */
  predicate SubmitFails(d: Dev, a: Action)
    requires a.Queue? && a.b in d.bufs && d.bufs[a.b].sid in d.streams && |a.ws| == |d.bufs[a.b].planes|
  {
    var x := d.bufs[a.b];
    var strm := d.streams[x.sid];
    strm.state != SS.Error && !a.submitOk && GetIds(strm.cache, d.host, x.planes, x.qt, a.ws).3
  }

  ghost predicate OrderlyRun(d: Dev, run: seq<Action>, e: Dev)
    decreases |run|
  {
    if run == [] then d == e
    else Enabled(d, run[0]) && Orderly(d, run[0]) && OrderlyRun(Apply(d, run[0]), run[1..], e)
  }

  // ---- the invariant ----

  /** The pending list holds each ACTIVE buffer once and nothing else, and vb2 has never been
      handed back a buffer it had not given. */
  ghost predicate Tidy(d: Dev) {
    && NoDup(d.pending) && !d.warned
    && (forall b :: b in d.pending ==> b in d.bufs && d.bufs[b].vb == Active)
  }

  /** A pending buffer's stream is open and its id was issued for the first plane's dma-buf. */
  ghost predicate Known(d: Dev, b: nat) {
    && b in d.bufs && d.bufs[b].sid in d.streams && d.bufs[b].rid in d.host.issued
    && InPlanes(d.bufs[b].planes, d.host.issued[d.bufs[b].rid].inode)
  }

  ghost predicate AllKnown(d: Dev) {
    forall b :: b in d.pending ==> Known(d, b)
  }

  ghost predicate Apart(d: Dev) {
    forall a, b :: a in d.pending && b in d.pending && a != b && a in d.bufs && b in d.bufs ==> DisjointPlanes(d.bufs[a], d.bufs[b])
  }

  function CacheOf(d: Dev, s: nat): Cache
    requires s in d.streams
  {
    d.streams[s].cache
  }

  /** All caches agree with the host's table and no id is in two of them. */
  ghost predicate CachesSound(d: Dev) {
    && HostInv(d.host)
    && (forall s :: s in d.streams ==> Agree(CacheOf(d, s), d.host))
    && (forall s, t :: s in d.streams && t in d.streams && s != t ==> CacheOf(d, s).Ids() !! CacheOf(d, t).Ids())
  }

  /** No stream has the id cached. */
  ghost predicate Forgotten(d: Dev, id: nat) {
    forall s :: s in d.streams ==> id !in CacheOf(d, s).Ids()
  }

  /** Until streamoff the buffer's id is cached and in use; after it, no cache has it. */
  ghost predicate Covered(d: Dev, b: nat)
    requires Known(d, b)
  {
    var x := d.bufs[b];
    if x.covered then HasInUse(CacheOf(d, x.sid), x.rid, x.qt) else Forgotten(d, x.rid)
  }

  ghost predicate AllCovered(d: Dev) {
    forall b :: b in d.pending && Known(d, b) ==> Covered(d, b)
  }

  ghost predicate Good(d: Dev) {
    OwnedArePending(d) && Tidy(d) && AllKnown(d) && Apart(d) && CachesSound(d) && AllCovered(d)
  }

  // ---- consequences ----

  /** Two pending buffers never share an id. */
  lemma DistinctIds(d: Dev, a: nat, b: nat)
    requires AllKnown(d) && Apart(d) && a in d.pending && b in d.pending && a != b
    ensures d.bufs[a].rid != d.bufs[b].rid
  {
    assert Known(d, a) && Known(d, b);
    assert DisjointPlanes(d.bufs[a], d.bufs[b]);
  }

  // ---- moving one stream's cache ----

  /** Only stream sid's cache and the host's table moved. */
  ghost predicate CacheMoved(d: Dev, e: Dev, sid: nat, dropped: set<nat>) {
    && sid in d.streams && e.streams.Keys == d.streams.Keys
    && (forall s :: s in d.streams && s != sid ==> CacheOf(e, s) == CacheOf(d, s))
    && CacheStep(CacheOf(d, sid), d.host, CacheOf(e, sid), e.host, dropped)
  }

  lemma MovedSound(d: Dev, e: Dev, sid: nat, dropped: set<nat>)
    requires CachesSound(d) && CacheMoved(d, e, sid, dropped)
    ensures CachesSound(e)
  {
    assert Agree(CacheOf(d, sid), d.host);
    forall s | s in e.streams
      ensures Agree(CacheOf(e, s), e.host)
    {
      // another stream's ids are not in the cache that moved, so they stay exported
    }
    forall s, t | s in e.streams && t in e.streams && s != t
      ensures CacheOf(e, s).Ids() !! CacheOf(e, t).Ids()
    {
      // an id that appears is new to the host
    }
  }

  // ---- steps that leave caches alone ----

  ghost predicate SameCaches(d: Dev, e: Dev) {
    && e.host == d.host && e.streams.Keys == d.streams.Keys
    && (forall s :: s in d.streams ==> CacheOf(e, s) == CacheOf(d, s))
  }

  lemma SameCachesSound(d: Dev, e: Dev)
    requires CachesSound(d) && SameCaches(d, e)
    ensures CachesSound(e)
  {
    hide Agree, HostInv, Cache.Ids;
  }

  lemma SameCachesAt(d: Dev, e: Dev, b: nat)
    requires Known(d, b) && Covered(d, b) && SameCaches(d, e) && b in e.bufs && e.bufs[b] == d.bufs[b]
    ensures Known(e, b) && Covered(e, b)
  {
    hide InPlanes, HasInUse, Cache.Ids;
  }

  /** Buffers only leave the list; those that stay are unchanged, and so are all caches. */
  ghost predicate Thins(d: Dev, e: Dev) {
    && SameCaches(d, e)
    && (forall b :: b in e.pending ==> b in d.pending && b in d.bufs && b in e.bufs && e.bufs[b] == d.bufs[b])
  }

  lemma ThinsKeeps(d: Dev, e: Dev)
    requires AllKnown(d) && Apart(d) && CachesSound(d) && AllCovered(d) && Thins(d, e)
    ensures AllKnown(e) && Apart(e) && CachesSound(e) && AllCovered(e)
  {
    hide DisjointPlanes, CachesSound, Known, Covered, SameCaches;
    SameCachesSound(d, e);
    forall b | b in e.pending
      ensures Known(e, b) && Covered(e, b)
    {
      assert Known(d, b) && Covered(d, b);
      SameCachesAt(d, e, b);
    }
  }

  lemma RemoveAtNoDup<T>(s: seq<T>, i: nat)
    requires NoDup(s) && i < |s|
    ensures NoDup(RemoveAt(s, i)) && s[i] !in RemoveAt(s, i)
    ensures forall x :: x in RemoveAt(s, i) ==> x in s
  {
    forall x | x in RemoveAt(s, i)
      ensures x in s
    {
      var j :| 0 <= j < |s| - 1 && RemoveAt(s, i)[j] == x;
      assert x == s[if j < i then j else j + 1];
    }
  }

  lemma {:induction false} ReleaseFromTidy(d: Dev, sid: nat, qt: QueueType, i: nat)
    requires Tidy(d) && i <= |d.pending|
    ensures Tidy(ReleaseFrom(d, sid, qt, i)) && Thins(d, ReleaseFrom(d, sid, qt, i))
    decreases |d.pending| - i
  {
    if i < |d.pending| {
      var b := d.pending[i];
      if Owned(d, b, sid, qt) && TestsActive(d.bufs[b].vb) {
        var d1 := VbDone(d.(pending := RemoveAt(d.pending, i)), b, Error);
        ReleaseFromTidy(d1, sid, qt, i);
      } else {
        ReleaseFromTidy(d, sid, qt, i + 1);
      }
    }
  }

  lemma HandleErrorTidy(d: Dev, sid: nat)
    requires Tidy(d)
    ensures Tidy(HandleError(d, sid)) && Thins(d, HandleError(d, sid))
  {
    var d1 := Release(d, sid, InputMeta);
    var d2 := Release(d1, sid, OutputMeta);
    var d3 := Release(d2, sid, Input);
    ReleaseFromTidy(d, sid, InputMeta, 0);
    ReleaseFromTidy(d1, sid, OutputMeta, 0);
    ReleaseFromTidy(d2, sid, Input, 0);
    ReleaseFromTidy(d3, sid, Output, 0);
  }

  lemma ReleasePairTidy(d: Dev, sid: nat, q: QueueType)
    requires Tidy(d)
    ensures Tidy(ReleasePair(d, sid, q)) && Thins(d, ReleasePair(d, sid, q))
  {
    var d1 := if IsData(q) then Release(d, sid, Meta(q)) else d;
    ReleaseFromTidy(d, sid, Meta(q), 0);
    ReleaseFromTidy(d1, sid, q, 0);
  }

  lemma ReturnByRidTidy(d: Dev, rid: nat, failed: bool, eos: bool)
    requires Tidy(d)
    ensures var e := ReturnByRid(d, rid, failed, eos); Tidy(e) && Thins(d, e)
  {
    var i := FirstWithRid(d, rid, 0);
    if i < |d.pending| {
      RemoveAtNoDup(d.pending, i);
      var b := d.pending[i];
      var d2 := d.(pending := RemoveAt(d.pending, i)).WithBuf(b, d.bufs[b].(queued := false));
      ReturnedTidy(d, if eos then d2.SetState(d.bufs[b].sid, SS.Stopped) else d2, b, if failed then Error else Done);
    }
  }

  /** b has been taken off the list and is still ACTIVE. */
  lemma ReturnedTidy(d: Dev, d2: Dev, b: nat, st: VbState)
    requires Tidy(d) && NoDup(d2.pending) && b in d.pending && b !in d2.pending && !d2.warned && SameCaches(d, d2)
    requires forall x :: x in d2.pending ==> x in d.pending
    requires b in d2.bufs && d2.bufs == d.bufs[b := d2.bufs[b]] && d2.bufs[b].vb == Active
    ensures Tidy(VbDone(d2, b, st)) && Thins(d, VbDone(d2, b, st))
  {
    hide NoDup;
  }

  /** After a completion no pending buffer has the completed id. */
  lemma ReturnedRidGone(d: Dev, rid: nat, failed: bool, eos: bool, b: nat)
    requires Tidy(d) && AllKnown(d) && Apart(d) && b in ReturnByRid(d, rid, failed, eos).pending
    ensures b in d.bufs && d.bufs[b].rid != rid
  {
    ReturnByRidTidy(d, rid, failed, eos);
    var i := FirstWithRid(d, rid, 0);
    if i < |d.pending| {
      RemoveAtNoDup(d.pending, i);
      DistinctIds(d, d.pending[i], b);
    }
  }

  // ---- the actions ----

  lemma CompletionGood(d: Dev, a: Action)
    requires a.Completion? && Good(d) && Enabled(d, a)
    ensures Good(Apply(d, a))
  {
    hide ReturnByRid, PutId, Cleanup, CacheStep, AllCovered, OwnedArePending;
    var d1 := ReturnByRid(d, a.rid, a.failed, a.eos);
    ReturnByRidTidy(d, a.rid, a.failed, a.eos);
    ReturnByRidOwned(d, a.rid, a.failed, a.eos);
    ThinsKeeps(d, d1);
    var (c, h) := PutId(d1.streams[a.sid].cache, d1.host, a.rid, false, a.stuck);
    var (c1, h1) := Cleanup(c, h, a.erased, a.stuck);
    assert Agree(CacheOf(d1, a.sid), d1.host);
    UnmarkStep(CacheOf(d1, a.sid), d1.host, a.rid, a.erased, a.stuck);
    forall b | b in d1.pending
      ensures d1.bufs[b].rid != a.rid
    {
      ReturnedRidGone(d, a.rid, a.failed, a.eos, b);
    }
    WithCacheGood(d1, a.sid, c1, h1, {a.rid});
  }

  /** The cache's part of a completion. */
  lemma UnmarkStep(c: Cache, h: Host, rid: nat, erased: seq<nat>, stuck: set<nat>)
    requires Agree(c, h)
    ensures var (c1, h1) := PutId(c, h, rid, false, stuck);
            var (c2, h2) := Cleanup(c1, h1, erased, stuck);
            CacheStep(c, h, c2, h2, {rid})
  {
    hide PutId, Cleanup;
    var (c1, h1) := PutId(c, h, rid, false, stuck);
    PutIdStep(c, h, rid, false, stuck);
    CleanupStep(c1, h1, erased, stuck);
  }

  lemma MovedKeepsAt(d: Dev, e: Dev, sid: nat, dropped: set<nat>, b: nat)
    requires CacheMoved(d, e, sid, dropped) && e.bufs == d.bufs && Known(d, b) && Covered(d, b)
    requires d.bufs[b].sid == sid ==> d.bufs[b].rid !in dropped
    ensures Known(e, b) && Covered(e, b)
  {
    hide InPlanes;
  }

  lemma WithCacheGood(d: Dev, sid: nat, c: Cache, h: Host, dropped: set<nat>)
    requires Good(d) && sid in d.streams && CacheStep(CacheOf(d, sid), d.host, c, h, dropped)
    requires forall b :: b in d.pending && d.bufs[b].sid == sid ==> d.bufs[b].rid !in dropped
    ensures Good(d.WithCache(sid, c, h))
  {
    hide CacheStep, CachesSound, Known, Covered, DisjointPlanes;
    var e := d.WithCache(sid, c, h);
    assert CacheMoved(d, e, sid, dropped);
    MovedSound(d, e, sid, dropped);
    forall b | b in e.pending
      ensures Known(e, b) && Covered(e, b)
    {
      assert Known(d, b) && Covered(d, b);
      MovedKeepsAt(d, e, sid, dropped, b);
    }
    assert Apart(e);
  }

  /** Releasing a queue type: its pending buffers are no longer covered, the others stay. */
  lemma PutTypeGood(d: Dev, sid: nat, q: QueueType, stuck: set<nat>)
    requires Good(d) && sid in d.streams
    ensures Good(PutType(d, sid, q, stuck))
  {
    var c := d.streams[sid].cache;
    var (c1, h1) := PutTypeFrom(c, d.host, q, stuck, 0);
    PutTypeStep(c, d.host, q, stuck);
    var e := PutType(d, sid, q, stuck);
    PutTypeOwned(d, sid, q, stuck);
    PutTypeKept(d, e, sid, q, c1, h1);
  }

  /** What releasing queue type q of stream sid does to the buffers. */
  ghost predicate OnlyUncovers(d: Dev, e: Dev, sid: nat, q: QueueType) {
    && e.pending == d.pending && e.warned == d.warned
    && (forall b :: b in d.bufs ==> b in e.bufs && e.bufs[b] == if Owned(d, b, sid, q) then d.bufs[b].(covered := false) else d.bufs[b])
  }

  lemma PutTypeKept(d: Dev, e: Dev, sid: nat, q: QueueType, c1: Cache, h1: Host)
    requires CachesSound(d) && AllKnown(d) && AllCovered(d) && sid in d.streams
    requires CacheStep(CacheOf(d, sid), d.host, c1, h1, IdsOfType(CacheOf(d, sid), q))
    requires c1.Ids() == CacheOf(d, sid).Ids() - IdsOfType(CacheOf(d, sid), q)
    requires e == d.WithCache(sid, c1, h1).(bufs := Uncover(d.bufs, sid, q))
    ensures CachesSound(e) && AllKnown(e) && AllCovered(e) && OnlyUncovers(d, e, sid, q)
  {
    hide CacheStep, CachesSound, Covered, Known, IdsOfType;
    var dropped := IdsOfType(CacheOf(d, sid), q);
    assert CacheMoved(d, e, sid, dropped);
    MovedSound(d, e, sid, dropped);
    assert OnlyUncovers(d, e, sid, q);
    forall b | b in e.pending
      ensures Known(e, b) && Covered(e, b)
    {
      PutTypeKeptAt(d, e, sid, q, b);
    }
  }

  lemma PutTypeKeptAt(d: Dev, e: Dev, sid: nat, q: QueueType, b: nat)
    requires CachesSound(d) && AllKnown(d) && AllCovered(d) && b in d.pending && sid in d.streams
    requires CacheMoved(d, e, sid, IdsOfType(CacheOf(d, sid), q)) && OnlyUncovers(d, e, sid, q)
    requires CacheOf(e, sid).Ids() == CacheOf(d, sid).Ids() - IdsOfType(CacheOf(d, sid), q)
    ensures Known(e, b) && Covered(e, b)
  {
    assert Known(d, b) && Covered(d, b);
    if Owned(d, b, sid, q) {
      assert Forgotten(e, d.bufs[b].rid);
    } else {
      NotOfType(d, sid, q, b);
    }
  }

  lemma NotOfType(d: Dev, sid: nat, q: QueueType, b: nat)
    requires CachesSound(d) && Known(d, b) && Covered(d, b) && !Owned(d, b, sid, q)
    ensures d.bufs[b].sid == sid ==> d.bufs[b].rid !in IdsOfType(CacheOf(d, sid), q)
  {
    if d.bufs[b].sid == sid && d.bufs[b].covered {
      var c := CacheOf(d, sid);
      var e :| e in c.entries && e.id == d.bufs[b].rid && e.queueType == d.bufs[b].qt;
      forall k | 0 <= k < |c.entries| && c.entries[k].id == d.bufs[b].rid
        ensures c.entries[k].queueType != q
      {
        SameEntryById(c, e, c.entries[k]);
      }
    } else if d.bufs[b].sid == sid {
      assert IdsOfType(CacheOf(d, sid), q) <= CacheOf(d, sid).Ids();
    }
  }

  lemma StopGood(d: Dev, sid: nat, q: QueueType, offOk: bool, stuck: set<nat>)
    requires Good(d) && sid in d.streams
    ensures Good(StopStreaming(d, sid, q, offOk, stuck))
  {
    hide Apart, CachesSound, AllCovered, Known, PutTypeFrom;
    if d.State(sid) == SS.Error {
      ReleasePairOwned(d, sid, q);
      ReleasePairTidy(d, sid, q);
      ThinsKeeps(d, ReleasePair(d, sid, q));
    } else if IsData(q) {
      var d1 := if offOk then d else d.SetState(sid, SS.Error);
      ThinsKeeps(d, d1);
      var d2 := PutType(d1, sid, q, stuck);
      PutTypeGood(d1, sid, q, stuck);
      PutTypeGood(d2, sid, Meta(q), stuck);
      var d3 := PutType(d2, sid, Meta(q), stuck);
      ReleasePairOwned(d3, sid, q);
      ReleasePairTidy(d3, sid, q);
      ThinsKeeps(d3, ReleasePair(d3, sid, q));
    }
  }

  lemma ErrorGood(d: Dev, sid: nat)
    requires Good(d) && sid in d.streams
    ensures Good(ErrorEvent(d, sid))
  {
    var d1 := d.SetState(sid, SS.Error);
    ThinsKeeps(d, d1);
    ErrorOwned(d1, sid);
    HandleErrorTidy(d1, sid);
    ThinsKeeps(d1, HandleError(d1, sid));
  }

  // ---- buf_queue ----

  /** Buffer b alone changes, and it does not count as pending before. */
  ghost predicate OnlyTouches(d: Dev, e: Dev, b: nat) {
    && SameCaches(d, e) && b in e.bufs && e.bufs == d.bufs[b := e.bufs[b]] && b !in d.pending
    && (forall x :: x in e.pending ==> x in d.pending || x == b)
  }

  lemma OthersStay(d: Dev, e: Dev, b: nat)
    requires AllKnown(d) && AllCovered(d) && CachesSound(d) && OnlyTouches(d, e, b)
    ensures CachesSound(e)
    ensures forall x :: x in e.pending && x != b ==> Known(e, x) && Covered(e, x)
  {
    hide CachesSound, Covered, SameCaches;
    SameCachesSound(d, e);
    forall x | x in e.pending && x != b
      ensures Known(e, x) && Covered(e, x)
    {
      assert Known(d, x) && Covered(d, x);
      SameCachesAt(d, e, x);
    }
  }

  lemma ApartStays(d: Dev, e: Dev, b: nat)
    requires Apart(d) && OnlyTouches(d, e, b) && b !in e.pending
    ensures Apart(e)
  {
    hide DisjointPlanes, SameCaches;
    forall x, y | x in e.pending && y in e.pending && x != y && x in e.bufs && y in e.bufs
      ensures DisjointPlanes(e.bufs[x], e.bufs[y])
    {
      assert DisjointPlanes(d.bufs[x], d.bufs[y]);
    }
  }

  lemma BounceTidy(d: Dev, e: Dev, b: nat)
    requires OwnedArePending(d) && Tidy(d) && b in d.bufs && d.bufs[b].vb != Active && b !in d.pending
    requires e.pending == d.pending && e.warned == d.warned && b in e.bufs && e.bufs == d.bufs[b := e.bufs[b]] && e.bufs[b].vb != Active
    requires e.taken == d.taken + multiset{b} && e.given == d.given + multiset{b}
    ensures OwnedArePending(e) && Tidy(e)
  {
  }

  /** A buffer that goes to the driver and straight back. */
  lemma BounceGood(d: Dev, b: nat)
    requires Good(d) && b in d.bufs && d.bufs[b].vb == Dequeued
    ensures Good(VbDone(HandOver(d, b), b, Error))
  {
    hide CachesSound, AllKnown, AllCovered, Apart;
    var e := VbDone(HandOver(d, b), b, Error);
    assert b !in d.pending;
    BounceTidy(d, e, b);
    assert OnlyTouches(d, e, b);
    OthersStay(d, e, b);
    ApartStays(d, e, b);
    AllAsKnown(e);
  }

  lemma AllAsKnown(e: Dev)
    requires forall x :: x in e.pending ==> Known(e, x) && Covered(e, x)
    ensures AllKnown(e) && AllCovered(e)
  {
    hide Known, Covered;
  }

  lemma AcceptGood(d: Dev, b: nat, rid: nat)
    requires Good(d) && b in d.bufs && d.bufs[b].vb == Dequeued && d.bufs[b].sid in d.streams
    requires rid in d.host.issued && InPlanes(d.bufs[b].planes, d.host.issued[rid].inode)
    requires HasInUse(CacheOf(d, d.bufs[b].sid), rid, d.bufs[b].qt)
    requires forall x :: x in d.pending && x in d.bufs ==> DisjointPlanes(d.bufs[x], d.bufs[b])
    ensures Good(PutOnList(HandOver(d, b), b, rid))
  {
    hide CachesSound, AllKnown, AllCovered, Apart, DisjointPlanes, InPlanes, HasInUse;
    var e := PutOnList(HandOver(d, b), b, rid);
    assert b !in d.pending;
    AcceptTidy(d, e, b);
    assert SameCaches(d, e);
    AcceptKeepsRest(d, e, b);
    AcceptedAt(d, e, b, rid);
    AllAsKnown(e);
  }

  lemma AcceptKeepsRest(d: Dev, e: Dev, b: nat)
    requires Apart(d) && AllKnown(d) && AllCovered(d) && CachesSound(d) && SameCaches(d, e)
    requires b in d.bufs && b in e.bufs && e.pending == d.pending + [b] && e.bufs == d.bufs[b := e.bufs[b]]
    requires e.bufs[b].planes == d.bufs[b].planes && b !in d.pending
    requires forall x :: x in d.pending && x in d.bufs ==> DisjointPlanes(d.bufs[x], d.bufs[b])
    ensures Apart(e) && CachesSound(e)
    ensures forall x :: x in e.pending && x != b ==> Known(e, x) && Covered(e, x)
  {
    hide CachesSound, AllKnown, AllCovered, Apart, DisjointPlanes, SameCaches, Known, Covered;
    AcceptApart(d, e, b);
    assert OnlyTouches(d, e, b);
    OthersStay(d, e, b);
  }

  lemma AcceptedAt(d: Dev, e: Dev, b: nat, rid: nat)
    requires b in d.bufs && d.bufs[b].sid in d.streams && SameCaches(d, e)
    requires rid in d.host.issued && InPlanes(d.bufs[b].planes, d.host.issued[rid].inode)
    requires HasInUse(CacheOf(d, d.bufs[b].sid), rid, d.bufs[b].qt)
    requires b in e.bufs && e.bufs[b].sid == d.bufs[b].sid && e.bufs[b].qt == d.bufs[b].qt && e.bufs[b].planes == d.bufs[b].planes
    requires e.bufs[b].rid == rid && e.bufs[b].covered
    ensures Known(e, b) && Covered(e, b)
  {
    hide HasInUse, InPlanes;
  }

  lemma AcceptApart(d: Dev, e: Dev, b: nat)
    requires Apart(d) && b in d.bufs && b in e.bufs && e.pending == d.pending + [b] && e.bufs == d.bufs[b := e.bufs[b]]
    requires e.bufs[b].planes == d.bufs[b].planes && b !in d.pending
    requires forall x :: x in d.pending && x in d.bufs ==> DisjointPlanes(d.bufs[x], d.bufs[b])
    ensures Apart(e)
  {
    forall x, y | x in e.pending && y in e.pending && x != y && x in e.bufs && y in e.bufs
      ensures DisjointPlanes(e.bufs[x], e.bufs[y])
    {
      if x == b { assert DisjointPlanes(d.bufs[y], d.bufs[b]); }
      else if y != b { assert DisjointPlanes(d.bufs[x], d.bufs[y]); }
    }
  }

  lemma AcceptTidy(d: Dev, e: Dev, b: nat)
    requires OwnedArePending(d) && Tidy(d) && b in d.bufs && d.bufs[b].vb == Dequeued && b !in d.pending
    requires e.pending == d.pending + [b] && e.warned == d.warned && b in e.bufs && e.bufs == d.bufs[b := e.bufs[b]] && e.bufs[b].vb == Active
    requires e.taken == d.taken + multiset{b} && e.given == d.given
    ensures OwnedArePending(e) && Tidy(e)
  {
  }

  /** What the plane loop is known to have done. */
  ghost predicate Obtained(d: Dev, b: nat, c: Cache, h: Host, ids: seq<nat>)
    requires b in d.bufs && d.bufs[b].sid in d.streams
  {
    && CacheStep(CacheOf(d, d.bufs[b].sid), d.host, c, h, {})
    && IdsFor(h, ids, d.bufs[b].planes)
    && (forall k :: 0 <= k < |ids| ==> HasInUse(c, ids[k], d.bufs[b].qt))
  }

  ghost predicate ApartFrom(d: Dev, b: nat)
    requires b in d.bufs
  {
    forall x :: x in d.pending && x in d.bufs ==> DisjointPlanes(d.bufs[x], d.bufs[b])
  }

  lemma QueueAcceptedGood(d: Dev, b: nat, c: Cache, h: Host, ids: seq<nat>)
    requires Good(d) && b in d.bufs && d.bufs[b].vb == Dequeued && d.bufs[b].sid in d.streams
    requires Obtained(d, b, c, h, ids) && ids != [] && ApartFrom(d, b)
    ensures Good(PutOnList(HandOver(d, b), b, ids[0]).WithCache(d.bufs[b].sid, c, h))
  {
    var sid := d.bufs[b].sid;
    WithCacheGood(d, sid, c, h, {});
    AcceptGood(d.WithCache(sid, c, h), b, ids[0]);
    assert PutOnList(HandOver(d, b), b, ids[0]).WithCache(sid, c, h) == PutOnList(HandOver(d.WithCache(sid, c, h), b), b, ids[0]);
  }

  lemma PutBackStep(d: Dev, b: nat, c: Cache, h: Host, ids: seq<nat>, stuck: set<nat>) returns (dropped: set<nat>)
    requires Good(d) && b in d.bufs && d.bufs[b].sid in d.streams
    requires Obtained(d, b, c, h, ids) && ApartFrom(d, b)
    ensures var (c1, h1) := PutIds(c, h, ids, stuck);
            CacheStep(CacheOf(d, d.bufs[b].sid), d.host, c1, h1, dropped)
    ensures forall y :: y in d.pending ==> d.bufs[y].rid !in dropped
  {
    dropped := set k | 0 <= k < |ids| :: ids[k];
    PutIdsStep(c, h, ids, stuck, dropped);
    forall y | y in d.pending
      ensures d.bufs[y].rid !in dropped
    {
      assert Known(d, y) && DisjointPlanes(d.bufs[y], d.bufs[b]);
    }
  }

  lemma QueueRefusedGood(d: Dev, b: nat, c: Cache, h: Host, ids: seq<nat>, stuck: set<nat>)
    requires Good(d) && b in d.bufs && d.bufs[b].vb == Dequeued && d.bufs[b].sid in d.streams
    requires Obtained(d, b, c, h, ids) && ApartFrom(d, b)
    ensures var (c1, h1) := PutIds(c, h, ids, stuck);
            Good(VbDone(HandOver(d, b).WithCache(d.bufs[b].sid, c1, h1), b, Error))
  {
    var (c1, h1) := PutIds(c, h, ids, stuck);
    var dropped := PutBackStep(d, b, c, h, ids, stuck);
    WithCacheGood(d, d.bufs[b].sid, c1, h1, dropped);
    BounceGood(d.WithCache(d.bufs[b].sid, c1, h1), b);
  }

  lemma QueueGood(d: Dev, a: Action)
    requires a.Queue? && Good(d) && Enabled(d, a) && Orderly(d, a)
    ensures Good(Apply(d, a))
  {
    var x := d.bufs[a.b];
    var strm := d.streams[x.sid];
    if strm.state == SS.Error {
      BounceGood(d, a.b);
    } else {
      var (c, h, ids, ok) := GetIds(strm.cache, d.host, x.planes, x.qt, a.ws);
      GetIdsStep(strm.cache, d.host, x.planes, x.qt, a.ws);
      if !ok {
        QueueRefusedGood(d, a.b, c, h, ids, a.stuck);
      } else {
        QueueAcceptedGood(d, a.b, c, h, ids);
      }
    }
  }

  // ---- opening and closing ----

  lemma CloseGood(d: Dev, sid: nat, stuck: set<nat>)
    requires Good(d) && Enabled(d, Close(sid, stuck))
    ensures Good(Apply(d, Close(sid, stuck)))
  {
    var e := Apply(d, Close(sid, stuck));
    var c := CacheOf(d, sid);
    DestroyUnexports(c, d.host, stuck);
    forall b | b in e.pending
      ensures Known(e, b) && Covered(e, b)
    {
      assert Known(d, b) && Covered(d, b);
    }
    forall s | s in e.streams
      ensures Agree(CacheOf(e, s), e.host)
    {
      // the closed stream's ids are in no other cache
    }
    forall a, b | a in e.pending && b in e.pending && a != b && a in e.bufs && b in e.bufs
      ensures DisjointPlanes(e.bufs[a], e.bufs[b])
    {
      assert DisjointPlanes(d.bufs[a], d.bufs[b]);
    }
  }

  /** A buffer the driver does not hold changes hands in user space, or is new. */
  lemma IdleBufGood(d: Dev, b: nat, x: Buf)
    requires Good(d) && b !in d.pending && x.vb != Active
    ensures Good(d.WithBuf(b, x))
  {
    hide CachesSound, AllKnown, AllCovered, Apart;
    var e := d.WithBuf(b, x);
    assert OnlyTouches(d, e, b);
    OthersStay(d, e, b);
    ApartStays(d, e, b);
    AllAsKnown(e);
    assert b in d.bufs ==> d.bufs[b].vb != Active;
  }

  /** Stream sid appears with an empty cache. */
  ghost predicate Opens(d: Dev, e: Dev, sid: nat) {
    && sid !in d.streams && e.streams.Keys == d.streams.Keys + {sid} && e.host == d.host
    && (forall s :: s in d.streams ==> CacheOf(e, s) == CacheOf(d, s))
    && CacheOf(e, sid) == Cache([], 0)
  }

  lemma OpensSound(d: Dev, e: Dev, sid: nat)
    requires CachesSound(d) && Opens(d, e, sid)
    ensures CachesSound(e)
  {
    hide HostInv;
    assert Cache([], 0).Ids() == {};
  }

  lemma OpensAt(d: Dev, e: Dev, sid: nat, b: nat)
    requires Known(d, b) && Covered(d, b) && Opens(d, e, sid) && b in e.bufs && e.bufs[b] == d.bufs[b]
    ensures Known(e, b) && Covered(e, b)
  {
    hide InPlanes, HasInUse;
    assert Cache([], 0).Ids() == {};
  }

  lemma OpenGood(d: Dev, sid: nat)
    requires Good(d) && Enabled(d, Open(sid))
    ensures Good(Apply(d, Open(sid)))
  {
    hide DisjointPlanes, CachesSound, Known, Covered;
    var e := Apply(d, Open(sid));
    assert Opens(d, e, sid);
    OpensSound(d, e, sid);
    forall y | y in e.pending
      ensures Known(e, y) && Covered(e, y)
    {
      assert Known(d, y) && Covered(d, y);
      OpensAt(d, e, sid, y);
    }
    assert Apart(e);
  }

  lemma StepGood(d: Dev, a: Action)
    requires Good(d) && Enabled(d, a) && Orderly(d, a)
    ensures Good(Apply(d, a))
  {
    hide AllKnown, Apart, CachesSound, AllCovered;
    match a
    case Open(sid) => OpenGood(d, sid);
    case NewBuf(b, sid, qt, planes) => IdleBufGood(d, b, Buf(sid, qt, planes, Dequeued, 0, false, false));
    case Queue(_, _, _, _) => QueueGood(d, a);
    case Completion(_, _, _, _, _, _) => CompletionGood(d, a);
    case ErrorOn(sid) => ErrorGood(d, sid);
    case CommandFailed(sid) =>
      ThinsKeeps(d, d.SetState(sid, SS.Error));
    case Stop(sid, q, offOk, stuck) => StopGood(d, sid, q, offOk, stuck);
    case Dequeue(b) => IdleBufGood(d, b, d.bufs[b].(vb := Dequeued));
    case Close(sid, stuck) => CloseGood(d, sid, stuck);
  }

  lemma {:induction false} GoodHolds(d: Dev, run: seq<Action>, e: Dev)
    requires Good(d) && OrderlyRun(d, run, e)
    ensures Good(e)
    decreases |run|
  {
    if run != [] {
      StepGood(d, run[0]);
      GoodHolds(Apply(d, run[0]), run[1..], e);
    }
  }
}

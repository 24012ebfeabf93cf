/** What stopping and closing a stream does: the exports given up, and what stays. */
module StreamOffEffects {
  import opened Sequences
  import opened ExportCache
  import opened BufferOwnership
  import opened OwnershipProofs
  import opened CacheSteps
  import opened CacheEffects
  import opened QueuedOnce
  import SS = StreamState

  /** The cached entries of a queue and of its meta queue. */
  ghost function PairEntries(c: Cache, q: QueueType): set<Entry> {
    OfQueueType(c, q) + OfQueueType(c, Meta(q))
  }

  /** The exports of the queue and its meta queue are given up; no buffer, list entry or other
      stream's cache changes. */
  ghost predicate GivesUpExports(d: Dev, e: Dev, sid: nat, q: QueueType, stuck: set<nat>) {
    && (e.pending, e.given, e.taken, e.warned) == (d.pending, d.given, d.taken, d.warned)
    && e.bufs.Keys == d.bufs.Keys
    && (forall b :: b in d.bufs ==> e.bufs[b] == d.bufs[b].(covered := e.bufs[b].covered))
    && sid in d.streams && e.streams.Keys == d.streams.Keys
    && (forall s :: s in d.streams && s != sid ==> e.streams[s] == d.streams[s])
    && Removes(CacheOf(d, sid), d.host, CacheOf(e, sid), e.host, PairEntries(CacheOf(d, sid), q), stuck)
  }

  lemma PutTypeGivesUp(d: Dev, sid: nat, q: QueueType, stuck: set<nat>)
    requires sid in d.streams && Agree(CacheOf(d, sid), d.host)
    ensures var e := PutType(d, sid, q, stuck);
            && (e.pending, e.given, e.taken, e.warned) == (d.pending, d.given, d.taken, d.warned)
            && e.bufs.Keys == d.bufs.Keys && (forall b :: b in d.bufs ==> e.bufs[b] == d.bufs[b].(covered := e.bufs[b].covered))
            && e.streams.Keys == d.streams.Keys && (forall s :: s in d.streams && s != sid ==> e.streams[s] == d.streams[s])
            && e.State(sid) == d.State(sid)
            && Removes(CacheOf(d, sid), d.host, CacheOf(e, sid), e.host, OfQueueType(CacheOf(d, sid), q), stuck)
            && Agree(CacheOf(e, sid), e.host)
  {
    PutTypeExact(CacheOf(d, sid), d.host, q, stuck, 0);
    PutTypeStep(CacheOf(d, sid), d.host, q, stuck);
    hide PutTypeFrom, Removes, Agree;
  }

  lemma PairGivesUp(d: Dev, sid: nat, q: QueueType, stuck: set<nat>)
    requires sid in d.streams && Agree(CacheOf(d, sid), d.host)
    ensures var e := PutType(PutType(d, sid, q, stuck), sid, Meta(q), stuck);
            GivesUpExports(d, e, sid, q, stuck) && e.State(sid) == d.State(sid)
  {
    var d1 := PutType(d, sid, q, stuck);
    var e := PutType(d1, sid, Meta(q), stuck);
    PutTypeGivesUp(d, sid, q, stuck);
    PutTypeGivesUp(d1, sid, Meta(q), stuck);
    var c, c1 := CacheOf(d, sid), CacheOf(d1, sid);
    RemovesJoin(c, d.host, c1, d1.host, CacheOf(e, sid), e.host, OfQueueType(c, q), OfQueueType(c1, Meta(q)), stuck);
    PairInTurn(c, d.host, c1, d1.host, q, stuck);
    hide PutType, Removes, Agree, OfQueueType;
  }

  lemma PairInTurn(c: Cache, h: Host, c1: Cache, h1: Host, q: QueueType, stuck: set<nat>)
    requires Removes(c, h, c1, h1, OfQueueType(c, q), stuck)
    ensures OfQueueType(c, q) + OfQueueType(c1, Meta(q)) == PairEntries(c, q)
  {
  }

  /** An accepted streamoff of a data queue gives up exactly the exports of the queue and its
      meta queue and leaves the buffers alone; of a meta queue it does nothing. */
  lemma StreamOffExact(d: Dev, sid: nat, q: QueueType, stuck: set<nat>)
    requires CachesSound(d) && Enabled(d, Stop(sid, q, true, stuck)) && d.State(sid) != SS.Error
    ensures var e := Apply(d, Stop(sid, q, true, stuck));
            if IsData(q) then GivesUpExports(d, e, sid, q, stuck) && e.State(sid) == d.State(sid) else e == d
  {
    PairGivesUp(d, sid, q, stuck);
    hide PutType, GivesUpExports, Release, CachesSound;
  }

  /** The stream is in ERROR, the exports are given up, and no buffer of the pair is ACTIVE. */
  ghost predicate FailsOff(d: Dev, e: Dev, sid: nat, q: QueueType, stuck: set<nat>) {
    && sid in d.streams && sid in e.streams && e.State(sid) == SS.Error
    && Removes(CacheOf(d, sid), d.host, CacheOf(e, sid), e.host, PairEntries(CacheOf(d, sid), q), stuck)
    && NoneActive(e, sid, q) && NoneActive(e, sid, Meta(q))
  }

  /** A streamoff command that fails gives the exports up just the same, puts the stream in
      ERROR and releases what the driver owns of the pair. */
  lemma FailedStreamOffExact(d: Dev, sid: nat, q: QueueType, stuck: set<nat>)
    requires CachesSound(d) && OwnedArePending(d) && sid in d.streams && d.State(sid) != SS.Error && IsData(q)
    ensures FailsOff(d, Apply(d, Stop(sid, q, false, stuck)), sid, q, stuck)
  {
    hide CachesSound, Agree, OwnedArePending, GivesUpExports;
    assert Agree(CacheOf(d, sid), d.host) by { StreamCacheAgrees(d, sid); }
    var d1 := d.SetState(sid, SS.Error);
    ErrorFirst(d, d1, sid);
    PairGivesUp(d1, sid, q, stuck);
    var d2 := PutType(d1, sid, q, stuck);
    PutTypeOwned(d1, sid, q, stuck);
    PutTypeOwned(d2, sid, Meta(q), stuck);
    var d3 := PutType(d2, sid, Meta(q), stuck);
    ReleasePairOwned(d3, sid, q);
    ReleasedAfter(d, d1, d3, ReleasePair(d3, sid, q), sid, q, stuck);
    FailedStopIs(d, sid, q, stuck);
    hide PutType, ReleasePair, StopStreaming, FailsOff;
  }

  lemma FailedStopIs(d: Dev, sid: nat, q: QueueType, stuck: set<nat>)
    requires sid in d.streams && d.State(sid) != SS.Error && IsData(q)
    ensures var d2 := PutType(d.SetState(sid, SS.Error), sid, q, stuck);
            sid in d2.streams && StopStreaming(d, sid, q, false, stuck) == ReleasePair(PutType(d2, sid, Meta(q), stuck), sid, q)
  {
    hide ReleaseFrom;
  }

  lemma StreamCacheAgrees(d: Dev, sid: nat)
    requires CachesSound(d) && sid in d.streams
    ensures Agree(CacheOf(d, sid), d.host)
  {
  }

  lemma ErrorFirst(d: Dev, d1: Dev, sid: nat)
    requires sid in d.streams && d1 == d.SetState(sid, SS.Error)
    ensures sid in d1.streams && CacheOf(d1, sid) == CacheOf(d, sid) && d1.host == d.host && d1.State(sid) == SS.Error
    ensures OwnedArePending(d) ==> OwnedArePending(d1)
  {
  }

  lemma ReleasedAfter(d: Dev, d1: Dev, d3: Dev, e: Dev, sid: nat, q: QueueType, stuck: set<nat>)
    requires sid in d.streams && sid in d1.streams && CacheOf(d1, sid) == CacheOf(d, sid) && d1.host == d.host && d1.State(sid) == SS.Error
    requires GivesUpExports(d1, d3, sid, q, stuck) && d3.State(sid) == d1.State(sid)
    requires OnlyReturns(d3, e, sid) && NoneActive(e, sid, q) && NoneActive(e, sid, Meta(q))
    ensures FailsOff(d, e, sid, q, stuck)
  {
    hide Removes, NoneActive;
  }

  /** Closing takes the stream and its buffers away, and at the host exactly the ids its cache
      held, as far as the host gives them up. */
  lemma CloseExact(d: Dev, sid: nat, stuck: set<nat>)
    requires CachesSound(d) && Enabled(d, Close(sid, stuck))
    ensures var e := Apply(d, Close(sid, stuck));
            && e.streams.Keys == d.streams.Keys - {sid} && (forall s :: s in e.streams ==> e.streams[s] == d.streams[s])
            && (forall b :: b in e.bufs <==> b in d.bufs && d.bufs[b].sid != sid) && (forall b :: b in e.bufs ==> e.bufs[b] == d.bufs[b])
            && (forall id :: id in e.host.table <==> id in d.host.table && (id in CacheOf(d, sid).Ids() ==> id in stuck))
            && (e.pending, e.given, e.taken, e.warned) == (d.pending, d.given, d.taken, d.warned)
  {
    DestroyUnexports(CacheOf(d, sid), d.host, stuck);
    hide DestroyAll, Agree, HostInv;
  }
}

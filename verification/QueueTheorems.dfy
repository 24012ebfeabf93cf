/** What vb2 and the host may rely on over every orderly run. */
module QueueTheorems {
  import opened Sequences
  import opened ExportCache
  import opened BufferOwnership
  import opened OwnershipProofs
  import opened CacheSteps
  import opened QueuedOnce

  lemma GoodFromStart(h: Host, run: seq<Action>, e: Dev)
    requires HostInv(h) && OrderlyRun(Start(h), run, e)
    ensures Good(e)
  {
    assert Good(Start(h));
    GoodHolds(Start(h), run, e);
  }

  /** A clean-up on the host's request leaves every pending buffer's id exported. */
  lemma CleanupSafe(d: Dev, b: nat, sid: nat, erased: seq<nat>, stuck: set<nat>)
    requires Good(d) && b in d.pending && sid in d.streams
    ensures Known(d, b)
    ensures var (c1, h1) := Cleanup(d.streams[sid].cache, d.host, erased, stuck);
            d.bufs[b].rid in d.host.table ==> d.bufs[b].rid in h1.table
  {
    assert Known(d, b) && Covered(d, b);
    var x := d.bufs[b];
    var (c1, h1) := Cleanup(d.streams[sid].cache, d.host, erased, stuck);
    CleanupStep(d.streams[sid].cache, d.host, erased, stuck);
    if x.rid in CacheOf(d, sid).Ids() {
      var e :| e in CacheOf(d, x.sid).entries && e.id == x.rid && e.inUse;
      EntryId(CacheOf(d, x.sid), e);
      assert x.sid == sid;
      assert e in c1.entries;
    }
  }

  /** The ownership theorem. Whatever the host, the user and the error paths do, the list and
      the ACTIVE buffers agree, every hand-over has been answered by exactly one return unless
      the buffer is still on the list, and no two buffers on it share an id. */
  lemma EachQueuedBufferReturnedOnce(h: Host, run: seq<Action>, e: Dev)
    requires HostInv(h) && OrderlyRun(Start(h), run, e)
    ensures NoDup(e.pending) && !e.warned
    ensures forall b :: b in e.pending <==> b in e.bufs && e.bufs[b].vb == Active
    ensures forall b :: e.taken[b] == e.given[b] + if b in e.pending then 1 else 0
    ensures forall a, b :: a in e.pending && b in e.pending && a != b ==> e.bufs[a].rid != e.bufs[b].rid
  {
    GoodFromStart(h, run, e);
    forall a, b | a in e.pending && b in e.pending && a != b
      ensures e.bufs[a].rid != e.bufs[b].rid
    {
      DistinctIds(e, a, b);
    }
  }

  /** Nothing a completion does, its clean-up included, unexports an id that a buffer still
      pending afterwards uses. */
  lemma CompletionKeepsExports(h: Host, run: seq<Action>, d: Dev, a: Action, b: nat)
    requires HostInv(h) && OrderlyRun(Start(h), run, d) && a.Completion? && Enabled(d, a)
    requires b in Apply(d, a).pending && b in d.bufs && d.bufs[b].rid in d.host.table
    ensures d.bufs[b].rid in Apply(d, a).host.table
  {
    hide ReturnByRid, PutId, Cleanup, CachesSound, AllCovered, OwnedArePending;
    GoodFromStart(h, run, d);
    var d1 := ReturnByRid(d, a.rid, a.failed, a.eos);
    ReturnByRidTidy(d, a.rid, a.failed, a.eos);
    ReturnByRidOwned(d, a.rid, a.failed, a.eos);
    ThinsKeeps(d, d1);
    ReturnedKeepsExports(d, d1, a, b);
  }

  lemma ReturnedKeepsExports(d: Dev, d1: Dev, a: Action, b: nat)
    requires Good(d) && Good(d1) && a.Completion? && d1 == ReturnByRid(d, a.rid, a.failed, a.eos) && a.sid in d1.streams
    requires b in d1.pending && b in d1.bufs && d1.bufs[b].rid in d1.host.table
    ensures var (c, h) := PutId(d1.streams[a.sid].cache, d1.host, a.rid, false, a.stuck);
            d1.bufs[b].rid in Cleanup(c, h, a.erased, a.stuck).1.table
  {
    hide ReturnByRid, PutId, Cleanup, CachesSound, AllCovered, OwnedArePending;
    ReturnByRidTidy(d, a.rid, a.failed, a.eos);
    forall x | x in d1.pending
      ensures d1.bufs[x].rid != a.rid
    {
      ReturnedRidGone(d, a.rid, a.failed, a.eos, x);
    }
    UnmarkedKeepsExports(d1, a.sid, a.rid, a.erased, a.stuck, b);
  }

  lemma UnmarkedKeepsExports(d: Dev, sid: nat, rid: nat, erased: seq<nat>, stuck: set<nat>, b: nat)
    requires Good(d) && sid in d.streams && b in d.pending && d.bufs[b].rid in d.host.table
    requires forall x :: x in d.pending ==> d.bufs[x].rid != rid
    ensures var (c, h) := PutId(d.streams[sid].cache, d.host, rid, false, stuck);
            d.bufs[b].rid in Cleanup(c, h, erased, stuck).1.table
  {
    var (c, h) := PutId(d.streams[sid].cache, d.host, rid, false, stuck);
    PutIdStep(d.streams[sid].cache, d.host, rid, false, stuck);
    assert h == d.host;
    WithCacheGood(d, sid, c, h, {rid});
    var e := d.WithCache(sid, c, h);
    CleanupSafe(e, b, sid, erased, stuck);
  }

  /** The exact condition: in a state the theorem describes, queueing a buffer leaves a
      returned buffer on the list if and only if its submission is what failed. */
  lemma SubmitFailureIsTheOnlyLeftover(d: Dev, a: Action)
    requires Good(d) && a.Queue? && Enabled(d, a)
    requires forall x :: x in d.bufs && d.bufs[x].vb == Active ==> DisjointPlanes(d.bufs[x], d.bufs[a.b])
    ensures Tidy(Apply(d, a)) <==> !SubmitFails(d, a)
  {
    hide CachesSound, AllCovered, AllKnown, Apart, GetIdsAllowed, DisjointPlanes;
    if SubmitFails(d, a) {
      SubmitFailureLeaves(d, a);
    } else {
      QueueGood(d, a);
    }
  }

  lemma SubmitFailureLeaves(d: Dev, a: Action)
    requires a.Queue? && Enabled(d, a) && SubmitFails(d, a)
    ensures !Tidy(Apply(d, a))
  {
    hide GetIds, PutIds, GetIdsAllowed;
    var e := Apply(d, a);
    QueueHasOutcome(d, a.b, a.ws, a.submitOk, a.stuck);
    assert e.State(d.bufs[a.b].sid) == SS.Error != d.State(d.bufs[a.b].sid);
    assert e.pending[|d.pending|] == a.b;
  }
}

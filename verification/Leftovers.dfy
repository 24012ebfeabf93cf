/** Entries of the pending list whose buffer vb2 already has back: how they come about, and when
    one outlives its queue. Over every run, with no assumption on the order of calls. */
module Leftovers {
  import opened Sequences
  import opened ExportCache
  import opened BufferOwnership
  import opened OwnershipProofs
  import opened QueuedOnce
  import SS = StreamState

  /** On the list, though the buffer is not ACTIVE. */
  ghost predicate Leftover(d: Dev, b: nat) {
    b in d.pending && b in d.bufs && d.bufs[b].vb != Active
  }

  /** On the list, though the buffer is gone: the next walk reads released memory. */
  ghost predicate Dangles(d: Dev, b: nat) {
    b in d.pending && b !in d.bufs
  }

  ghost predicate Listing(d: Dev) {
    && NoDup(d.pending)
    && (forall b :: b in d.bufs ==> d.bufs[b].sid in d.streams)
    && (forall b :: Leftover(d, b) ==> d.State(d.bufs[b].sid) == SS.Error)
  }

  /** Entries only leave the list, the buffers of those that stay are as they were, and a
      stream in ERROR stays in it. */
  ghost predicate Returns(d: Dev, e: Dev) {
    && (NoDup(d.pending) ==> NoDup(e.pending)) && (forall b :: b in e.pending ==> b in d.pending)
    && e.bufs.Keys == d.bufs.Keys && e.streams.Keys == d.streams.Keys
    && (forall b :: b in d.bufs ==> e.bufs[b].sid == d.bufs[b].sid)
    && (NoDup(d.pending) ==> forall b :: b in e.pending && b in d.bufs ==> e.bufs[b].vb == d.bufs[b].vb)
    && (forall s :: s in d.streams && d.State(s) == SS.Error ==> e.State(s) == SS.Error)
  }

  lemma ReturnsJoin(d: Dev, e: Dev, f: Dev)
    requires Returns(d, e) && Returns(e, f)
    ensures Returns(d, f)
  {
    hide NoDup;
  }

  lemma ReturnsKeeps(d: Dev, e: Dev)
    requires Listing(d) && Returns(d, e)
    ensures Listing(e)
    ensures forall b :: Leftover(e, b) ==> Leftover(d, b)
    ensures forall b :: Dangles(e, b) ==> Dangles(d, b)
  {
    hide NoDup;
    forall b | Leftover(e, b)
      ensures Leftover(d, b) && e.State(e.bufs[b].sid) == SS.Error
    {
      assert Leftover(d, b);
    }
  }

  /** Taking entry i off the list and giving its buffer back. */
  lemma GiveBackReturns(d: Dev, d2: Dev, i: nat, st: VbState)
    requires i < |d.pending| && d2.pending == RemoveAt(d.pending, i) && d2.bufs.Keys == d.bufs.Keys && d2.streams.Keys == d.streams.Keys
    requires forall b :: b in d.bufs ==> d2.bufs[b].sid == d.bufs[b].sid && d2.bufs[b].vb == d.bufs[b].vb
    requires forall s :: s in d.streams && d.State(s) == SS.Error ==> d2.State(s) == SS.Error
    requires d.pending[i] in d.bufs
    ensures Returns(d, VbDone(d2, d.pending[i], st))
  {
    hide NoDup, RemoveAt;
    var b, l := d.pending[i], d2.pending;
    RemovedFrom(d.pending, i);
    var e := VbDone(d2, b, st);
    assert e.pending == l && e.streams == d2.streams && e.bufs.Keys == d2.bufs.Keys;
    assert forall x :: x in d.bufs && x != b ==> e.bufs[x] == d2.bufs[x];
    assert e.bufs[b].sid == d2.bufs[b].sid;
  }

  lemma RemovedFrom<T>(s: seq<T>, i: nat)
    requires i < |s|
    ensures forall x :: x in RemoveAt(s, i) ==> x in s
    ensures NoDup(s) ==> NoDup(RemoveAt(s, i)) && s[i] !in RemoveAt(s, i)
  {
    if NoDup(s) { RemoveAtNoDup(s, i); }
    forall x | x in RemoveAt(s, i)
      ensures x in s
    {
      var j :| 0 <= j < |s| - 1 && RemoveAt(s, i)[j] == x;
      assert x == s[if j < i then j else j + 1];
    }
  }

  lemma NothingReturns(d: Dev)
    ensures Returns(d, d)
  {
  }

  lemma {:induction false} ReleaseFromReturns(d: Dev, sid: nat, qt: QueueType, i: nat)
    requires i <= |d.pending|
    ensures Returns(d, ReleaseFrom(d, sid, qt, i))
    decreases |d.pending| - i
  {
    hide Returns;
    if i == |d.pending| {
      NothingReturns(d);
    } else {
      var b := d.pending[i];
      if Owned(d, b, sid, qt) && TestsActive(d.bufs[b].vb) {
        var d1 := d.(pending := RemoveAt(d.pending, i));
        GiveBackReturns(d, d1, i, Error);
        ReleaseFromReturns(VbDone(d1, b, Error), sid, qt, i);
        ReturnsJoin(d, VbDone(d1, b, Error), ReleaseFrom(d, sid, qt, i));
      } else {
        ReleaseFromReturns(d, sid, qt, i + 1);
      }
    }
  }

  lemma ReturnByRidReturns(d: Dev, rid: nat, failed: bool, eos: bool)
    ensures Returns(d, ReturnByRid(d, rid, failed, eos))
  {
    hide Returns;
    NothingReturns(d);
    var i := FirstWithRid(d, rid, 0);
    if i < |d.pending| {
      var b := d.pending[i];
      var d2 := d.(pending := RemoveAt(d.pending, i)).WithBuf(b, d.bufs[b].(queued := false));
      GiveBackReturns(d, if eos then d2.SetState(d.bufs[b].sid, SS.Stopped) else d2, i, if failed then Error else Done);
    }
  }

  lemma CacheReturns(d: Dev, sid: nat, c: Cache, h: Host)
    requires sid in d.streams
    ensures Returns(d, d.WithCache(sid, c, h))
  {
    hide NoDup;
  }

  lemma StateReturns(d: Dev, sid: nat, n: SS.State)
    ensures Returns(d, d.SetState(sid, n))
  {
    hide NoDup;
  }

  lemma PutTypeReturns(d: Dev, sid: nat, q: QueueType, stuck: set<nat>)
    requires sid in d.streams
    ensures Returns(d, PutType(d, sid, q, stuck))
  {
    hide NoDup, PutTypeFrom;
  }

  lemma ReleasePairReturns(d: Dev, sid: nat, q: QueueType, r: QueueType)
    ensures Returns(d, Release(Release(d, sid, q), sid, r))
  {
    ReleaseFromReturns(d, sid, q, 0);
    ReleaseFromReturns(Release(d, sid, q), sid, r, 0);
    ReturnsJoin(d, Release(d, sid, q), Release(Release(d, sid, q), sid, r));
  }

  lemma ErrorReturns(d: Dev, sid: nat)
    ensures Returns(d, ErrorEvent(d, sid))
  {
    hide Returns, ReleaseFrom;
    var d1 := d.SetState(sid, SS.Error);
    var d2 := Release(Release(d1, sid, InputMeta), sid, OutputMeta);
    StateReturns(d, sid, SS.Error);
    ReleasePairReturns(d1, sid, InputMeta, OutputMeta);
    ReleasePairReturns(d2, sid, Input, Output);
    ReturnsJoin(d, d1, d2);
    ReturnsJoin(d, d2, HandleError(d1, sid));
  }

  lemma StopReturns(d: Dev, sid: nat, q: QueueType, offOk: bool, stuck: set<nat>)
    requires sid in d.streams
    ensures Returns(d, StopStreaming(d, sid, q, offOk, stuck))
  {
    hide Returns, ReleaseFrom;
    NothingReturns(d);
    ReleasePairReturns(d, sid, Meta(q), q);
    ReleaseFromReturns(d, sid, q, 0);
    if d.State(sid) != SS.Error && IsData(q) {
      StateReturns(d, sid, SS.Error);
      var d1 := if offOk then d else d.SetState(sid, SS.Error);
      var d2 := PutType(d1, sid, q, stuck);
      PutTypeReturns(d1, sid, q, stuck);
      PutTypeReturns(d2, sid, Meta(q), stuck);
      var d3 := PutType(d2, sid, Meta(q), stuck);
      ReleasePairReturns(d3, sid, Meta(q), q);
      ReturnsJoin(d, d1, d2);
      ReturnsJoin(d, d2, d3);
      ReturnsJoin(d, d3, Release(Release(d3, sid, Meta(q)), sid, q));
    }
  }

  lemma CompletionReturns(d: Dev, a: Action)
    requires a.Completion? && Enabled(d, a)
    ensures Returns(d, Apply(d, a))
  {
    hide Returns, ReturnByRid, PutId, Cleanup;
    var d1 := ReturnByRid(d, a.rid, a.failed, a.eos);
    ReturnByRidReturns(d, a.rid, a.failed, a.eos);
    var (c, h) := PutId(d1.streams[a.sid].cache, d1.host, a.rid, false, a.stuck);
    var (c1, h1) := Cleanup(c, h, a.erased, a.stuck);
    CacheReturns(d1, a.sid, c1, h1);
    ReturnsJoin(d, d1, d1.WithCache(a.sid, c1, h1));
  }

  // ---- queueing ----

  /** Which of the three ways a queued buffer goes is decided by the submission. */
  lemma QueueWay(d: Dev, a: Action)
    requires a.Queue? && Enabled(d, a)
    ensures var e, sid := Apply(d, a), d.bufs[a.b].sid;
            if SubmitFails(d, a)
            then e.pending == d.pending + [a.b] && e.bufs[a.b].vb == Error && d.State(sid) != SS.Error == e.State(sid)
            else e.State(sid) == d.State(sid) &&
                 ((e.bufs[a.b].vb == Error && e.pending == d.pending) ||
                  (e.bufs[a.b].vb == Active && e.pending == d.pending + [a.b] && d.State(sid) != SS.Error))
    ensures QueueOutcome(d, Apply(d, a), a.b)
  {
    hide GetIds, PutIds, GetIdsAllowed;
    QueueHasOutcome(d, a.b, a.ws, a.submitOk, a.stuck);
  }

  lemma QueueLists(d: Dev, a: Action)
    requires Listing(d) && a.Queue? && Enabled(d, a)
    ensures Listing(Apply(d, a)) && forall b :: Dangles(Apply(d, a), b) ==> Dangles(d, b)
    ensures forall b :: Leftover(Apply(d, a), b) && !Leftover(d, b) <==> b == a.b && SubmitFails(d, a)
  {
    hide SubmitFails, Apply, NoDup;
    var e := Apply(d, a);
    QueueWay(d, a);
    QueueListsFrom(d, e, a.b, SubmitFails(d, a));
  }

  lemma QueueListsFrom(d: Dev, e: Dev, b: nat, fails: bool)
    requires Listing(d) && b in d.bufs && d.bufs[b].sid in d.streams && d.bufs[b].vb == Dequeued && QueueOutcome(d, e, b)
    requires var sid := d.bufs[b].sid;
             if fails then e.pending == d.pending + [b] && e.bufs[b].vb == Error && d.State(sid) != SS.Error == e.State(sid)
             else e.State(sid) == d.State(sid) &&
                  ((e.bufs[b].vb == Error && e.pending == d.pending) ||
                   (e.bufs[b].vb == Active && e.pending == d.pending + [b] && d.State(sid) != SS.Error))
    ensures Listing(e) && forall x :: Dangles(e, x) ==> Dangles(d, x)
    ensures forall x :: Leftover(e, x) && !Leftover(d, x) <==> x == b && fails
  {
    var sid := d.bufs[b].sid;
    assert d.State(sid) != SS.Error ==> b !in d.pending by { assert b in d.pending ==> Leftover(d, b); }
    assert NoDup(e.pending);
    hide NoDup;
    assert forall x :: x != b ==> (Leftover(e, x) <==> Leftover(d, x));
    assert forall s :: s in d.streams && d.State(s) == SS.Error ==> e.State(s) == SS.Error;
  }

  // ---- every step ----

  lemma StepLists(d: Dev, a: Action)
    requires Listing(d) && Enabled(d, a)
    ensures Listing(Apply(d, a))
    ensures forall b :: Leftover(Apply(d, a), b) && !Leftover(d, b) <==> a.Queue? && b == a.b && SubmitFails(d, a)
    ensures forall b :: Dangles(Apply(d, a), b) && !Dangles(d, b) <==> a.Close? && Leftover(d, b) && d.bufs[b].sid == a.sid
  {
    hide Listing, Returns, SubmitFails;
    match a
    case Queue(_, _, _, _) => QueueLists(d, a);
    case Completion(_, _, _, _, _, _) =>
      CompletionReturns(d, a);
      ReturnsKeeps(d, Apply(d, a));
    case ErrorOn(sid) =>
      ErrorReturns(d, sid);
      ReturnsKeeps(d, Apply(d, a));
    case CommandFailed(sid) =>
      StateReturns(d, sid, SS.Error);
      ReturnsKeeps(d, Apply(d, a));
    case Stop(sid, q, offOk, stuck) =>
      StopReturns(d, sid, q, offOk, stuck);
      ReturnsKeeps(d, Apply(d, a));
    case _ => UserLists(d, a);
  }

  /** Opening, closing, and what user space does to buffers it holds. */
  lemma UserLists(d: Dev, a: Action)
    requires Listing(d) && Enabled(d, a) && (a.Open? || a.Close? || a.NewBuf? || a.Dequeue?)
    ensures Listing(Apply(d, a))
    ensures forall b :: Leftover(Apply(d, a), b) ==> Leftover(d, b)
    ensures forall b :: Dangles(Apply(d, a), b) && !Dangles(d, b) <==> a.Close? && Leftover(d, b) && d.bufs[b].sid == a.sid
  {
    hide NoDup;
    assert forall b :: Leftover(Apply(d, a), b) ==> Leftover(d, b);
  }

  lemma {:induction false} ListingHolds(d: Dev, run: seq<Action>, e: Dev)
    requires Listing(d) && DeviceReaches(d, run, e)
    ensures Listing(e)
    decreases |run|
  {
    hide Listing, Apply, Enabled;
    if run != [] {
      StepLists(d, run[0]);
      ListingHolds(Apply(d, run[0]), run[1..], e);
    }
  }

  /** When an entry dangles, in every run: a returned buffer is left on the list exactly by a
      failed submission, its stream is in ERROR from then on, and the entry outlives the
      buffer exactly when that stream is closed with the entry still on the list. */
  lemma DanglesExact(h: Host, run: seq<Action>, d: Dev, a: Action, b: nat)
    requires DeviceReaches(Start(h), run, d) && Enabled(d, a)
    ensures NoDup(d.pending)
    ensures Leftover(d, b) ==> d.bufs[b].sid in d.streams && d.State(d.bufs[b].sid) == SS.Error
    ensures Leftover(Apply(d, a), b) && !Leftover(d, b) <==> a.Queue? && a.b == b && SubmitFails(d, a)
    ensures Dangles(Apply(d, a), b) && !Dangles(d, b) <==> a.Close? && Leftover(d, b) && d.bufs[b].sid == a.sid
  {
    assert Listing(Start(h));
    ListingHolds(Start(h), run, d);
    StepLists(d, a);
  }
}

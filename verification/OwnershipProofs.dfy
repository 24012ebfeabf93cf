/** Every ACTIVE buffer stays findable on the pending list, whatever the host, the user and
    the error paths do; so releasing a queue returns everything it owns. */
module OwnershipProofs {
  import opened Sequences
  import opened ExportCache
  import opened BufferOwnership
  import SS = StreamState

  /** The three ways a queued buffer can go, whatever the cache answered. */
  ghost predicate QueueOutcome(d: Dev, e: Dev, b: nat)
    requires b in d.bufs && d.bufs[b].sid in d.streams
  {
    var sid := d.bufs[b].sid;
    && b in e.bufs && e.bufs == d.bufs[b := e.bufs[b]] && sid in e.streams
    && e.streams == d.streams[sid := e.streams[sid]]
    && (e.bufs[b].sid, e.bufs[b].qt, e.bufs[b].planes) == (d.bufs[b].sid, d.bufs[b].qt, d.bufs[b].planes)
    && e.taken == d.taken + multiset{b} && e.warned == d.warned
    && ( // refused and returned
         || (e.bufs[b].vb == Error && e.given == d.given + multiset{b} && e.pending == d.pending && e.State(sid) == d.State(sid))
         // accepted
         || (e.bufs[b].vb == Active && e.given == d.given && e.pending == d.pending + [b] && e.State(sid) == d.State(sid) != SS.Error)
         // submit failed: returned, but left on the list of a stream now in ERROR
         || (e.bufs[b].vb == Error && e.given == d.given + multiset{b} && e.pending == d.pending + [b] && d.State(sid) != SS.Error == e.State(sid)))
  }

  lemma RefusedOutcome(d: Dev, b: nat, c: Cache, h: Host)
    requires b in d.bufs && d.bufs[b].sid in d.streams
    ensures QueueOutcome(d, VbDone(HandOver(d, b), b, Error), b)
    ensures QueueOutcome(d, VbDone(HandOver(d, b).WithCache(d.bufs[b].sid, c, h), b, Error), b)
  {
  }

  lemma AcceptedOutcome(d: Dev, b: nat, rid: nat, c: Cache, h: Host)
    requires b in d.bufs && d.bufs[b].sid in d.streams && d.State(d.bufs[b].sid) != SS.Error
    ensures QueueOutcome(d, PutOnList(HandOver(d, b), b, rid).WithCache(d.bufs[b].sid, c, h), b)
  {
  }

  lemma SubmitFailedOutcome(d: Dev, b: nat, rid: nat, c: Cache, h: Host)
    requires b in d.bufs && d.bufs[b].sid in d.streams && d.State(d.bufs[b].sid) != SS.Error
    ensures var sid := d.bufs[b].sid;
            QueueOutcome(d, VbDone(PutOnList(HandOver(d, b), b, rid).SetState(sid, SS.Error).WithCache(sid, c, h), b, Error), b)
  {
  }

  lemma QueueHasOutcome(d: Dev, b: nat, ws: seq<World>, submitOk: bool, stuck: set<nat>)
    requires b in d.bufs && d.bufs[b].sid in d.streams && |ws| == |d.bufs[b].planes|
    ensures QueueOutcome(d, QueueBuf(d, b, ws, submitOk, stuck), b)
  {
    var x := d.bufs[b];
    var strm := d.streams[x.sid];
    if strm.state == SS.Error {
      RefusedOutcome(d, b, strm.cache, d.host);
    } else {
      var (c, h, ids, ok) := GetIds(strm.cache, d.host, x.planes, x.qt, ws);
      var rid := if ids == [] then 0 else ids[0];
      var (c1, h1) := PutIds(c, h, ids, stuck);
      RefusedOutcome(d, b, c1, h1);
      AcceptedOutcome(d, b, rid, c, h);
      SubmitFailedOutcome(d, b, rid, c1, h1);
    }
  }

  lemma QueueOwned(d: Dev, e: Dev, b: nat)
    requires OwnedArePending(d) && b in d.bufs && d.bufs[b].sid in d.streams && d.bufs[b].vb == Dequeued
    requires QueueOutcome(d, e, b)
    ensures OwnedArePending(e)
  {
  }

  /** As OwnedArePending, but for buffer b, which may be ACTIVE and off the list. */
  ghost predicate OwnedBut(d: Dev, b: nat) {
    && (forall x :: x in d.bufs && x != b && d.bufs[x].vb == Active ==> x in d.pending)
    && (forall x :: d.taken[x] == d.given[x] + (if x in d.bufs && d.bufs[x].vb == Active then 1 else 0))
  }

  lemma UnlistOwned(d: Dev, i: nat)
    requires OwnedArePending(d) && i < |d.pending| && d.pending[i] in d.bufs
    ensures OwnedBut(d.(pending := RemoveAt(d.pending, i)).WithBuf(d.pending[i], d.bufs[d.pending[i]].(queued := false)), d.pending[i])
  {
    forall x | x in d.bufs && x != d.pending[i] && d.bufs[x].vb == Active
      ensures x in RemoveAt(d.pending, i)
    {
      RemoveAtKeepsOthers(d.pending, i, x);
    }
  }

  lemma VbDoneOwned(d: Dev, b: nat, st: VbState)
    requires OwnedBut(d, b) && st != Active
    ensures OwnedArePending(VbDone(d, b, st))
  {
  }

  lemma ReturnByRidOwned(d: Dev, rid: nat, failed: bool, eos: bool)
    requires OwnedArePending(d)
    ensures OwnedArePending(ReturnByRid(d, rid, failed, eos))
  {
    hide VbDone, OwnedArePending;
    var i := FirstWithRid(d, rid, 0);
    if i < |d.pending| {
      var b := d.pending[i];
      UnlistOwned(d, i);
      var d2 := d.(pending := RemoveAt(d.pending, i)).WithBuf(b, d.bufs[b].(queued := false));
      VbDoneOwned(if eos then d2.SetState(d.bufs[b].sid, SS.Stopped) else d2, b, if failed then Error else Done);
    }
  }

  /** No ACTIVE buffer of one queue. */
  ghost predicate NoneActive(d: Dev, sid: nat, qt: QueueType) {
    forall b :: Owned(d, b, sid, qt) ==> d.bufs[b].vb != Active
  }

  /** What releasing queues of one stream leaves alone. */
  ghost predicate OnlyReturns(d: Dev, e: Dev, sid: nat) {
    && e.streams == d.streams && e.host == d.host && e.bufs.Keys == d.bufs.Keys
    && (forall b :: b in e.pending ==> b in d.pending)
    && (forall b :: b in d.bufs ==> e.bufs[b] == d.bufs[b] || (d.bufs[b].sid == sid && e.bufs[b] == d.bufs[b].(vb := Error)))
  }

  lemma ReleaseOwned(d: Dev, sid: nat, qt: QueueType)
    requires OwnedArePending(d)
    ensures var e := Release(d, sid, qt);
            && OwnedArePending(e) && OnlyReturns(d, e, sid) && NoneActive(e, sid, qt)
            && (forall q :: NoneActive(d, sid, q) ==> NoneActive(e, sid, q))
  {
    ReleaseEmptiesQueue(d, sid, qt);
    var e := Release(d, sid, qt);
    assert forall b, q :: Owned(e, b, sid, q) ==> Owned(d, b, sid, q);
  }

  lemma OnlyReturnsTransitive(d: Dev, e: Dev, f: Dev, sid: nat)
    requires OnlyReturns(d, e, sid) && OnlyReturns(e, f, sid)
    ensures OnlyReturns(d, f, sid)
  {
  }

  lemma ErrorOwned(d: Dev, sid: nat)
    requires OwnedArePending(d)
    ensures var e := HandleError(d, sid);
            && OwnedArePending(e) && OnlyReturns(d, e, sid)
            && (forall q :: NoneActive(e, sid, q))
  {
    var d1 := Release(d, sid, InputMeta);
    var d2 := Release(d1, sid, OutputMeta);
    var d3 := Release(d2, sid, Input);
    var e := Release(d3, sid, Output);
    ReleaseOwned(d, sid, InputMeta);
    ReleaseOwned(d1, sid, OutputMeta);
    ReleaseOwned(d2, sid, Input);
    ReleaseOwned(d3, sid, Output);
    OnlyReturnsTransitive(d, d1, d2, sid);
    OnlyReturnsTransitive(d, d2, d3, sid);
    OnlyReturnsTransitive(d, d3, e, sid);
    forall q
      ensures NoneActive(e, sid, q)
    {
      match q
      case InputMeta =>
      case OutputMeta =>
      case Input =>
      case Output =>
    }
  }

  lemma PutTypeOwned(d: Dev, sid: nat, q: QueueType, stuck: set<nat>)
    requires OwnedArePending(d) && sid in d.streams
    ensures OwnedArePending(PutType(d, sid, q, stuck))
  {
  }

  predicate IsData(q: QueueType) {
    q == Input || q == Output
  }

  /** The release of a queue and, for a data queue, of its meta queue first. */
  function ReleasePair(d: Dev, sid: nat, q: QueueType): Dev {
    Release(if IsData(q) then Release(d, sid, Meta(q)) else d, sid, q)
  }

  lemma ReleasePairOwned(d: Dev, sid: nat, q: QueueType)
    requires OwnedArePending(d)
    ensures var e := ReleasePair(d, sid, q);
            && OwnedArePending(e) && OnlyReturns(d, e, sid) && NoneActive(e, sid, q)
            && (IsData(q) ==> NoneActive(e, sid, Meta(q)))
  {
    var d1 := if IsData(q) then Release(d, sid, Meta(q)) else d;
    if IsData(q) { ReleaseOwned(d, sid, Meta(q)); }
    ReleaseOwned(d1, sid, q);
    OnlyReturnsTransitive(d, d1, ReleasePair(d, sid, q), sid);
  }

  /** On the session-error and failed-streamoff paths, stop_streaming leaves no ACTIVE buffer in
      the queue, nor, for a data queue, in its meta queue: the wait for all buffers that
      follows cannot block. */
  lemma StopStreamingEmptiesQueues(d: Dev, sid: nat, q: QueueType, offOk: bool, stuck: set<nat>)
    requires OwnedArePending(d) && sid in d.streams
    ensures var e := StopStreaming(d, sid, q, offOk, stuck);
            && OwnedArePending(e)
            && (d.State(sid) == SS.Error || (IsData(q) && !offOk) ==>
                 NoneActive(e, sid, q) && (IsData(q) ==> NoneActive(e, sid, Meta(q))))
  {
    if d.State(sid) == SS.Error {
      ReleasePairOwned(d, sid, q);
    } else if IsData(q) {
      var d1 := if offOk then d else d.SetState(sid, SS.Error);
      PutTypeOwned(d1, sid, q, stuck);
      PutTypeOwned(PutType(d1, sid, q, stuck), sid, Meta(q), stuck);
      if !offOk {
        ReleasePairOwned(PutType(PutType(d1, sid, q, stuck), sid, Meta(q), stuck), sid, q);
      }
    }
  }

  lemma StepOwned(d: Dev, a: Action)
    requires OwnedArePending(d) && Enabled(d, a)
    ensures OwnedArePending(Apply(d, a))
  {
    hide QueueBuf, StopStreaming, HandleError, OwnedArePending, Complete;
    match a
    case Queue(b, ws, submitOk, stuck) =>
      QueueHasOutcome(d, b, ws, submitOk, stuck);
      QueueOwned(d, Apply(d, a), b);
    case Completion(_, _, _, _, _, _) => CompletionOwned(d, a);
    case ErrorOn(sid) => ErrorStepOwned(d, sid);
    case Stop(sid, q, offOk, stuck) => StopStreamingEmptiesQueues(d, sid, q, offOk, stuck);
    case _ => UserStepOwned(d, a);
  }

  lemma ErrorStepOwned(d: Dev, sid: nat)
    requires OwnedArePending(d) && sid in d.streams
    ensures OwnedArePending(ErrorEvent(d, sid))
  {
    hide HandleError;
    ErrorOwned(d.SetState(sid, SS.Error), sid);
  }

  lemma CompletionOwned(d: Dev, a: Action)
    requires a.Completion? && OwnedArePending(d) && Enabled(d, a)
    ensures OwnedArePending(Apply(d, a))
  {
    hide ReturnByRid, PutId, Cleanup;
    ReturnByRidOwned(d, a.rid, a.failed, a.eos);
  }

  lemma UserStepOwned(d: Dev, a: Action)
    requires OwnedArePending(d) && Enabled(d, a)
    requires a.Open? || a.NewBuf? || a.CommandFailed? || a.Dequeue? || a.Close?
    ensures OwnedArePending(Apply(d, a))
  {
  }

  /** In every run each ACTIVE buffer is on the pending list, and each buffer has been
      returned to vb2 as often as it was taken, but for the one turn it is ACTIVE in. */
  lemma {:induction false} OwnedHolds(d: Dev, run: seq<Action>, e: Dev)
    requires OwnedArePending(d) && DeviceReaches(d, run, e)
    ensures OwnedArePending(e)
    decreases |run|
  {
    if run != [] {
      StepOwned(d, run[0]);
      OwnedHolds(Apply(d, run[0]), run[1..], e);
    }
  }

  // ---- a stream in ERROR stays quiet ----

  /** The stream has failed for good and the driver owns none of its buffers. */
  ghost predicate Quiet(d: Dev, sid: nat) {
    && sid in d.streams && d.State(sid) == SS.Error
    && (forall b :: b in d.bufs && d.bufs[b].sid == sid ==> d.bufs[b].vb != Active)
  }

  lemma NoneActiveQuiet(d: Dev, sid: nat)
    requires sid in d.streams && d.State(sid) == SS.Error && forall q :: NoneActive(d, sid, q)
    ensures Quiet(d, sid)
  {
    forall b | b in d.bufs && d.bufs[b].sid == sid
      ensures d.bufs[b].vb != Active
    {
      assert NoneActive(d, sid, d.bufs[b].qt);
    }
  }

  lemma ErrorEventQuiets(d: Dev, sid: nat)
    requires OwnedArePending(d) && sid in d.streams
    ensures Quiet(ErrorEvent(d, sid), sid)
    ensures forall s :: Quiet(d, s) ==> Quiet(ErrorEvent(d, sid), s)
  {
    hide BufferOwnership.HandleError, NoneActive;
    var d1 := d.SetState(sid, SS.Error);
    ErrorOwned(d1, sid);
    NoneActiveQuiet(HandleError(d1, sid), sid);
  }

  /** The effect of an action as seen by a stream: buffers become ACTIVE only by being
      queued on a stream not in ERROR, and ERROR is left only by closing. */
  ghost predicate Calm(d: Dev, e: Dev) {
    && (forall b :: b in e.bufs && e.bufs[b].vb == Active && b in d.bufs ==> d.bufs[b].vb == Active && e.bufs[b].sid == d.bufs[b].sid)
    && (forall b :: b in e.bufs && e.bufs[b].vb == Active ==> b in d.bufs)
    && (forall s :: s in d.streams && d.State(s) == SS.Error ==> s in e.streams && e.State(s) == SS.Error)
  }

  lemma CalmQuiet(d: Dev, e: Dev, sid: nat)
    requires Calm(d, e) && Quiet(d, sid)
    ensures Quiet(e, sid)
  {
  }

  lemma CalmTransitive(d: Dev, e: Dev, f: Dev)
    requires Calm(d, e) && Calm(e, f)
    ensures Calm(d, f)
  {
  }

  lemma SetStateCalm(d: Dev, sid: nat, n: SS.State)
    ensures Calm(d, d.SetState(sid, n))
  {
  }

  lemma WithCacheCalm(d: Dev, sid: nat, c: Cache, h: Host)
    requires sid in d.streams
    ensures Calm(d, d.WithCache(sid, c, h))
  {
  }

  lemma PutTypeCalm(d: Dev, sid: nat, q: QueueType, stuck: set<nat>)
    requires sid in d.streams
    ensures Calm(d, PutType(d, sid, q, stuck))
  {
    var (c, h) := PutTypeFrom(d.streams[sid].cache, d.host, q, stuck, 0);
    var d1 := d.WithCache(sid, c, h);
    WithCacheCalm(d, sid, c, h);
    CalmTransitive(d, d1, d1.(bufs := Uncover(d1.bufs, sid, q)));
  }

  lemma OnlyReturnsCalm(d: Dev, e: Dev, sid: nat)
    requires OnlyReturns(d, e, sid)
    ensures Calm(d, e)
  {
  }

  /** The session after streamoff and both unexports, before any release. */
  function Unexported(d: Dev, sid: nat, q: QueueType, offOk: bool, stuck: set<nat>): Dev
    requires sid in d.streams
  {
    PutType(PutType(if offOk then d else d.SetState(sid, SS.Error), sid, q, stuck), sid, Meta(q), stuck)
  }

  lemma UnexportedCalm(d: Dev, sid: nat, q: QueueType, offOk: bool, stuck: set<nat>)
    requires sid in d.streams && OwnedArePending(d)
    ensures Calm(d, Unexported(d, sid, q, offOk, stuck)) && OwnedArePending(Unexported(d, sid, q, offOk, stuck))
  {
    var d1 := if offOk then d else d.SetState(sid, SS.Error);
    var d2 := PutType(d1, sid, q, stuck);
    SetStateCalm(d, sid, SS.Error);
    PutTypeCalm(d1, sid, q, stuck);
    PutTypeCalm(d2, sid, Meta(q), stuck);
    PutTypeOwned(d1, sid, q, stuck);
    PutTypeOwned(d2, sid, Meta(q), stuck);
    CalmTransitive(d, d1, d2);
    CalmTransitive(d, d2, PutType(d2, sid, Meta(q), stuck));
  }

  lemma StopCalm(d: Dev, sid: nat, q: QueueType, offOk: bool, stuck: set<nat>)
    requires OwnedArePending(d) && sid in d.streams
    ensures Calm(d, StopStreaming(d, sid, q, offOk, stuck))
  {
    if d.State(sid) == SS.Error {
      ReleasePairOwned(d, sid, q);
      OnlyReturnsCalm(d, ReleasePair(d, sid, q), sid);
    } else if IsData(q) {
      var d3 := Unexported(d, sid, q, offOk, stuck);
      UnexportedCalm(d, sid, q, offOk, stuck);
      ReleasePairOwned(d3, sid, q);
      OnlyReturnsCalm(d3, ReleasePair(d3, sid, q), sid);
      CalmTransitive(d, d3, ReleasePair(d3, sid, q));
    }
  }

  lemma VbDoneCalm(d: Dev, b: nat, st: VbState)
    requires st != Active
    ensures Calm(d, VbDone(d, b, st))
  {
  }

  lemma UnlistCalm(d: Dev, i: nat)
    requires i < |d.pending| && d.pending[i] in d.bufs
    ensures Calm(d, d.(pending := RemoveAt(d.pending, i)).WithBuf(d.pending[i], d.bufs[d.pending[i]].(queued := false)))
  {
  }

  lemma ReturnByRidCalm(d: Dev, rid: nat, failed: bool, eos: bool)
    ensures Calm(d, ReturnByRid(d, rid, failed, eos))
  {
    var i := FirstWithRid(d, rid, 0);
    if i < |d.pending| {
      var b := d.pending[i];
      var d2 := d.(pending := RemoveAt(d.pending, i)).WithBuf(b, d.bufs[b].(queued := false));
      var d3 := if eos then d2.SetState(d.bufs[b].sid, SS.Stopped) else d2;
      UnlistCalm(d, i);
      SetStateCalm(d2, d.bufs[b].sid, SS.Stopped);
      VbDoneCalm(d3, b, if failed then Error else Done);
      CalmTransitive(d, d2, d3);
      CalmTransitive(d, d3, ReturnByRid(d, rid, failed, eos));
    }
  }

  lemma CompletionCalm(d: Dev, a: Action)
    requires a.Completion? && Enabled(d, a)
    ensures Calm(d, Apply(d, a))
  {
    hide ReturnByRid, PutId, Cleanup, Calm;
    var e := ReturnByRid(d, a.rid, a.failed, a.eos);
    ReturnByRidCalm(d, a.rid, a.failed, a.eos);
    var (c, h) := PutId(e.streams[a.sid].cache, e.host, a.rid, false, a.stuck);
    var (c1, h1) := Cleanup(c, h, a.erased, a.stuck);
    WithCacheCalm(e, a.sid, c1, h1);
    CalmTransitive(d, e, e.WithCache(a.sid, c1, h1));
  }

  lemma CloseCalm(d: Dev, sid: nat, s: nat, stuck: set<nat>)
    requires Enabled(d, Close(s, stuck)) && s != sid && Quiet(d, sid)
    ensures Quiet(Apply(d, Close(s, stuck)), sid)
  {
  }

  lemma QueueQuiet(d: Dev, e: Dev, b: nat, sid: nat)
    requires b in d.bufs && d.bufs[b].sid in d.streams && QueueOutcome(d, e, b) && Quiet(d, sid)
    ensures Quiet(e, sid)
  {
  }

  lemma ErrorEventCalm(d: Dev, sid: nat)
    requires OwnedArePending(d) && sid in d.streams
    ensures Calm(d, ErrorEvent(d, sid))
  {
    hide Calm, OwnedArePending, BufferOwnership.HandleError;
    var d1 := d.SetState(sid, SS.Error);
    SetStateCalm(d, sid, SS.Error);
    SetStateOwned(d, sid, SS.Error);
    ErrorOwned(d1, sid);
    OnlyReturnsCalm(d1, HandleError(d1, sid), sid);
    CalmTransitive(d, d1, HandleError(d1, sid));
  }

  lemma SetStateOwned(d: Dev, sid: nat, n: SS.State)
    requires OwnedArePending(d)
    ensures OwnedArePending(d.SetState(sid, n))
  {
  }

  /** The small steps leave a quiet stream alone. */
  lemma SmallStepQuiet(d: Dev, a: Action, sid: nat)
    requires Enabled(d, a) && Quiet(d, sid) && (a.Open? || a.NewBuf? || a.CommandFailed? || a.Dequeue?)
    ensures Quiet(Apply(d, a), sid)
  {
  }

  /** Nothing but closing it wakes a quiet stream: its queued buffers are refused. */
  lemma QuietStays(d: Dev, a: Action, sid: nat)
    requires OwnedArePending(d) && Enabled(d, a) && Quiet(d, sid) && !(a.Close? && a.sid == sid)
    ensures Quiet(Apply(d, a), sid)
  {
    hide Quiet, Calm, QueueOutcome, OwnedArePending;
    match a
    case Queue(b, ws, submitOk, stuck) =>
      QueueHasOutcome(d, b, ws, submitOk, stuck);
      QueueQuiet(d, Apply(d, a), b, sid);
    case Completion(_, _, _, _, _, _) =>
      CompletionCalm(d, a);
      CalmQuiet(d, Apply(d, a), sid);
    case ErrorOn(s) =>
      ErrorEventCalm(d, s);
      CalmQuiet(d, Apply(d, a), sid);
    case Stop(s, q, offOk, stuck) =>
      StopCalm(d, s, q, offOk, stuck);
      CalmQuiet(d, Apply(d, a), sid);
    case Close(s, stuck) => CloseCalm(d, sid, s, stuck);
    case _ => SmallStepQuiet(d, a, sid);
  }
}

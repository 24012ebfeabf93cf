/** How buffers come back: what one completion, and one event of any kind, does to the device. */
module CompletionEffects {
  import opened Sequences
  import opened ExportCache
  import opened BufferOwnership
  import opened OwnershipProofs
  import opened CacheSteps
  import opened CacheEffects
  import opened QueuedOnce
  import opened EventQueue
  import SS = StreamState

  /** Entry i of the list is taken off; its buffer is returned as the host says, and the end of
      a stream stops it. */
  ghost predicate ReturnsEntry(d: Dev, e: Dev, i: nat, failed: bool, eos: bool)
    requires i < |d.pending| && d.pending[i] in d.bufs
  {
    var b := d.pending[i];
    && e.pending == d.pending[..i] + d.pending[i + 1..]
    && e.bufs == d.bufs[b := d.bufs[b].(queued := false, vb := if failed then Error else Done)]
    && e.given == d.given + multiset{b}
    && e.streams.Keys == d.streams.Keys
    && (forall s :: s in d.streams ==> e.State(s) == if eos && s == d.bufs[b].sid && d.State(s) != SS.Error then SS.Stopped else d.State(s))
  }

  ghost predicate ReturnsNothing(d: Dev, e: Dev) {
    && e.pending == d.pending && e.bufs == d.bufs && e.given == d.given
    && e.streams.Keys == d.streams.Keys && (forall s :: s in d.streams ==> e.State(s) == d.State(s))
  }

  /** In the cache of stream sid, the id has become idle; then the idle entries the host has
      named are gone, unexported unless refused. No other stream's cache is touched. */
  ghost predicate Unmarks(d: Dev, e: Dev, sid: nat, rid: nat, erased: seq<nat>, stuck: set<nat>) {
    && sid in d.streams && e.streams.Keys == d.streams.Keys
    && (forall s :: s in d.streams && s != sid ==> CacheOf(e, s) == CacheOf(d, s))
    && CacheLosesUse(CacheOf(d, sid), d.host, CacheOf(e, sid), e.host, rid, erased, stuck)
  }

  function Idle(x: Entry, rid: nat): Entry {
    if x.id == rid then x.(inUse := false) else x
  }

  ghost predicate CacheLosesUse(c: Cache, h: Host, c1: Cache, h1: Host, rid: nat, erased: seq<nat>, stuck: set<nat>) {
    && (forall x :: x in c1.entries <==> exists y :: y in c.entries && x == Idle(y, rid) && !Erases(x, erased, stuck))
    && (forall id :: id in h1.table <==> id in h.table && !exists y :: y in c.entries && y.id == id && Erases(Idle(y, rid), erased, stuck))
    && (forall id :: id in h1.table ==> h1.table[id] == h.table[id])
  }

  predicate Erases(x: Entry, erased: seq<nat>, stuck: set<nat>) {
    !x.inUse && x.id in erased && x.id !in stuck
  }

  lemma LosesUse(c: Cache, h: Host, rid: nat, erased: seq<nat>, stuck: set<nat>)
    requires Agree(c, h)
    ensures var (c1, h1) := PutId(c, h, rid, false, stuck);
            var (c2, h2) := Cleanup(c1, h1, erased, stuck);
            CacheLosesUse(c, h, c2, h2, rid, erased, stuck)
  {
    var (c1, h1) := PutId(c, h, rid, false, stuck);
    PutIdKeeps(c, h, rid, false, stuck);
    UnmarkExact(c, h, rid, stuck);
    CleanupExact(c1, h1, erased, stuck);
    var (c2, h2) := Cleanup(c1, h1, erased, stuck);
    assert forall k :: 0 <= k < |c.entries| ==> c1.entries[k] == Idle(c.entries[k], rid);
    hide PutId, Cleanup, Agree;
    IdleEntries(c, c1, rid);
    LosesUseFrom(c, c1, h, c2, h2, rid, erased, stuck);
  }

  lemma IdleEntries(c: Cache, c1: Cache, rid: nat)
    requires |c1.entries| == |c.entries| && forall k :: 0 <= k < |c.entries| ==> c1.entries[k] == Idle(c.entries[k], rid)
    ensures forall x :: x in c1.entries <==> exists y :: y in c.entries && x == Idle(y, rid)
  {
    forall x | x in c1.entries
      ensures exists y :: y in c.entries && x == Idle(y, rid)
    {
      var k :| 0 <= k < |c1.entries| && c1.entries[k] == x;
      assert c.entries[k] in c.entries;
    }
  }

  lemma LosesUseFrom(c: Cache, c1: Cache, h: Host, c2: Cache, h2: Host, rid: nat, erased: seq<nat>, stuck: set<nat>)
    requires forall x :: x in c1.entries <==> exists y :: y in c.entries && x == Idle(y, rid)
    requires Removes(c1, h, c2, h2, CleanedUp(c1, erased, stuck), stuck)
    ensures CacheLosesUse(c, h, c2, h2, rid, erased, stuck)
  {
    forall id
      ensures HasId(CleanedUp(c1, erased, stuck), id) <==> exists y :: y in c.entries && y.id == id && Erases(Idle(y, rid), erased, stuck)
    {
      if HasId(CleanedUp(c1, erased, stuck), id) {
        var x :| x in CleanedUp(c1, erased, stuck) && x.id == id;
        var y :| y in c.entries && x == Idle(y, rid);
      }
      if y :| y in c.entries && y.id == id && Erases(Idle(y, rid), erased, stuck) {
        assert Idle(y, rid) in CleanedUp(c1, erased, stuck);
      }
    }
  }

  /** No entry in use stands for the id any more. */
  lemma NoLongerInUse(c: Cache, h: Host, c1: Cache, h1: Host, rid: nat, erased: seq<nat>, stuck: set<nat>)
    requires CacheLosesUse(c, h, c1, h1, rid, erased, stuck)
    ensures forall x :: x in c1.entries && x.id == rid ==> !x.inUse
  {
  }

  /** A completion, exactly: the entry with the id, of which there is at most one, or nothing. */
  ghost predicate Completes(d: Dev, e: Dev, sid: nat, rid: nat, failed: bool, eos: bool, erased: seq<nat>, stuck: set<nat>) {
    Gives(d, e, rid, failed, eos) && Unmarks(d, e, sid, rid, erased, stuck)
  }

  /** The buffer's part. */
  ghost predicate Gives(d: Dev, e: Dev, rid: nat, failed: bool, eos: bool) {
    && e.taken == d.taken && e.warned == d.warned
    && (forall i :: 0 <= i < |d.pending| && d.pending[i] in d.bufs && d.bufs[d.pending[i]].rid == rid ==> ReturnsEntry(d, e, i, failed, eos))
    && ((forall b :: b in d.pending && b in d.bufs ==> d.bufs[b].rid != rid) ==> ReturnsNothing(d, e))
  }

  lemma TakenOff(d: Dev, i: nat, failed: bool, eos: bool)
    requires Tidy(d) && i < |d.pending|
    ensures var b := d.pending[i];
            var d2 := d.(pending := RemoveAt(d.pending, i)).WithBuf(b, d.bufs[b].(queued := false));
            var e := VbDone(if eos then d2.SetState(d.bufs[b].sid, SS.Stopped) else d2, b, if failed then Error else Done);
            ReturnsEntry(d, e, i, failed, eos) && e.taken == d.taken && e.warned == d.warned && SameCaches(d, e)
  {
    hide NoDup;
    assert d.pending[i] in d.pending;
  }

  lemma AtMostOne(d: Dev, i: nat, j: nat)
    requires Tidy(d) && AllKnown(d) && Apart(d) && i < |d.pending| && j < |d.pending|
    requires d.bufs[d.pending[i]].rid == d.bufs[d.pending[j]].rid
    ensures i == j
  {
    if i != j {
      assert d.pending[i] != d.pending[j];
      DistinctIds(d, d.pending[i], d.pending[j]);
    }
  }

  lemma ReturnByRidExact(d: Dev, rid: nat, failed: bool, eos: bool)
    requires Tidy(d) && AllKnown(d) && Apart(d)
    ensures Gives(d, ReturnByRid(d, rid, failed, eos), rid, failed, eos) && SameCaches(d, ReturnByRid(d, rid, failed, eos))
  {
    hide Tidy, AllKnown, Apart, ReturnsEntry, SameCaches;
    var j := FirstWithRid(d, rid, 0);
    if j < |d.pending| {
      TakenOff(d, j, failed, eos);
      assert d.pending[j] in d.pending;
      forall i | 0 <= i < |d.pending| && d.pending[i] in d.bufs && d.bufs[d.pending[i]].rid == rid
        ensures i == j
      {
        AtMostOne(d, i, j);
      }
    } else {
      assert SameCaches(d, d) by { NothingMoves(d); }
    }
  }

  lemma NothingMoves(d: Dev)
    ensures SameCaches(d, d)
  {
  }

  /** With the buffer's part and the cache's part in one. */
  lemma CompletionExact(d: Dev, sid: nat, rid: nat, failed: bool, eos: bool, erased: seq<nat>, stuck: set<nat>)
    requires Good(d) && sid in d.streams
    ensures Completes(d, Complete(d, sid, rid, failed, eos, erased, stuck), sid, rid, failed, eos, erased, stuck)
    ensures forall x :: x in CacheOf(Complete(d, sid, rid, failed, eos, erased, stuck), sid).entries && x.id == rid ==> !x.inUse
  {
    var d1 := ReturnByRid(d, rid, failed, eos);
    ReturnByRidExact(d, rid, failed, eos);
    LosesUse(CacheOf(d, sid), d.host, rid, erased, stuck);
    hide ReturnByRid, PutId, Cleanup, CacheLosesUse, Good;
    var (c, h) := PutId(CacheOf(d1, sid), d1.host, rid, false, stuck);
    var (c1, h1) := Cleanup(c, h, erased, stuck);
    var e := d1.WithCache(sid, c1, h1);
    assert e == Complete(d, sid, rid, failed, eos, erased, stuck);
    CacheKeepsRest(d1, sid, c1, h1);
    GivesStill(d, d1, e, rid, failed, eos);
    NoLongerInUse(CacheOf(d, sid), d.host, c1, h1, rid, erased, stuck);
  }

  lemma CacheKeepsRest(d: Dev, sid: nat, c: Cache, h: Host)
    requires sid in d.streams
    ensures var e := d.WithCache(sid, c, h);
            && (e.pending, e.bufs, e.given, e.taken, e.warned, e.host) == (d.pending, d.bufs, d.given, d.taken, d.warned, h)
            && e.streams.Keys == d.streams.Keys && CacheOf(e, sid) == c
            && (forall s :: s in d.streams ==> e.State(s) == d.State(s) && (s != sid ==> CacheOf(e, s) == CacheOf(d, s)))
  {
  }

  lemma GivesStill(d: Dev, d1: Dev, e: Dev, rid: nat, failed: bool, eos: bool)
    requires Gives(d, d1, rid, failed, eos)
    requires (e.pending, e.bufs, e.given, e.taken, e.warned) == (d1.pending, d1.bufs, d1.given, d1.taken, d1.warned)
    requires e.streams.Keys == d1.streams.Keys && forall s :: s in d1.streams ==> e.State(s) == d1.State(s)
    ensures Gives(d, e, rid, failed, eos)
  {
    forall i | 0 <= i < |d.pending| && d.pending[i] in d.bufs && d.bufs[d.pending[i]].rid == rid
      ensures ReturnsEntry(d, e, i, failed, eos)
    {
      assert ReturnsEntry(d, d1, i, failed, eos);
    }
  }

  /** Every completion the host may ask for, in a state orderly runs reach. */
  lemma CompletionReturnsExactly(d: Dev, a: Action)
    requires Good(d) && a.Completion? && Enabled(d, a)
    ensures Completes(d, Apply(d, a), a.sid, a.rid, a.failed, a.eos, a.erased, a.stuck)
    ensures forall x :: x in CacheOf(Apply(d, a), a.sid).entries && x.id == a.rid ==> !x.inUse
  {
    CompletionExact(d, a.sid, a.rid, a.failed, a.eos, a.erased, a.stuck);
    hide Good, Complete, Completes;
  }

  // ---- events ----

  /** Nothing but the state of stream sid, and that only from INIT. */
  ghost predicate ChangesResolution(d: Dev, e: Dev, sid: nat) {
    && e == d.(streams := e.streams) && e.streams.Keys == d.streams.Keys
    && (forall s :: s in d.streams ==>
          && CacheOf(e, s) == CacheOf(d, s)
          && e.State(s) == if s == sid && d.State(s) == SS.Init then SS.DynamicResChange else d.State(s))
  }

  /** The stream is in ERROR and the driver owns none of its buffers; the others are untouched. */
  ghost predicate Fails(d: Dev, e: Dev, sid: nat) {
    && sid in e.streams && e.State(sid) == SS.Error && (forall qt :: NoneActive(e, sid, qt))
    && e.streams.Keys == d.streams.Keys && e.bufs.Keys == d.bufs.Keys && e.host == d.host
    && (forall s :: s in d.streams && s != sid ==> e.streams[s] == d.streams[s])
    && (forall b :: b in d.bufs ==> e.bufs[b] == d.bufs[b] || (d.bufs[b].sid == sid && e.bufs[b] == d.bufs[b].(vb := Error)))
  }

  /** What an event does, by its type; one that says nothing, or is for a stream that is gone,
      does nothing. */
  lemma EventExact(d: Dev, c: Content, stuck: set<nat>)
    requires Good(d)
    ensures var e := HandleEvent(d, c, stuck);
            if c.Blank? || c.sid !in d.streams then e == d
            else match c
              case FrameDone(sid, rid, failed, eos, erased) => Completes(d, e, sid, rid, failed, eos, erased, stuck)
              case ResChange(sid) => ChangesResolution(d, e, sid)
              case ErrorOf(sid) => Fails(d, e, sid)
              case Unknown(_) => e == d
  {
    hide Complete, Completes, HandleError;
    if !c.Blank? && c.sid in d.streams {
      match c
      case FrameDone(sid, rid, failed, eos, erased) => CompletionExact(d, sid, rid, failed, eos, erased, stuck);
      case ResChange(sid) => ResolutionExact(d, sid);
      case ErrorOf(sid) => ErrorExact(d, sid);
      case Unknown(_) =>
    }
  }

  lemma ResolutionExact(d: Dev, sid: nat)
    requires sid in d.streams
    ensures ChangesResolution(d, if d.State(sid) == SS.Init then d.SetState(sid, SS.DynamicResChange) else d, sid)
  {
  }

  lemma ErrorExact(d: Dev, sid: nat)
    requires OwnedArePending(d) && sid in d.streams
    ensures Fails(d, ErrorEvent(d, sid), sid)
  {
    hide HandleError;
    ErrorOwned(d.SetState(sid, SS.Error), sid);
  }
}

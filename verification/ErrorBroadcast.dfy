/** When the event receiver fails, every stream open throughout gets exactly one ERROR event if
    there were as many free event buffers as streams, and once the worker has drained the queue
    each of them is in ERROR with no buffer left in the driver's hands. */
module ErrorBroadcast {
  import opened Sequences
  import opened HabVirtqueue
  import opened BufferOwnership
  import opened OwnershipProofs
  import opened EventQueue
  import SS = StreamState

  /** The broadcast has dealt with id x. */
  predicate Past(rx: Rx, x: nat) {
    match rx
    case Broadcasting(c) => x < c
    case Visiting(sid) => x < sid
    case Sending(_, sid) => x < sid
    case Exited => true
    case _ => false
  }

  predicate AfterBreak(rx: Rx) {
    rx.GivingBack? || rx.Telling() || rx.Exited?
  }

  predicate Increasing(l: seq<nat>) {
    forall i, j :: 0 <= i < j < |l| ==> l[i] < l[j]
  }

  /** The stream the receiver is dealing with. */
  predicate Current(rx: Rx, x: nat) {
    (rx.Visiting? || rx.Sending?) && rx.sid == x
  }

  // ---- who has been told ----

  ghost predicate Visits(rx: Rx, h: Hist) {
    && Increasing(h.sent) && Increasing(h.skipped)
    && (forall x :: x in h.sent ==> Past(rx, x) && x in h.open && x !in h.skipped)
    && (forall x :: x in h.skipped ==> Past(rx, x) && x in h.open)
    && (forall x :: Current(rx, x) ==> x in h.open)
    && (rx.GivingBack? ==> h.sent == [] && h.skipped == [])
  }

  ghost predicate Streams(d: Dev, h: Hist) {
    && h.atFail <= h.open
    && (forall x :: x in d.streams ==> x in h.open)
    && (forall x :: x in h.open && x !in h.closed ==> x in d.streams)
  }

  /** No stream open throughout has been passed by unnoticed. */
  ghost predicate NoneMissed(rx: Rx, h: Hist) {
    forall x :: x in h.atFail && x !in h.closed && Past(rx, x) ==> x in h.sent || x in h.skipped
  }

  /** Free buffers are used up only by telling streams. */
  predicate Capacity(s: State) {
    s.ready ==>
      && |s.q.vbufs| + |s.hist.sent| + (if s.rx.GivingBack? || s.rx.Sending? then |s.rx.Holds()| else 0) >= s.hist.free
      && (s.hist.skipped != [] ==> |s.hist.sent| >= s.hist.free)
  }

  ghost predicate Telling(s: State) {
    s.q.broken ==> AfterBreak(s.rx) && Visits(s.rx, s.hist) && Streams(s.dev, s.hist) && NoneMissed(s.rx, s.hist) && Capacity(s)
  }

  lemma HandleEventStreams(d: Dev, c: Content, stuck: set<nat>)
    requires OwnedArePending(d)
    ensures HandleEvent(d, c, stuck).streams.Keys == d.streams.Keys
  {
    if !c.Blank? && c.sid in d.streams {
      match c
      case ErrorOf(sid) => ErrorOwned(d.SetState(sid, SS.Error), sid);
      case _ =>
    }
  }

  lemma DevStepStreams(d: Dev, a: Action, h: Hist)
    requires OwnedArePending(d) && Enabled(d, a) && Streams(d, h) && FromUser(a)
    ensures Streams(Apply(d, a), Note(h, a))
  {
    match a
    case Queue(b, ws, submitOk, stuck) => QueueHasOutcome(d, b, ws, submitOk, stuck);
    case Stop(sid, q, offOk, stuck) => StopStreams(d, sid, q, offOk, stuck);
    case _ =>
  }

  lemma StopStreams(d: Dev, sid: nat, q: ExportCache.QueueType, offOk: bool, stuck: set<nat>)
    requires OwnedArePending(d) && sid in d.streams
    ensures StopStreaming(d, sid, q, offOk, stuck).streams.Keys == d.streams.Keys
  {
    if d.State(sid) == SS.Error {
      ReleasePairOwned(d, sid, q);
    } else if IsData(q) {
      UnexportedCalm(d, sid, q, offOk, stuck);
      ReleasePairOwned(Unexported(d, sid, q, offOk, stuck), sid, q);
    }
  }

  lemma AppendIncreasing(l: seq<nat>, x: nat)
    requires Increasing(l) && forall y :: y in l ==> y < x
    ensures Increasing(l + [x])
  {
    assert forall i :: 0 <= i < |l| ==> l[i] in l;
  }

  /** The receiver turns to the next open stream, or finds none left. */
  lemma TurnTells(s: State, st: Step)
    requires Telling(s) && s.q.broken && CanStep(s, st) && (st.RxNext? || st.RxFinish?)
    ensures Telling(Do(s, st))
  {
    var t := Do(s, st);
    assert NoneMissed(t.rx, t.hist);
    assert Visits(t.rx, t.hist);
  }

  lemma GiveBackTells(s: State)
    requires Telling(s) && Conserved(s) && s.q.broken && CanStep(s, RxGiveBack)
    ensures Telling(Do(s, RxGiveBack))
  {
    NodeAtHand(Where(s));
  }

  /** The history after the receiver has dealt with stream x, one way or the other. */
  lemma VisitedTells(rx: Rx, h: Hist, x: nat, h1: Hist)
    requires Visits(rx, h) && NoneMissed(rx, h) && Current(rx, x)
    requires h1 == h.(sent := h.sent + [x]) || h1 == h.(skipped := h.skipped + [x])
    ensures Visits(Broadcasting(x + 1), h1) && NoneMissed(Broadcasting(x + 1), h1)
  {
    AppendIncreasing(h.sent, x);
    AppendIncreasing(h.skipped, x);
  }

  lemma GetBufTells(s: State)
    requires Telling(s) && s.q.broken && CanStep(s, RxGetBuf)
    ensures Telling(Do(s, RxGetBuf))
  {
    if s.q.vbufs == [] {
      VisitedTells(s.rx, s.hist, s.rx.sid, Do(s, RxGetBuf).hist);
    }
  }

  lemma SendTells(s: State)
    requires Telling(s) && Conserved(s) && s.q.broken && CanStep(s, RxSend)
    ensures Telling(Do(s, RxSend))
  {
    NodeAtHand(Where(s));
    VisitedTells(s.rx, s.hist, s.rx.sid, Do(s, RxSend).hist);
  }

  lemma DeviceTells(s: State, st: Step)
    requires Telling(s) && OwnedArePending(s.dev) && CanStep(s, st) && (st.DevStep? || st.WkHandle?)
    ensures Telling(Do(s, st))
  {
    match st
    case DevStep(a) => if s.q.broken { DevStepStreams(s.dev, a, s.hist); }
    case WkHandle(stuck) => HandleEventStreams(s.dev, s.Content(s.wk.e), stuck);
  }

  // ---- what the told streams get ----

  lemma TimesIn(l: seq<nat>, x: nat)
    ensures x in l <==> Times(l, x) > 0
    decreases |l|
  {
    if l != [] { TimesIn(l[1..], x); }
  }

  /** A buffer in the receiver's hands is nowhere else. */
  lemma InOneHand(s: State, e: nat)
    requires Where(s).Once() && s.rx.Holds() == [e]
    ensures e !in Bufs(s.q.resps) && s.wk.Holds() != [e]
  {
    var p := Where(s);
    assert p.BufAt(e) <= 1;
    TimesOne(s.rx.Holds(), e);
    TimesIn(Bufs(s.q.resps), e);
    TimesIn(s.wk.Holds(), e);
  }

  /** An ERROR event for stream x waits for the worker or is in its hands. */
  ghost predicate OnItsWay(s: State, x: nat) {
    || (exists k :: 0 <= k < |s.q.resps| && s.Content(s.q.resps[k].buf) == ErrorOf(x))
    || (s.wk.Handling? && s.Content(s.wk.e) == ErrorOf(x))
  }

  ghost predicate Reached(s: State, x: nat) {
    Quiet(s.dev, x) || OnItsWay(s, x)
  }

  ghost predicate AllReached(s: State) {
    s.q.broken && s.ready ==> forall x :: x in s.hist.sent && x !in s.hist.closed ==> Reached(s, x)
  }

  lemma SendReaches(s: State)
    requires Conserved(s) && Telling(s) && AllReached(s) && CanStep(s, RxSend)
    ensures AllReached(Do(s, RxSend))
  {
    hide Visits, Streams, NoneMissed, Capacity, Quiet;
    if !s.q.broken {
      return;
    }
    NodeAtHand(Where(s));
    var t := Do(s, RxSend);
    InOneHand(s, s.rx.e);
    assert forall k :: 0 <= k < |s.q.resps| ==> s.q.resps[k].buf == Bufs(s.q.resps)[k];
    var last := |s.q.resps|;
    assert t.q.resps[last].buf == s.rx.e && t.Content(s.rx.e) == ErrorOf(s.rx.sid);
    forall x | s.ready && x in t.hist.sent && x !in t.hist.closed
      ensures Reached(t, x)
    {
      if x == s.rx.sid {
      } else {
        assert Reached(s, x);
        StillOnItsWay(s, t, x);
      }
    }
  }

  /** Refilling a buffer in the receiver's hands disturbs no event that is on its way. */
  lemma StillOnItsWay(s: State, t: State, x: nat)
    requires Reached(s, x) && t.dev == s.dev && t.wk == s.wk && s.q.resps <= t.q.resps
    requires forall k :: 0 <= k < |s.q.resps| ==> t.Content(s.q.resps[k].buf) == s.Content(s.q.resps[k].buf)
    requires s.wk.Handling? ==> t.Content(s.wk.e) == s.Content(s.wk.e)
    ensures Reached(t, x)
  {
    if !Quiet(s.dev, x) && !(s.wk.Handling? && s.Content(s.wk.e) == ErrorOf(x)) {
      var k :| 0 <= k < |s.q.resps| && s.Content(s.q.resps[k].buf) == ErrorOf(x);
      assert t.q.resps[k].buf == s.q.resps[k].buf;
    }
  }

  lemma TakeReaches(s: State)
    requires AllReached(s) && CanStep(s, WkTake)
    ensures AllReached(Do(s, WkTake))
  {
    var t := Do(s, WkTake);
    forall x | t.q.broken && t.ready && x in t.hist.sent && x !in t.hist.closed
      ensures Reached(t, x)
    {
      assert Reached(s, x);
      if !Quiet(s.dev, x) {
        var k :| 0 <= k < |s.q.resps| && s.Content(s.q.resps[k].buf) == ErrorOf(x);
        if k > 0 { assert t.q.resps[k - 1] == s.q.resps[k]; }
      }
    }
  }

  /** Handling an event quiets the stream it is an ERROR event for, and wakes none. */
  lemma HandleQuiets(d: Dev, c: Content, stuck: set<nat>, x: nat)
    requires OwnedArePending(d) && x in d.streams
    ensures Quiet(d, x) || c == ErrorOf(x) ==> Quiet(HandleEvent(d, c, stuck), x)
    ensures OwnedArePending(HandleEvent(d, c, stuck))
  {
    if !c.Blank? && c.sid in d.streams {
      match c
      case FrameDone(sid, rid, failed, eos, erased) =>
        var a := Completion(sid, rid, failed, eos, erased, stuck);
        StepOwned(d, a);
        if Quiet(d, x) { QuietStays(d, a, x); }
      case ErrorOf(sid) =>
        ErrorEventQuiets(d, sid);
        ErrorOwned(d.SetState(sid, SS.Error), sid);
      case ResChange(sid) =>
        SetStateCalm(d, sid, SS.DynamicResChange);
        if Quiet(d, x) { CalmQuiet(d, d.SetState(sid, SS.DynamicResChange), x); }
      case Unknown(_) =>
    }
  }

  lemma HandleOwned(d: Dev, c: Content, stuck: set<nat>)
    requires OwnedArePending(d)
    ensures OwnedArePending(HandleEvent(d, c, stuck))
  {
    hide OwnedArePending;
    if !c.Blank? && c.sid in d.streams { HandleQuiets(d, c, stuck, c.sid); }
  }

  lemma HandleReaches(s: State, stuck: set<nat>)
    requires Telling(s) && AllReached(s) && OwnedArePending(s.dev) && CanStep(s, WkHandle(stuck))
    ensures AllReached(Do(s, WkHandle(stuck)))
  {
    var t := Do(s, WkHandle(stuck));
    forall x | t.q.broken && t.ready && x in t.hist.sent && x !in t.hist.closed
      ensures Reached(t, x)
    {
      assert Reached(s, x) && x in s.dev.streams;
      HandleQuiets(s.dev, s.Content(s.wk.e), stuck, x);
      if !Quiet(t.dev, x) {
        var k :| 0 <= k < |s.q.resps| && s.Content(s.q.resps[k].buf) == ErrorOf(x);
        assert t.q.resps[k] == s.q.resps[k];
      }
    }
  }

  lemma DevStepReaches(s: State, a: Action)
    requires Telling(s) && AllReached(s) && OwnedArePending(s.dev) && CanStep(s, DevStep(a))
    ensures AllReached(Do(s, DevStep(a)))
  {
    var t := Do(s, DevStep(a));
    forall x | t.q.broken && t.ready && x in t.hist.sent && x !in t.hist.closed
      ensures Reached(t, x)
    {
      assert Reached(s, x);
      if Quiet(s.dev, x) {
        QuietStays(s.dev, a, x);
      } else if !(s.wk.Handling? && s.Content(s.wk.e) == ErrorOf(x)) {
        var k :| 0 <= k < |s.q.resps| && s.Content(s.q.resps[k].buf) == ErrorOf(x);
        assert t.q.resps[k] == s.q.resps[k];
      }
    }
  }

  lemma RestReaches(s: State, st: Step)
    requires Telling(s) && AllReached(s) && CanStep(s, st)
    requires !st.RxSend? && !st.RxBreak? && !st.WkTake? && !st.WkHandle? && !st.DevStep?
    ensures AllReached(Do(s, st))
  {
    hide Quiet, OnItsWay;
    var t := Do(s, st);
    if s.q.broken && t.ready {
      RestStaysOnWay(s, st);
    }
  }

  lemma RestStaysOnWay(s: State, st: Step)
    requires Telling(s) && s.q.broken && CanStep(s, st) && Do(s, st).ready
    requires !st.RxSend? && !st.RxBreak? && !st.WkTake? && !st.WkHandle? && !st.DevStep?
    ensures Do(s, st).dev == s.dev && Do(s, st).hist.sent == s.hist.sent && Do(s, st).hist.closed == s.hist.closed
    ensures forall x :: OnItsWay(s, x) ==> OnItsWay(Do(s, st), x)
  {
    hide Visits, Streams, NoneMissed, Capacity;
  }

  /** The broadcast has not told anybody yet. */
  lemma BreakReaches(s: State)
    requires CanStep(s, RxBreak)
    ensures AllReached(Do(s, RxBreak))
  {
  }

  // ---- every run ----

  ghost predicate Sound(s: State) {
    Conserved(s) && OwnedArePending(s.dev) && Telling(s) && AllReached(s)
  }

  lemma StepOwnedDev(s: State, st: Step)
    requires OwnedArePending(s.dev) && CanStep(s, st)
    ensures OwnedArePending(Do(s, st).dev)
  {
    hide HandleEvent, Apply, Enabled, OwnedArePending;
    match st
    case DevStep(a) => StepOwned(s.dev, a);
    case WkHandle(stuck) =>
      var c := s.Content(s.wk.e);
      HandleOwned(s.dev, c, stuck);
    case _ =>
  }

  lemma StepTells(s: State, st: Step)
    requires Sound(s) && CanStep(s, st)
    ensures Telling(Do(s, st))
  {
    hide Conserved, Telling, OwnedArePending, AllReached, CanStep, Do;
    if st.RxBreak? {
      BreakTells(s);
    } else if !s.q.broken {
      UnbrokenTells(s, st);
    } else {
      match st
      case RxGiveBack => GiveBackTells(s);
      case RxNext(_) => TurnTells(s, st);
      case RxFinish => TurnTells(s, st);
      case RxGetBuf => GetBufTells(s);
      case RxSend => SendTells(s);
      case DevStep(_) => DeviceTells(s, st);
      case WkHandle(_) => DeviceTells(s, st);
      case _ => RestTells(s, st);
    }
  }

  lemma UnbrokenTells(s: State, st: Step)
    requires CanStep(s, st) && !s.q.broken && !st.RxBreak?
    ensures Telling(Do(s, st))
  {
    hide HandleEvent, Apply, Enabled;
    assert !Do(s, st).q.broken;
  }

  lemma BreakTells(s: State)
    requires CanStep(s, RxBreak)
    ensures Telling(Do(s, RxBreak))
  {
  }

  /** Once the queue is broken, what is left but the broadcast does not touch it: the worker
      takes and gives up buffers, and the device goes. */
  lemma RestTells(s: State, st: Step)
    requires Telling(s) && s.q.broken && CanStep(s, st)
    requires !st.RxBreak? && !st.RxGiveBack? && !st.RxNext? && !st.RxFinish? && !st.RxGetBuf? && !st.RxSend? && !st.DevStep? && !st.WkHandle?
    ensures Telling(Do(s, st))
  {
    hide Visits, Streams, NoneMissed;
  }

  lemma StepReaches(s: State, st: Step)
    requires Sound(s) && CanStep(s, st)
    ensures AllReached(Do(s, st))
  {
    hide Conserved, Telling, OwnedArePending, AllReached, CanStep, Do;
    match st
    case RxSend => SendReaches(s);
    case RxBreak => BreakReaches(s);
    case WkTake => TakeReaches(s);
    case WkHandle(stuck) => HandleReaches(s, stuck);
    case DevStep(a) => DevStepReaches(s, a);
    case _ => RestReaches(s, st);
  }

  lemma {:induction false} SoundHolds(s: State, run: seq<Step>, t: State)
    requires Sound(s) && Runs(s, run, t)
    ensures Sound(t)
    decreases |run|
  {
    if run != [] {
      StepConserves(s, run[0]);
      StepOwnedDev(s, run[0]);
      StepTells(s, run[0]);
      StepReaches(s, run[0]);
      SoundHolds(Do(s, run[0]), run[1..], t);
    }
  }

  // ---- the theorem ----

  ghost function Elements(l: seq<nat>): set<nat> {
    set x | x in l
  }

  lemma {:induction false} CountElements(l: seq<nat>)
    requires Increasing(l)
    ensures |Elements(l)| == |l|
    decreases |l|
  {
    if l != [] {
      var n := |l| - 1;
      CountElements(l[..n]);
      assert l == l[..n] + [l[n]];
      assert Elements(l) == Elements(l[..n]) + {l[n]};
      assert l[n] !in l[..n];
    }
  }

  lemma SubsetSize(a: set<nat>, b: set<nat>)
    requires a <= b
    ensures |a| <= |b|
  {
    assert b == a + (b - a);
  }

  /** With as many free buffers as streams, no stream is passed over. */
  lemma NoneSkipped(s: State)
    requires Telling(s) && s.q.broken && s.ready && |s.hist.open| <= s.hist.free
    ensures s.hist.skipped == []
  {
    var sent, skipped := Elements(s.hist.sent), Elements(s.hist.skipped);
    CountElements(s.hist.sent);
    CountElements(s.hist.skipped);
    assert |sent + skipped| == |sent| + |skipped|;
    SubsetSize(sent + skipped, s.hist.open);
  }
}

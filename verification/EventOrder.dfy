/** Events are handled once each, in the order in which they came: over every interleaving of
    receiver, worker and the rest of the driver, as long as the queue is not torn down. */
module EventOrder {
  import opened Sequences
  import opened HabVirtqueue
  import opened BufferOwnership
  import opened EventQueue
  import opened ErrorBroadcast

  // ---- histories, read off the run ----

  /** What a step adds to the events that have come: what the host has sent, or the ERROR event
      the failing receiver makes up. */
  function Comes(s: State, st: Step): seq<Content> {
    match st
    case RxOk(c) => [c]
    case RxSend => if s.rx.Sending? then [ErrorOf(s.rx.sid)] else []
    case _ => []
  }

  /** What a step hands to the event handler. */
  function Hands(s: State, st: Step): seq<Content> {
    if st.WkHandle? && s.wk.Handling? then [s.Content(s.wk.e)] else []
  }

  ghost function Come(s: State, run: seq<Step>): seq<Content>
    decreases |run|
  {
    if run == [] || !CanStep(s, run[0]) then [] else Comes(s, run[0]) + Come(Do(s, run[0]), run[1..])
  }

  ghost function Handled(s: State, run: seq<Step>): seq<Content>
    decreases |run|
  {
    if run == [] || !CanStep(s, run[0]) then [] else Hands(s, run[0]) + Handled(Do(s, run[0]), run[1..])
  }

  /** What the given buffers say, in order. */
  function Say(s: State, l: seq<Node<nat>>): seq<Content> {
    seq(|l|, i requires 0 <= i < |l| => s.Content(l[i].buf))
  }

  function InHandler(s: State): seq<Content> {
    if s.wk.Handling? then [s.Content(s.wk.e)] else []
  }

  function InReceiver(s: State): seq<Content> {
    if s.rx.Received? then [s.Content(s.rx.e)] else []
  }

  /** The events that have come and have not been handled, oldest first. */
  function Outstanding(s: State): seq<Content> {
    InHandler(s) + Say(s, s.q.resps) + InReceiver(s)
  }

  // ---- one step ----

  /** A buffer in the worker's hands is nowhere else. */
  lemma InWorkersHand(s: State, e: nat)
    requires Where(s).Once() && s.wk.Holds() == [e]
    ensures e !in Bufs(s.q.resps) && e !in Bufs(s.q.vbufs) && s.rx.Holds() != [e]
  {
    var p := Where(s);
    assert p.BufAt(e) <= 1;
    TimesOne(s.wk.Holds(), e);
    TimesIn(Bufs(s.q.vbufs), e);
    TimesIn(Bufs(s.q.resps), e);
    TimesIn(s.rx.Holds(), e);
  }

  /** Refilling a buffer that is not on the list changes nothing that is said there. */
  lemma SaySame(s: State, t: State, l: seq<Node<nat>>, e: nat)
    requires e !in Bufs(l) && forall b :: b != e ==> t.Content(b) == s.Content(b)
    ensures Say(t, l) == Say(s, l)
  {
    forall i | 0 <= i < |l|
      ensures l[i].buf != e
    {
      assert Bufs(l)[i] == l[i].buf;
    }
  }

  ghost predicate InOrderStep(s: State, st: Step)
    requires CanStep(s, st)
  {
    Outstanding(s) + Comes(s, st) == Hands(s, st) + Outstanding(Do(s, st))
  }

  lemma FillInOrder(s: State, c: Content)
    requires Conserved(s) && CanStep(s, RxOk(c))
    ensures InOrderStep(s, RxOk(c))
  {
    InOneHand(s, s.rx.e);
    SaySame(s, Do(s, RxOk(c)), s.q.resps, s.rx.e);
  }

  lemma DeliverInOrder(s: State)
    requires Conserved(s) && CanStep(s, RxDeliver)
    ensures InOrderStep(s, RxDeliver)
  {
    NodeAtHand(Where(s));
    var t := Do(s, RxDeliver);
    assert Say(t, t.q.resps) == Say(s, s.q.resps) + InReceiver(s);
  }

  lemma SendInOrder(s: State)
    requires Conserved(s) && CanStep(s, RxSend)
    ensures InOrderStep(s, RxSend)
  {
    NodeAtHand(Where(s));
    InOneHand(s, s.rx.e);
    SendSays(s);
  }

  lemma SendSays(s: State)
    requires CanStep(s, RxSend) && s.q.unused != [] && s.rx.e !in Bufs(s.q.resps) && s.wk.Holds() != [s.rx.e]
    ensures InOrderStep(s, RxSend)
  {
    var t := Do(s, RxSend);
    SaySame(s, t, s.q.resps, s.rx.e);
    assert Say(t, t.q.resps) == Say(s, s.q.resps) + [ErrorOf(s.rx.sid)];
  }

  lemma TakeInOrder(s: State)
    requires CanStep(s, WkTake)
    ensures InOrderStep(s, WkTake)
  {
    var t := Do(s, WkTake);
    assert Say(s, s.q.resps) == [s.Content(s.q.resps[0].buf)] + Say(t, t.q.resps);
  }

  lemma HandleInOrder(s: State, stuck: set<nat>)
    requires CanStep(s, WkHandle(stuck))
    ensures InOrderStep(s, WkHandle(stuck))
  {
    hide HandleEvent;
    var t := Do(s, WkHandle(stuck));
    assert Say(t, t.q.resps) == Say(s, s.q.resps);
    assert Outstanding(s) == [s.Content(s.wk.e)] + (Say(s, s.q.resps) + InReceiver(s));
  }

  lemma CheckInOrder(s: State)
    requires Conserved(s) && CanStep(s, WkCheck)
    ensures InOrderStep(s, WkCheck)
  {
    InWorkersHand(s, s.wk.e);
    SaySame(s, Do(s, WkCheck), s.q.resps, s.wk.e);
  }

  lemma RestInOrder(s: State, st: Step)
    requires CanStep(s, st) && Do(s, st).ready
    requires !st.RxOk? && !st.RxDeliver? && !st.RxSend? && !st.WkTake? && !st.WkHandle? && !st.WkCheck?
    ensures InOrderStep(s, st)
  {
    var t := Do(s, st);
    RestKeeps(s, st);
    hide Do, CanStep;
    assert Say(t, t.q.resps) == Say(s, s.q.resps);
  }

  lemma RestKeeps(s: State, st: Step)
    requires CanStep(s, st) && Do(s, st).ready
    requires !st.RxOk? && !st.RxDeliver? && !st.RxSend? && !st.WkTake? && !st.WkHandle? && !st.WkCheck?
    ensures var t := Do(s, st);
            && t.q.resps == s.q.resps && t.content == s.content && InHandler(t) == InHandler(s) && InReceiver(t) == InReceiver(s)
            && Comes(s, st) == [] && Hands(s, st) == []
  {
    hide Apply, Enabled, HandleEvent;
  }

  lemma StepInOrder(s: State, st: Step)
    requires Conserved(s) && CanStep(s, st) && Do(s, st).ready
    ensures InOrderStep(s, st)
  {
    hide InOrderStep, Conserved, CanStep, Do;
    match st
    case RxOk(c) => FillInOrder(s, c);
    case RxDeliver => DeliverInOrder(s);
    case RxSend => SendInOrder(s);
    case WkTake => TakeInOrder(s);
    case WkHandle(stuck) => HandleInOrder(s, stuck);
    case WkCheck => CheckInOrder(s);
    case _ => RestInOrder(s, st);
  }

  lemma NeverReadyAgain(s: State, st: Step)
    requires CanStep(s, st)
    ensures Do(s, st).ready ==> s.ready
  {
    hide Apply, Enabled, HandleEvent;
  }

  lemma {:induction false} ReadyAllAlong(s: State, run: seq<Step>, t: State)
    requires Runs(s, run, t) && t.ready
    ensures s.ready
    decreases |run|
  {
    hide CanStep, Do;
    if run != [] {
      ReadyAllAlong(Do(s, run[0]), run[1..], t);
      NeverReadyAgain(s, run[0]);
    }
  }

  // ---- every run ----

  lemma {:induction false} InOrderHolds(s: State, run: seq<Step>, t: State)
    requires Conserved(s) && Runs(s, run, t) && t.ready
    ensures Outstanding(s) + Come(s, run) == Handled(s, run) + Outstanding(t)
    decreases |run|
  {
    hide Conserved, CanStep, Do, Outstanding, Comes, Hands;
    if run != [] {
      var s1 := Do(s, run[0]);
      StepConserves(s, run[0]);
      InOrderHolds(s1, run[1..], t);
      ReadyAllAlong(s1, run[1..], t);
      StepInOrder(s, run[0]);
      Shift(Outstanding(s), Comes(s, run[0]), Come(s1, run[1..]), Hands(s, run[0]), Outstanding(s1), Handled(s1, run[1..]), Outstanding(t));
    }
  }

  lemma Shift<T>(o: seq<T>, c: seq<T>, cs: seq<T>, h: seq<T>, o1: seq<T>, hs: seq<T>, o2: seq<T>)
    requires o + c == h + o1 && o1 + cs == hs + o2
    ensures o + (c + cs) == (h + hs) + o2
  {
    assert o + (c + cs) == (o + c) + cs == (h + o1) + cs == h + (o1 + cs) == h + (hs + o2) == (h + hs) + o2;
  }

  /** From the start, and while the queue stays: the events handled are, in order and once each,
      those that have come, less the ones still outstanding. So when the worker has emptied
      the queue, everything that has come has been handled. */
  lemma HandledInOrder(d: Dev, run: seq<Step>, t: State)
    requires Runs(EventQueue.Start(d), run, t) && t.ready
    ensures Come(EventQueue.Start(d), run) == Handled(EventQueue.Start(d), run) + Outstanding(t)
    ensures t.q.resps == [] && !t.wk.Handling? && !t.rx.Received? ==> Handled(EventQueue.Start(d), run) == Come(EventQueue.Start(d), run)
  {
    hide Come, Handled, Runs, Conserved, EventQueue.Start, Outstanding;
    var s := EventQueue.Start(d);
    StartConserved(d);
    InOrderHolds(s, run, t);
    NoneAtStart(d);
    assert [] + Come(s, run) == Come(s, run);
    if t.q.resps == [] && !t.wk.Handling? && !t.rx.Received? {
      NoneOutstanding(t);
      assert Handled(s, run) + [] == Handled(s, run);
    }
  }

  lemma NoneAtStart(d: Dev)
    ensures Outstanding(EventQueue.Start(d)) == []
  {
  }

  lemma NoneOutstanding(s: State)
    requires s.q.resps == [] && !s.wk.Handling? && !s.rx.Received?
    ensures Outstanding(s) == []
  {
  }

  // ---- the buffers offered to the host ----

  /** Until the queue breaks, every buffer offered to the host, or on its way there, has been
      zeroed. */
  ghost predicate Blanks(s: State) {
    && (s.rx.GivingBack? || s.rx.Telling() ==> s.q.broken)
    && (!s.q.broken ==>
         && AllBlank(s, s.q.vbufs)
         && (s.rx.Holding? ==> s.Content(s.rx.e) == Blank)
         && (s.wk.Wanting? || s.wk.Placing? ==> s.Content(s.wk.e) == Blank))
  }

  ghost predicate AllBlank(s: State, l: seq<Node<nat>>) {
    forall k :: 0 <= k < |l| ==> s.Content(l[k].buf) == Blank
  }

  lemma InReceiversHand(s: State, e: nat)
    requires Where(s).Once() && s.rx.Holds() == [e]
    ensures e !in Bufs(s.q.vbufs) && s.wk.Holds() != [e]
  {
    var p := Where(s);
    assert p.BufAt(e) <= 1;
    TimesOne(s.rx.Holds(), e);
    TimesIn(Bufs(s.q.vbufs), e);
    TimesIn(s.wk.Holds(), e);
  }

  /** Writing into a buffer that is not offered. */
  lemma AllBlankSame(s: State, t: State, l: seq<Node<nat>>, e: nat)
    requires AllBlank(s, l) && (forall b :: b != e ==> t.Content(b) == s.Content(b)) && (e !in Bufs(l) || t.Content(e) == Blank)
    ensures AllBlank(t, l)
  {
    forall k | 0 <= k < |l|
      ensures t.Content(l[k].buf) == Blank
    {
      assert Bufs(l)[k] == l[k].buf;
    }
  }

  lemma RxBlanks(s: State, st: Step)
    requires Conserved(s) && Blanks(s) && CanStep(s, st)
    requires st.RxTake? || st.RxOk? || st.RxIntr? || st.RxDeliver?
    ensures Blanks(Do(s, st))
  {
    NodeAtHand(Where(s));
    if st.RxOk? {
      InReceiversHand(s, s.rx.e);
      if !s.q.broken { AllBlankSame(s, Do(s, st), s.q.vbufs, s.rx.e); }
    }
  }

  lemma WkBlanks(s: State, st: Step)
    requires Conserved(s) && Blanks(s) && CanStep(s, st)
    requires st.WkCheck? || st.WkNode? || st.WkPlace? || st.WkTake?
    ensures Blanks(Do(s, st))
  {
    NodeAtHand(Where(s));
    if st.WkCheck? {
      InWorkersHand(s, s.wk.e);
      if !s.q.broken { AllBlankSame(s, Do(s, st), s.q.vbufs, s.wk.e); }
    }
  }

  lemma RestBlanks(s: State, st: Step)
    requires Blanks(s) && CanStep(s, st)
    requires !(st.RxTake? || st.RxOk? || st.RxIntr? || st.RxDeliver? || st.WkCheck? || st.WkNode? || st.WkPlace? || st.WkTake?)
    ensures Blanks(Do(s, st))
  {
    hide Apply, Enabled, HandleEvent;
  }

  lemma StepBlanks(s: State, st: Step)
    requires Conserved(s) && Blanks(s) && CanStep(s, st)
    ensures Blanks(Do(s, st))
  {
    hide Conserved, Blanks, CanStep, Do;
    match st
    case RxTake => RxBlanks(s, st);
    case RxOk(_) => RxBlanks(s, st);
    case RxIntr => RxBlanks(s, st);
    case RxDeliver => RxBlanks(s, st);
    case WkCheck => WkBlanks(s, st);
    case WkNode => WkBlanks(s, st);
    case WkPlace => WkBlanks(s, st);
    case WkTake => WkBlanks(s, st);
    case _ => RestBlanks(s, st);
  }

  lemma {:induction false} BlanksHold(s: State, run: seq<Step>, t: State)
    requires Conserved(s) && Blanks(s) && Runs(s, run, t)
    ensures Conserved(t) && Blanks(t)
    decreases |run|
  {
    hide Conserved, Blanks, CanStep, Do;
    if run != [] {
      StepConserves(s, run[0]);
      StepBlanks(s, run[0]);
      BlanksHold(Do(s, run[0]), run[1..], t);
    }
  }

  /** The receiver takes the oldest offered buffer; with none at hand it fails at once, for it
      never waits. The worker gives a handled buffer back zeroed, or gives it up if the queue
      is broken. */
  lemma HandsExact(s: State, st: Step)
    requires CanStep(s, st)
    ensures var t := Do(s, st);
            && (st.RxTake? && s.q.vbufs == [] ==> t == s.(rx := Failing(None)))
            && (st.RxTake? && s.q.vbufs != [] ==> t.rx == Holding(Bufs(s.q.vbufs)[0]) && Bufs(t.q.vbufs) == Bufs(s.q.vbufs)[1..])
            && (st.WkCheck? && s.q.broken ==> t == s.(wk := Resting, dropped := s.dropped + [s.wk.e]))
            && (st.WkCheck? && !s.q.broken ==> t == s.(wk := Wanting(s.wk.e), content := t.content) && t.Content(s.wk.e) == Blank)
  {
    hide Apply, Enabled, HandleEvent;
    if st.RxTake? && s.q.vbufs != [] {
      IdsTail(s.q.vbufs);
    }
  }

  /** Over every run, until the queue breaks, the host is only ever offered zeroed buffers. */
  lemma OffersAreBlank(d: Dev, run: seq<Step>, t: State)
    requires Runs(EventQueue.Start(d), run, t) && !t.q.broken
    ensures forall k :: 0 <= k < |t.q.vbufs| ==> t.Content(t.q.vbufs[k].buf) == Blank
    ensures t.rx.Holding? ==> t.Content(t.rx.e) == Blank
  {
    StartConserved(d);
    assert Blanks(EventQueue.Start(d));
    BlanksHold(EventQueue.Start(d), run, t);
  }
}

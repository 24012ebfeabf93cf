/** The event side of the driver: 512 event buffers circulate over the 512 nodes of a second
    virtqueue between a receiver thread, which fills them from the host's socket, and one
    worker, which handles them and gives them back. Each section under the queue's lock is a
    step, and so is each handler. When the receiver fails it sends every open stream an
    ERROR event in a buffer taken from the same queue. */
module EventQueue {
  import opened Sequences
  import opened HabVirtqueue
  import opened ExportCache
  import opened BufferOwnership
  import SS = StreamState

  /** What an event buffer says. */
  datatype Content =
    | Blank
    | FrameDone(sid: nat, rid: nat, failed: bool, eos: bool, erased: seq<nat>)
    | ResChange(sid: nat)
    | ErrorOf(sid: nat)
    | Unknown(sid: nat)

  /** Where the receiver is. */
  datatype Rx =
    | Waiting
    | Holding(e: nat)
    | Received(e: nat)
    | Failing(msg: Option<nat>)
    | GivingBack(msg: Option<nat>)
    | Broadcasting(cursor: nat)
    | Visiting(sid: nat)
    | Sending(e: nat, sid: nat)
    | Exited
  {
    function Holds(): seq<nat> {
      match this
      case Holding(e) => [e]
      case Received(e) => [e]
      case Failing(Some(e)) => [e]
      case GivingBack(Some(e)) => [e]
      case Sending(e, _) => [e]
      case _ => []
    }

    predicate Telling() {
      Broadcasting? || Visiting? || Sending?
    }
  }

  /** Where the worker is: between its two sections of add_sgs it also holds a node. */
  datatype Wk = Resting | Handling(e: nat) | Returning(e: nat) | Wanting(e: nat) | Placing(e: nat, node: nat) {
    function Holds(): seq<nat> {
      if Resting? then [] else [e]
    }

    function HoldsNode(): seq<nat> {
      if Placing? then [node] else []
    }
  }

  /** The broadcast's history: event buffers free and streams open when the receiver failed,
      streams open then or since, those closed since, and those sent an event or passed over
      for want of a buffer. */
  datatype Hist = Hist(free: nat, atFail: set<nat>, open: set<nat>, closed: set<nat>, sent: seq<nat>, skipped: seq<nat>)

  /** `dropped` are buffers given up on purpose, after the queue broke or its device left;
      `lost` are buffers that found no node to sit on. */
  datatype State = State(q: Hvq<nat>, rx: Rx, wk: Wk, content: map<nat, Content>, dropped: seq<nat>, lost: seq<nat>,
                         ready: bool, dev: Dev, hist: Hist)
  {
    /** What buffer e says: buffers start out zeroed. */
    function Content(e: nat): Content {
      if e in content then content[e] else Blank
    }
  }

  datatype Step =
    | RxTake | RxOk(c: Content) | RxIntr | RxClosed | RxError | RxDeliver | RxStop
    | RxBreak | RxGiveBack | RxNext(sid: nat) | RxGetBuf | RxSend | RxFinish
    | WkTake | WkHandle(stuck: set<nat>) | WkCheck | WkNode | WkPlace
    | DevStep(a: Action)
    | Unready | Detach

  function AttachOrLose(s: State, w: Which, e: nat): State {
    if s.q.unused == [] then s.(lost := s.lost + [e]) else s.(q := s.q.Attach(w, e))
  }

  ghost predicate IsNext(d: Dev, cursor: nat, sid: nat) {
    sid in d.streams && cursor <= sid && forall s :: s in d.streams && cursor <= s ==> sid <= s
  }

  /** virtio_video_handle_event: an event for a stream that is gone is ignored. */
  function HandleEvent(d: Dev, c: Content, stuck: set<nat>): Dev {
    if c.Blank? || c.sid !in d.streams then d
    else match c
      case FrameDone(sid, rid, failed, eos, erased) => Complete(d, sid, rid, failed, eos, erased, stuck)
      case ResChange(sid) => if d.State(sid) == SS.Init then d.SetState(sid, SS.DynamicResChange) else d
      case ErrorOf(sid) => ErrorEvent(d, sid)
      case Unknown(_) => d
  }

  /** The worker alone runs completions and error events. */
  predicate FromUser(a: Action) {
    !a.Completion? && !a.ErrorOn?
  }

  function Note(h: Hist, a: Action): Hist {
    match a
    case Open(sid) => h.(open := h.open + {sid})
    case Close(sid, _) => h.(closed := h.closed + {sid})
    case _ => h
  }

  ghost predicate CanStep(s: State, st: Step) {
    match st
    case RxTake => s.rx.Waiting?
    case RxOk(_) => s.rx.Holding?
    case RxIntr => s.rx.Holding?
    case RxClosed => s.rx.Holding?
    case RxError => s.rx.Holding?
    case RxDeliver => s.rx.Received?
    case RxStop => s.rx.Waiting?
    case RxBreak => s.rx.Failing?
    case RxGiveBack => s.rx.GivingBack?
    case RxNext(sid) => s.rx.Broadcasting? && IsNext(s.dev, s.rx.cursor, sid)
    case RxGetBuf => s.rx.Visiting?
    case RxSend => s.rx.Sending?
    case RxFinish => s.rx.Broadcasting? && forall x :: x in s.dev.streams ==> x < s.rx.cursor
    case WkTake => s.wk.Resting? && s.ready && s.q.resps != []
    case WkHandle(_) => s.wk.Handling?
    case WkCheck => s.wk.Returning?
    case WkNode => s.wk.Wanting?
    case WkPlace => s.wk.Placing?
    case DevStep(a) => FromUser(a) && Enabled(s.dev, a)
    case Unready => s.ready
    case Detach => !s.ready && (s.q.vbufs != [] || s.q.resps != [])
  }

  ghost function Do(s: State, st: Step): State
    requires CanStep(s, st)
  {
    match st
    // get_one_evt_buf never waits: no free buffer means failure
    case RxTake =>
      var (q, e) := s.q.Unattach(VbufList);
      if e.None? then s.(rx := Failing(None)) else s.(q := q, rx := Holding(e.value))
    case RxOk(c) => s.(content := s.content[s.rx.e := c], rx := Received(s.rx.e))
    case RxIntr => AttachOrLose(s, VbufList, s.rx.e).(rx := Waiting)
    case RxClosed => s.(dropped := s.dropped + [s.rx.e], rx := Exited)
    case RxError => s.(rx := Failing(Some(s.rx.e)))
    case RxDeliver =>
      if s.q.unused == [] then s.(rx := Failing(Some(s.rx.e)))
      else s.(q := s.q.Attach(RespList, s.rx.e), rx := Waiting)
    case RxStop => s.(rx := Exited)
    case RxBreak =>
      s.(q := s.q.(broken := true), rx := GivingBack(s.rx.msg),
         hist := Hist(|s.q.vbufs| + |s.rx.Holds()|, s.dev.streams.Keys, s.dev.streams.Keys, {}, [], []))
    case RxGiveBack =>
      (if s.rx.msg.None? then s else AttachOrLose(s, VbufList, s.rx.msg.value)).(rx := Broadcasting(0))
    case RxNext(sid) => s.(rx := Visiting(sid))
    case RxGetBuf =>
      var (q, e) := s.q.Unattach(VbufList);
      if e.None? then s.(rx := Broadcasting(s.rx.sid + 1), hist := s.hist.(skipped := s.hist.skipped + [s.rx.sid]))
      else s.(q := q, rx := Sending(e.value, s.rx.sid))
    case RxSend =>
      AttachOrLose(s.(content := s.content[s.rx.e := ErrorOf(s.rx.sid)]), RespList, s.rx.e)
        .(rx := Broadcasting(s.rx.sid + 1), hist := s.hist.(sent := s.hist.sent + [s.rx.sid]))
    case RxFinish => s.(rx := Exited)
    case WkTake =>
      var (q, e) := s.q.Unattach(RespList);
      s.(q := q, wk := Handling(e.value))
    case WkHandle(stuck) => s.(dev := HandleEvent(s.dev, s.Content(s.wk.e), stuck), wk := Returning(s.wk.e))
    case WkCheck =>
      if s.q.broken then s.(dropped := s.dropped + [s.wk.e], wk := Resting)
      else s.(content := s.content[s.wk.e := Blank], wk := Wanting(s.wk.e))
    case WkNode =>
      if s.q.unused == [] then s.(lost := s.lost + [s.wk.e], wk := Resting)
      else s.(q := s.q.(unused := s.q.unused[1..]), wk := Placing(s.wk.e, s.q.unused[0]))
    case WkPlace => s.(q := s.q.(vbufs := s.q.vbufs + [Node(s.wk.node, s.wk.e)]), wk := Resting)
    case DevStep(a) => s.(dev := Apply(s.dev, a), hist := Note(s.hist, a))
    case Unready => s.(ready := false)
    case Detach =>
      var (q, e) := s.q.Detach();
      s.(q := q, dropped := s.dropped + [e.value])
  }

  ghost predicate Runs(s: State, run: seq<Step>, t: State)
    decreases |run|
  {
    if run == [] then s == t else CanStep(s, run[0]) && Runs(Do(s, run[0]), run[1..], t)
  }

  /** virtio_video_alloc_events has queued every buffer. */
  function Filled(n: nat): Hvq<nat> {
    Hvq([], seq(n, i requires 0 <= i < n => Node(i, i)), [], false)
  }

  function Start(d: Dev): State {
    State(Filled(DEFAULT_VQ_NUM), Waiting, Resting, map[], [], [], true, d,
          Hist(0, {}, {}, {}, [], []))
  }

  // ---- conservation ----

  /** Where the buffers and the nodes are. */
  datatype Places = Places(unused: seq<nat>, vbufs: seq<Node<nat>>, resps: seq<Node<nat>>, rxHeld: seq<nat>,
                           wkHeld: seq<nat>, wkNode: seq<nat>, dropped: seq<nat>, lost: seq<nat>)
  {
    /** In how many places buffer e is. */
    function BufAt(e: nat): nat {
      Times(Bufs(vbufs), e) + Times(Bufs(resps), e) + Times(rxHeld, e) + Times(wkHeld, e) + Times(dropped, e) + Times(lost, e)
    }

    /** In how many places node n is. */
    function NodeAt(n: nat): nat {
      Times(unused, n) + Times(Ids(vbufs), n) + Times(Ids(resps), n) + Times(wkNode, n)
    }

    function BufCount(): nat {
      |vbufs| + |resps| + |rxHeld| + |wkHeld| + |dropped| + |lost|
    }

    function NodeCount(): nat {
      |unused| + |vbufs| + |resps| + |wkNode|
    }

    /** Each buffer and each node of the pool is in one place, and nothing else is anywhere. */
    ghost predicate Once() {
      && (forall e: nat :: BufAt(e) == if e < DEFAULT_VQ_NUM then 1 else 0)
      && (forall n: nat :: NodeAt(n) == if n < DEFAULT_VQ_NUM then 1 else 0)
    }

    /** So their numbers add up; and no buffer ever failed to find a node. */
    predicate Sized() {
      BufCount() == DEFAULT_VQ_NUM && NodeCount() == DEFAULT_VQ_NUM && lost == [] && |wkNode| <= |wkHeld|
    }
  }

  function Where(s: State): Places {
    Places(s.q.unused, s.q.vbufs, s.q.resps, s.rx.Holds(), s.wk.Holds(), s.wk.HoldsNode(), s.dropped, s.lost)
  }

  /** How often x is in l. */
  function Times(l: seq<nat>, x: nat): nat
    decreases |l|
  {
    if l == [] then 0 else (if l[0] == x then 1 else 0) + Times(l[1..], x)
  }

  ghost predicate Conserved(s: State) {
    Where(s).Once() && Where(s).Sized()
  }

  /** There is a free node for each buffer in somebody's hands or given up, less the one the
      worker has already taken; so whoever needs a node finds one. */
  lemma NodeAtHand(p: Places)
    requires p.Sized()
    ensures |p.unused| + |p.wkNode| == |p.rxHeld| + |p.wkHeld| + |p.dropped|
    ensures p.rxHeld != [] || |p.wkNode| < |p.wkHeld| ==> p.unused != []
  {
  }

  /** How one step moves a buffer or a node. */
  datatype Move = Stay | RxTakes | RxFrees | RxFills | RxGivesUp | WkTakes | WkGivesUp | WkTakesNode | WkPlaces | DetachFree | DetachFilled

  predicate CanMove(p: Places, m: Move) {
    match m
    case Stay => true
    case RxTakes => p.rxHeld == [] && p.vbufs != []
    case RxFrees => |p.rxHeld| == 1 && p.unused != []
    case RxFills => |p.rxHeld| == 1 && p.unused != []
    case RxGivesUp => |p.rxHeld| == 1
    case WkTakes => p.wkHeld == [] && p.resps != []
    case WkGivesUp => |p.wkHeld| == 1 && p.wkNode == []
    case WkTakesNode => |p.wkHeld| == 1 && p.wkNode == [] && p.unused != []
    case WkPlaces => |p.wkHeld| == 1 && |p.wkNode| == 1
    case DetachFree => p.vbufs != []
    case DetachFilled => p.resps != []
  }

  function Moved(p: Places, m: Move): Places
    requires CanMove(p, m)
  {
    match m
    case Stay => p
    case RxTakes => p.(vbufs := p.vbufs[1..], unused := p.unused + [p.vbufs[0].id], rxHeld := [p.vbufs[0].buf])
    case RxFrees => p.(unused := p.unused[1..], vbufs := p.vbufs + [Node(p.unused[0], p.rxHeld[0])], rxHeld := [])
    case RxFills => p.(unused := p.unused[1..], resps := p.resps + [Node(p.unused[0], p.rxHeld[0])], rxHeld := [])
    case RxGivesUp => p.(rxHeld := [], dropped := p.dropped + [p.rxHeld[0]])
    case WkTakes => p.(resps := p.resps[1..], unused := p.unused + [p.resps[0].id], wkHeld := [p.resps[0].buf])
    case WkGivesUp => p.(wkHeld := [], dropped := p.dropped + [p.wkHeld[0]])
    case WkTakesNode => p.(unused := p.unused[1..], wkNode := [p.unused[0]])
    case WkPlaces => p.(vbufs := p.vbufs + [Node(p.wkNode[0], p.wkHeld[0])], wkNode := [], wkHeld := [])
    case DetachFree => p.(vbufs := p.vbufs[1..], unused := p.unused + [p.vbufs[0].id], dropped := p.dropped + [p.vbufs[0].buf])
    case DetachFilled => p.(resps := p.resps[1..], unused := p.unused + [p.resps[0].id], dropped := p.dropped + [p.resps[0].buf])
  }

  lemma TimesBufsTail(l: seq<Node<nat>>, x: nat)
    requires l != []
    ensures Times(Bufs(l), x) == Times(Bufs(l[1..]), x) + (if l[0].buf == x then 1 else 0)
    ensures Times(Ids(l), x) == Times(Ids(l[1..]), x) + (if l[0].id == x then 1 else 0)
  {
    IdsTail(l);
    assert Bufs(l)[1..] == Bufs(l[1..]) && Ids(l)[1..] == Ids(l[1..]);
  }

  lemma {:induction false} TimesLast(l: seq<nat>, y: nat, x: nat)
    ensures Times(l + [y], x) == Times(l, x) + (if y == x then 1 else 0)
    decreases |l|
  {
    if l != [] {
      TimesLast(l[1..], y, x);
      assert (l + [y])[1..] == l[1..] + [y];
    }
  }

  lemma TimesBufsLast(l: seq<Node<nat>>, n: Node<nat>, x: nat)
    ensures Times(Bufs(l + [n]), x) == Times(Bufs(l), x) + (if n.buf == x then 1 else 0)
    ensures Times(Ids(l + [n]), x) == Times(Ids(l), x) + (if n.id == x then 1 else 0)
  {
    IdsAppend(l, n);
    TimesLast(Bufs(l), n.buf, x);
    TimesLast(Ids(l), n.id, x);
  }

  lemma TimesOne(l: seq<nat>, x: nat)
    requires |l| == 1
    ensures Times(l, x) == if l[0] == x then 1 else 0
  {
    assert l[1..] == [];
  }

  ghost predicate SameAt(p: Places, r: Places, x: nat) {
    r.BufAt(x) == p.BufAt(x) && r.NodeAt(x) == p.NodeAt(x)
  }

  lemma TakeOffAt(p: Places, x: nat)
    ensures p.vbufs != [] && p.rxHeld == [] ==> SameAt(p, Moved(p, RxTakes), x)
    ensures p.resps != [] && p.wkHeld == [] ==> SameAt(p, Moved(p, WkTakes), x)
  {
    if p.vbufs != [] {
      TimesBufsTail(p.vbufs, x);
      TimesOne([p.vbufs[0].buf], x);
      TimesLast(p.unused, p.vbufs[0].id, x);
    }
    if p.resps != [] {
      TimesBufsTail(p.resps, x);
      TimesOne([p.resps[0].buf], x);
      TimesLast(p.unused, p.resps[0].id, x);
    }
  }

  lemma DetachAt(p: Places, x: nat)
    ensures p.vbufs != [] ==> SameAt(p, Moved(p, DetachFree), x)
    ensures p.resps != [] ==> SameAt(p, Moved(p, DetachFilled), x)
  {
    if p.vbufs != [] {
      TimesBufsTail(p.vbufs, x);
      TimesLast(p.unused, p.vbufs[0].id, x);
      TimesLast(p.dropped, p.vbufs[0].buf, x);
    }
    if p.resps != [] {
      TimesBufsTail(p.resps, x);
      TimesLast(p.unused, p.resps[0].id, x);
      TimesLast(p.dropped, p.resps[0].buf, x);
    }
  }

  lemma PutOnAt(p: Places, x: nat)
    requires |p.rxHeld| == 1
    ensures p.unused != [] ==> SameAt(p, Moved(p, RxFrees), x) && SameAt(p, Moved(p, RxFills), x)
    ensures SameAt(p, Moved(p, RxGivesUp), x)
  {
    TimesOne(p.rxHeld, x);
    TimesLast(p.dropped, p.rxHeld[0], x);
    if p.unused != [] {
      TimesBufsLast(p.vbufs, Node(p.unused[0], p.rxHeld[0]), x);
      TimesBufsLast(p.resps, Node(p.unused[0], p.rxHeld[0]), x);
    }
  }

  lemma WorkerAt(p: Places, m: Move, x: nat)
    requires CanMove(p, m) && (m.WkGivesUp? || m.WkTakesNode? || m.WkPlaces?)
    ensures SameAt(p, Moved(p, m), x)
  {
    TimesOne(p.wkHeld, x);
    match m
    case WkGivesUp => TimesLast(p.dropped, p.wkHeld[0], x);
    case WkTakesNode => TimesOne([p.unused[0]], x);
    case WkPlaces =>
      TimesOne(p.wkNode, x);
      TimesBufsLast(p.vbufs, Node(p.wkNode[0], p.wkHeld[0]), x);
  }

  /** No move makes a buffer or a node appear or vanish. */
  lemma MoveKeepsAt(p: Places, m: Move, x: nat)
    requires CanMove(p, m)
    ensures SameAt(p, Moved(p, m), x)
  {
    match m
    case Stay =>
    case RxTakes => TakeOffAt(p, x);
    case WkTakes => TakeOffAt(p, x);
    case RxFrees => PutOnAt(p, x);
    case RxFills => PutOnAt(p, x);
    case RxGivesUp => PutOnAt(p, x);
    case DetachFree => DetachAt(p, x);
    case DetachFilled => DetachAt(p, x);
    case _ => WorkerAt(p, m, x);
  }

  lemma MoveKeeps(p: Places, m: Move)
    requires p.Once() && p.Sized() && CanMove(p, m)
    ensures Moved(p, m).Once() && Moved(p, m).Sized()
  {
    forall x: nat
      ensures Moved(p, m).BufAt(x) == p.BufAt(x) && Moved(p, m).NodeAt(x) == p.NodeAt(x)
    {
      MoveKeepsAt(p, m, x);
    }
  }

  /** What each step moves. */
  function MoveOf(s: State, st: Step): Move {
    match st
    case RxTake => if s.q.vbufs == [] then Stay else RxTakes
    case RxGetBuf => if s.q.vbufs == [] then Stay else RxTakes
    case RxIntr => RxFrees
    case RxClosed => RxGivesUp
    case RxDeliver => RxFills
    case RxGiveBack => if s.rx.Holds() == [] then Stay else RxFrees
    case RxSend => RxFills
    case WkTake => WkTakes
    case WkCheck => if s.q.broken then WkGivesUp else Stay
    case WkNode => WkTakesNode
    case WkPlace => WkPlaces
    case Detach => if s.q.vbufs != [] then DetachFree else DetachFilled
    case _ => Stay
  }

  lemma DeviceStays(s: State, st: Step)
    requires CanStep(s, st) && (st.WkHandle? || st.DevStep? || st.Unready?)
    ensures Where(Do(s, st)) == Moved(Where(s), MoveOf(s, st))
  {
    hide HandleEvent, Apply, Enabled;
  }

  lemma QuietRxMoves(s: State, st: Step)
    requires CanStep(s, st)
    requires st.RxOk? || st.RxClosed? || st.RxError? || st.RxStop? || st.RxBreak? || st.RxNext? || st.RxFinish?
    ensures CanMove(Where(s), MoveOf(s, st)) && Where(Do(s, st)) == Moved(Where(s), MoveOf(s, st))
  {
    hide HandleEvent, Apply, Enabled;
  }

  lemma ListRxMoves(s: State, st: Step)
    requires CanStep(s, st) && (s.rx.Holds() != [] ==> s.q.unused != [])
    requires st.RxIntr? || st.RxDeliver? || st.RxGiveBack? || st.RxSend?
    ensures CanMove(Where(s), MoveOf(s, st)) && Where(Do(s, st)) == Moved(Where(s), MoveOf(s, st))
  {
    hide HandleEvent, Apply, Enabled;
  }

  lemma TakeRxMoves(s: State, st: Step)
    requires CanStep(s, st) && (st.RxTake? || st.RxGetBuf?)
    ensures CanMove(Where(s), MoveOf(s, st)) && Where(Do(s, st)) == Moved(Where(s), MoveOf(s, st))
  {
    hide HandleEvent, Apply, Enabled;
  }

  lemma DetachMoves(s: State)
    requires CanStep(s, Detach)
    ensures CanMove(Where(s), MoveOf(s, Detach)) && Where(Do(s, Detach)) == Moved(Where(s), MoveOf(s, Detach))
  {
    hide HandleEvent, Apply, Enabled;
  }

  lemma WkMoves(s: State, st: Step)
    requires CanStep(s, st) && (s.wk.Wanting? ==> s.q.unused != [])
    requires st.WkTake? || st.WkCheck? || st.WkNode? || st.WkPlace?
    ensures CanMove(Where(s), MoveOf(s, st)) && Where(Do(s, st)) == Moved(Where(s), MoveOf(s, st))
  {
    hide HandleEvent, Apply, Enabled;
  }

  lemma StepMoves(s: State, st: Step)
    requires CanStep(s, st)
    requires s.rx.Holds() != [] || s.wk.Wanting? ==> s.q.unused != []
    ensures CanMove(Where(s), MoveOf(s, st)) && Where(Do(s, st)) == Moved(Where(s), MoveOf(s, st))
  {
    hide Where, Moved, CanStep;
    match st
    case WkHandle(_) => DeviceStays(s, st);
    case DevStep(_) => DeviceStays(s, st);
    case Unready => DeviceStays(s, st);
    case WkTake => WkMoves(s, st);
    case WkCheck => WkMoves(s, st);
    case WkNode => WkMoves(s, st);
    case WkPlace => WkMoves(s, st);
    case Detach => DetachMoves(s);
    case RxTake => TakeRxMoves(s, st);
    case RxGetBuf => TakeRxMoves(s, st);
    case RxIntr => ListRxMoves(s, st);
    case RxDeliver => ListRxMoves(s, st);
    case RxGiveBack => ListRxMoves(s, st);
    case RxSend => ListRxMoves(s, st);
    case _ => QuietRxMoves(s, st);
  }

  lemma StepConserves(s: State, st: Step)
    requires Conserved(s) && CanStep(s, st)
    ensures Conserved(Do(s, st))
  {
    NodeAtHand(Where(s));
    StepMoves(s, st);
    MoveKeeps(Where(s), MoveOf(s, st));
  }

  function UpTo(n: nat): seq<nat> {
    seq(n, i requires 0 <= i < n => i)
  }

  lemma {:induction false} UpToOnce(n: nat, x: nat)
    ensures Times(UpTo(n), x) == if x < n then 1 else 0
  {
    if n > 0 {
      UpToOnce(n - 1, x);
      assert UpTo(n) == UpTo(n - 1) + [n - 1];
      TimesLast(UpTo(n - 1), n - 1, x);
    }
  }

  lemma StartConserved(d: Dev)
    ensures Conserved(Start(d))
  {
    var l := Filled(DEFAULT_VQ_NUM).vbufs;
    assert Bufs(l) == UpTo(DEFAULT_VQ_NUM);
    assert Ids(l) == UpTo(DEFAULT_VQ_NUM);
    forall x: nat
      ensures Where(Start(d)).BufAt(x) == Where(Start(d)).NodeAt(x) == if x < DEFAULT_VQ_NUM then 1 else 0
    {
      UpToOnce(DEFAULT_VQ_NUM, x);
    }
  }

  lemma {:induction false} ConservedHolds(s: State, run: seq<Step>, t: State)
    requires Conserved(s) && Runs(s, run, t)
    ensures Conserved(t)
    decreases |run|
  {
    if run != [] {
      StepConserves(s, run[0]);
      ConservedHolds(Do(s, run[0]), run[1..], t);
    }
  }
}

/** The stream state word of driver/virtio_video_device.c under any number of threads, at the
    granularity of single atomic reads and compare-and-swaps. */
module StreamState {
  import opened Sequences

  datatype State = Idle | Init | DynamicResChange | Running | Drain | Stopped | Reset | Error {
    function Rank(): nat {
      match this
      case Idle => 0 case Init => 1 case DynamicResChange => 2 case Running => 3
      case Drain => 4 case Stopped => 5 case Reset => 6 case Error => 7
    }
  }

  /** What virtio_video_state_update promises: unless ERROR, set the new state. */
  function Update(s: State, n: State): State {
    if s == Error then s else n
  }

  /** The driver's code paths that may change the state. */
  datatype Call =
    | DecStartStreaming(capture: bool) | DecSetFormat(output: bool) | DecStop
    | EncStartStreaming(input: bool) | EncStopStreaming(output: bool) | EncSetFormat(capture: bool)
    | EncStart | EncStop
    | ResolutionChanged | ErrorEvent | EndOfStream | HabCommandFailed

  predicate DecoderCall(c: Call) {
    c.DecStartStreaming? || c.DecSetFormat? || c.DecStop? || c.ResolutionChanged? || c.ErrorEvent? ||
    c.EndOfStream? || c.HabCommandFailed?
  }

  datatype Decision = ReadAgain | Skip | Set(target: State)

  /** What a call does after the given atomic reads of the state, in program order. */
  function Decide(c: Call, r: seq<State>): Decision {
    match c
    case DecStartStreaming(capture) =>
      if |r| == 0 then ReadAgain
      else if r[0] == Error || !capture then Skip
      else if |r| == 1 then ReadAgain
      else if r[1].Rank() >= Init.Rank() then Set(Running) else Skip
    case DecSetFormat(output) =>
      if !output then Skip else if |r| == 0 then ReadAgain else if r[0] == Idle then Set(Init) else Skip
    case DecStop => CodecCommand(r, Drain)
    case EncStartStreaming(input) =>
      if |r| == 0 then ReadAgain
      else if r[0] == Error then Skip
      else if |r| == 1 then ReadAgain
      else if r[1] == Init then Set(Running)
      else if |r| == 2 then ReadAgain
      else if r[2] == (if input then Stopped else Reset) then Set(Running) else Skip
    case EncStopStreaming(output) => Set(if output then Stopped else Reset)
    case EncSetFormat(capture) =>
      if !capture then Skip else if |r| == 0 then ReadAgain else if r[0] == Idle then Set(Init) else Skip
    case EncStart => CodecCommand(r, Running)
    case EncStop => CodecCommand(r, Drain)
    case ResolutionChanged =>
      if |r| == 0 then ReadAgain else if r[0] == Init then Set(DynamicResChange) else Skip
    case ErrorEvent => Set(Error)
    case EndOfStream => Set(Stopped)
    case HabCommandFailed => Set(Error)
  }

  /** virtio_video_try_decoder_cmd / _encoder_cmd, then the update. */
  function CodecCommand(r: seq<State>, n: State): Decision {
    if |r| == 0 then ReadAgain
    else if r[0] == Error then Skip
    else if |r| == 1 then ReadAgain
    else if r[1] == Drain then Skip else Set(n)
  }

  /** The last reading a call based its decision on, and how many updates were logged then. */
  datatype Guard = Guard(seen: State, at: nat)

  datatype Thread =
    | Deciding(sofar: seq<State>, at: nat)
    | LoopTop(target: State, guard: Option<Guard>)                 // before atomic_read in state_update
    | HaveRead(target: State, prev: State, guard: Option<Guard>)   // before atomic_cmpxchg
    | Done
  {
    predicate AtTop(n: State) {
      LoopTop? && target == n
    }

    function LastGuard(): Option<Guard> {
      match this
      case Deciding(r, at) => if r == [] then None else Some(Guard(r[|r| - 1], at))
      case LoopTop(_, g) => g
      case HaveRead(_, _, g) => g
      case Done => None
    }
  }

  /** `log` is history: the updates in the order of their linearization points. */
  datatype System = System(cell: State, calls: map<nat, Call>, threads: map<nat, Thread>, log: seq<(nat, State)>)

  function Opened(): System {
    System(Idle, map[], map[], [])
  }

  datatype Action = Begin(tid: nat, call: Call) | Step(tid: nat)

  predicate Enabled(s: System, a: Action) {
    match a
    case Begin(t, _) => t !in s.threads && t !in s.calls
    case Step(t) => t in s.threads && t in s.calls && !s.threads[t].Done?
  }

  function Apply(s: System, a: Action): System
    requires Enabled(s, a)
  {
    match a
    case Begin(t, c) => s.(calls := s.calls[t := c], threads := s.threads[t := Deciding([], 0)])
    case Step(t) =>
      match s.threads[t]
      case Deciding(r, _) =>
        (match Decide(s.calls[t], r)
         case ReadAgain => s.(threads := s.threads[t := Deciding(r + [s.cell], |s.log|)])
         case Skip => s.(threads := s.threads[t := Done])
         case Set(n) => s.(threads := s.threads[t := LoopTop(n, s.threads[t].LastGuard())]))
      case LoopTop(n, g) =>
        if s.cell == Error then s.(threads := s.threads[t := Done], log := s.log + [(t, n)])
        else s.(threads := s.threads[t := HaveRead(n, s.cell, g)])
      case HaveRead(n, prev, g) =>
        if s.cell == prev then s.(cell := n, threads := s.threads[t := Done], log := s.log + [(t, n)])
        else s.(threads := s.threads[t := LoopTop(n, g)])
  }

  ghost predicate ThreadsReach(s: System, run: seq<Action>, t: System)
    decreases |run|
  {
    if run == [] then s == t else Enabled(s, run[0]) && ThreadsReach(Apply(s, run[0]), run[1..], t)
  }

  /** The atomic specification, run over the log. */
  function Replay(s: State, log: seq<(nat, State)>): State {
    if log == [] then s else Update(Replay(s, log[..|log| - 1]), log[|log| - 1].1)
  }

  ghost predicate Decides(c: Call, n: State) {
    exists r :: Decide(c, r) == Set(n)
  }

  ghost predicate WordInv(s: System) {
    && s.cell == Replay(Idle, s.log)
    && (forall i, j :: 0 <= i < j < |s.log| ==> s.log[i].0 != s.log[j].0)
    && (forall t :: t in s.threads <==> t in s.calls)
    && (forall i :: 0 <= i < |s.log| ==> s.log[i].0 in s.threads && s.threads[s.log[i].0] == Done)
    && (forall i :: 0 <= i < |s.log| ==> Decides(s.calls[s.log[i].0], s.log[i].1))
    && (forall t :: t in s.threads && s.threads[t].HaveRead? ==> s.threads[t].prev != Error)
    && (forall t :: t in s.threads && (s.threads[t].LoopTop? || s.threads[t].HaveRead?) ==>
          Decides(s.calls[t], s.threads[t].target))
    && (forall t :: t in s.calls && s.calls[t].HabCommandFailed? && s.threads[t] == Done ==> s.cell == Error)
  }

  lemma ReplayAppend(s: State, log: seq<(nat, State)>, e: (nat, State))
    ensures Replay(s, log + [e]) == Update(Replay(s, log), e.1)
  {
    assert (log + [e])[..|log|] == log;
  }

  /** Every step either leaves the word alone or is one atomic Update, recorded in the log. */
  lemma StepIsUpdate(s: System, a: Action)
    requires WordInv(s) && Enabled(s, a)
    ensures var u := Apply(s, a);
            (u.log == s.log && u.cell == s.cell) ||
            (a.Step? && u.threads[a.tid] == Done && exists n :: u.log == s.log + [(a.tid, n)] && u.cell == Update(s.cell, n))
  {
  }

  lemma DecidePerCall(c: Call, r: seq<State>)
    requires Decide(c, r).Set?
    ensures Decide(c, r).target != Idle
    ensures DecoderCall(c) ==> Decide(c, r).target != Reset
    ensures c.HabCommandFailed? ==> Decide(c, r).target == Error
  {
  }

  lemma StepKeepsThreads(s: System, t: nat)
    requires WordInv(s) && Enabled(s, Step(t))
    ensures var u := Apply(s, Step(t));
            && u.threads.Keys == s.threads.Keys && u.calls == s.calls
            && (forall x :: x in s.threads && x != t ==> u.threads[x] == s.threads[x])
            && (u.threads[t].HaveRead? ==> u.threads[t].prev != Error)
            && (u.threads[t].LoopTop? || u.threads[t].HaveRead? ==> Decides(s.calls[t], u.threads[t].target))
  {
    match s.threads[t]
    case Deciding(r, _) => assert Decide(s.calls[t], r).Set? ==> Decide(s.calls[t], r) == Set(Decide(s.calls[t], r).target);
    case _ =>
  }

  lemma LoggedStepInv(s: System, t: nat, n: State)
    requires WordInv(s) && Enabled(s, Step(t)) && Apply(s, Step(t)).log == s.log + [(t, n)]
    requires Apply(s, Step(t)).threads[t] == Done && Apply(s, Step(t)).cell == Update(s.cell, n)
    requires Decides(s.calls[t], n)
    ensures WordInv(Apply(s, Step(t)))
  {
    StepKeepsThreads(s, t);
    ReplayAppend(Idle, s.log, (t, n));
    var r :| Decide(s.calls[t], r) == Set(n);
    DecidePerCall(s.calls[t], r);
  }

  lemma BeginInv(s: System, t: nat, c: Call)
    requires WordInv(s) && Enabled(s, Begin(t, c))
    ensures WordInv(Apply(s, Begin(t, c)))
  {
    hide Decides, Replay;
  }

  lemma SilentStepInv(s: System, t: nat)
    requires WordInv(s) && Enabled(s, Step(t)) && Apply(s, Step(t)).log == s.log && Apply(s, Step(t)).cell == s.cell
    ensures WordInv(Apply(s, Step(t)))
  {
    hide Decides, Replay;
    StepKeepsThreads(s, t);
    if Apply(s, Step(t)).threads[t] == Done {
      match s.threads[t]
      case Deciding(r, _) => DecideSkips(s.calls[t], r);
      case _ =>
    }
  }

  lemma StepInv(s: System, a: Action)
    requires WordInv(s) && Enabled(s, a)
    ensures WordInv(Apply(s, a))
  {
    match a
    case Begin(t, c) => BeginInv(s, t, c);
    case Step(t) =>
      StepIsUpdate(s, a);
      if Apply(s, a).log != s.log {
        LoggedStepInv(s, t, s.threads[t].target);
      } else {
        SilentStepInv(s, t);
      }
  }

  lemma DecideSkips(c: Call, r: seq<State>)
    ensures Decide(c, r) == Skip ==> !c.HabCommandFailed?
  {
  }

  /** The updates logged by one step take the word from one value to the other. */
  lemma StepReplays(s: System, a: Action)
    requires WordInv(s) && Enabled(s, a)
    ensures var u := Apply(s, a); s.log <= u.log && u.cell == Replay(s.cell, u.log[|s.log|..])
  {
    hide WordInv, Apply, Enabled, Replay, Update;
    StepIsUpdate(s, a);
    var u := Apply(s, a);
    ReplayNothing(s);
    if u.log != s.log {
      var n :| u.log == s.log + [(a.tid, n)] && u.cell == Update(s.cell, n);
      assert u.log[|s.log|..] == [(a.tid, n)];
      ReplayOne(s.cell, (a.tid, n));
    } else {
      assert u.log[|s.log|..] == s.log[|s.log|..];
    }
  }

  lemma ReplayOne(s: State, e: (nat, State))
    ensures Replay(s, [e]) == Update(s, e.1)
  {
    assert [e][..0] == [];
  }

  lemma {:induction false} InvHolds(s: System, run: seq<Action>, u: System)
    requires WordInv(s) && ThreadsReach(s, run, u)
    ensures WordInv(u) && s.log <= u.log && u.cell == Replay(s.cell, u.log[|s.log|..])
    decreases |run|
  {
    hide WordInv, Apply, Enabled, Replay;
    if run == [] {
      ReplayNothing(s);
    } else {
      var s1 := Apply(s, run[0]);
      StepInv(s, run[0]);
      StepReplays(s, run[0]);
      InvHolds(s1, run[1..], u);
      LogsJoin(s, s1, u);
    }
  }

  lemma ReplayNothing(s: System)
    ensures s.cell == Replay(s.cell, s.log[|s.log|..])
  {
  }

  lemma LogsJoin(s: System, s1: System, u: System)
    requires s.log <= s1.log <= u.log
    requires s1.cell == Replay(s.cell, s1.log[|s.log|..]) && u.cell == Replay(s1.cell, u.log[|s1.log|..])
    ensures u.cell == Replay(s.cell, u.log[|s.log|..])
  {
    assert u.log[|s.log|..] == s1.log[|s.log|..] + u.log[|s1.log|..];
    ReplayConcat(s.cell, s1.log[|s.log|..], u.log[|s1.log|..]);
  }

  lemma {:induction false} ReplayConcat(s: State, a: seq<(nat, State)>, b: seq<(nat, State)>)
    ensures Replay(s, a + b) == Replay(Replay(s, a), b)
    decreases |b|
  {
    if b == [] {
      assert a + b == a;
    } else {
      var b1 := b[..|b| - 1];
      assert (a + b)[..|a + b| - 1] == a + b1;
      ReplayConcat(s, a, b1);
    }
  }

  /** Linearizability: after any interleaving the word holds what the atomic updates give when
      applied one after the other, each logged once, at a step of its own thread that
      finished its call. */
  lemma Linearizable(run: seq<Action>, u: System)
    requires ThreadsReach(Opened(), run, u)
    ensures u.cell == Replay(Idle, u.log)
    ensures forall i, j :: 0 <= i < j < |u.log| ==> u.log[i].0 != u.log[j].0
    ensures forall i :: 0 <= i < |u.log| ==> u.log[i].0 in u.threads && u.threads[u.log[i].0] == Done
  {
    InvHolds(Opened(), run, u);
  }

  lemma {:induction false} ReplayProperties(s: State, log: seq<(nat, State)>)
    ensures s == Error ==> Replay(s, log) == Error
    ensures (forall i :: 0 <= i < |log| ==> log[i].1 != Idle) && Replay(s, log) == Idle ==> s == Idle
    ensures (forall i :: 0 <= i < |log| ==> log[i].1 != Reset) && Replay(s, log) == Reset ==> s == Reset
    decreases |log|
  {
    if log != [] {
      ReplayProperties(s, log[..|log| - 1]);
    }
  }

  lemma LogTargets(s: System)
    requires WordInv(s)
    ensures forall i :: 0 <= i < |s.log| ==> s.log[i].1 != Idle
    ensures (forall t :: t in s.calls ==> DecoderCall(s.calls[t])) ==> forall i :: 0 <= i < |s.log| ==> s.log[i].1 != Reset
  {
    forall i | 0 <= i < |s.log|
      ensures s.log[i].1 != Idle
      ensures DecoderCall(s.calls[s.log[i].0]) ==> s.log[i].1 != Reset
    {
      var r :| Decide(s.calls[s.log[i].0], r) == Set(s.log[i].1);
      DecidePerCall(s.calls[s.log[i].0], r);
    }
  }

  /** Over every run from an opened stream: ERROR is absorbing, IDLE is never re-entered, a
      stream used only by decoder paths is never in RESET, and once a failed HAB command has
      returned the state is ERROR for good. */
  lemma ErrorAbsorbsIdleLeftForGood(run: seq<Action>, s: System, run': seq<Action>, u: System)
    requires ThreadsReach(Opened(), run, s) && ThreadsReach(s, run', u)
    ensures s.cell == Error ==> u.cell == Error
    ensures s.cell != Idle ==> u.cell != Idle
    ensures (forall t :: t in u.calls ==> DecoderCall(u.calls[t])) ==> u.cell != Reset
    ensures (exists t :: t in s.calls && t in s.threads && s.calls[t].HabCommandFailed? && s.threads[t] == Done) ==> u.cell == Error
  {
    InvHolds(Opened(), run, s);
    InvHolds(s, run', u);
    LogTargets(u);
    ReplayProperties(s.cell, u.log[|s.log|..]);
    ReplayProperties(Idle, u.log);
  }

  lemma {:induction false} ThreadsReachByStep(s: System, run: seq<Action>, states: seq<System>)
    requires |states| == |run| + 1 && states[0] == s
    requires forall i :: 0 <= i < |run| ==> Enabled(states[i], run[i]) && states[i + 1] == Apply(states[i], run[i])
    ensures ThreadsReach(s, run, states[|run|])
    decreases |run|
  {
    if run != [] {
      assert forall i :: 0 <= i < |run[1..]| ==> run[1..][i] == run[i + 1] && states[1..][i] == states[i + 1];
      ThreadsReachByStep(states[1], run[1..], states[1..]);
    }
  }

  /** A thread at the top of its loop that nothing interrupts sets the word in two steps. */
  lemma Uninterrupted(s: System, t: nat, n: State)
    requires WordInv(s) && t in s.calls && s.threads[t].AtTop(n) && s.cell != Error
    ensures var u := s.(cell := n, threads := s.threads[t := Done], log := s.log + [(t, n)]);
            ThreadsReach(s, [Step(t), Step(t)], u)
  {
    var s1 := Apply(s, Step(t));
    var s2 := Apply(s1, Step(t));
    assert s2.threads == s.threads[t := Done];
    ThreadsReachByStep(s, [Step(t), Step(t)], [s, s1, s2]);
  }

  lemma {:induction false} ThreadsReachOn(s: System, run1: seq<Action>, t: System, run2: seq<Action>, u: System)
    requires ThreadsReach(s, run1, t) && ThreadsReach(t, run2, u)
    ensures ThreadsReach(s, run1 + run2, u)
    decreases |run1|
  {
    if run1 == [] {
      assert run1 + run2 == run2;
    } else {
      var r := run1 + run2;
      assert r[0] == run1[0] && r[1..] == run1[1..] + run2;
      ThreadsReachOn(Apply(s, run1[0]), run1[1..], t, run2, u);
    }
  }

  // ---- what a call does when nothing interrupts it ----

  /** The state a call leaves a stream in that is in state w. */
  function Effect(c: Call, w: State): State {
    if w == Error then Error
    else match c
      case DecStartStreaming(capture) => if capture && w != Idle then Running else w
      case DecSetFormat(output) => if output && w == Idle then Init else w
      case DecStop => Drain
      case EncStartStreaming(input) => if w == Init || w == (if input then Stopped else Reset) then Running else w
      case EncStopStreaming(output) => if output then Stopped else Reset
      case EncSetFormat(capture) => if capture && w == Idle then Init else w
      case EncStart => if w == Drain then w else Running
      case EncStop => Drain
      case ResolutionChanged => if w == Init then DynamicResChange else w
      case ErrorEvent => Error
      case EndOfStream => Stopped
      case HabCommandFailed => Error
  }

  lemma DecidesByState(c: Call, r: seq<State>, w: State)
    requires forall i :: 0 <= i < |r| ==> r[i] == w
    ensures Decide(c, r).Set? ==> Update(w, Decide(c, r).target) == Effect(c, w)
    ensures Decide(c, r).Skip? ==> Effect(c, w) == w
  {
  }

  /** How far a call has come, when it has always read the word as it is. */
  ghost predicate Alone(s: System, t: nat, end: State) {
    && t in s.threads && t in s.calls
    && match s.threads[t]
       case Deciding(r, _) => (forall i :: 0 <= i < |r| ==> r[i] == s.cell) && end == Effect(s.calls[t], s.cell)
       case LoopTop(n, _) => end == Update(s.cell, n)
       case HaveRead(n, prev, _) => prev == s.cell != Error && end == n
       case Done => end == s.cell
  }

  lemma StepAlone(s: System, t: nat, end: State)
    requires Alone(s, t, end) && Enabled(s, Step(t))
    ensures Alone(Apply(s, Step(t)), t, end)
  {
    match s.threads[t]
    case Deciding(r, _) => DecidesByState(s.calls[t], r, s.cell);
    case _ =>
  }

  lemma {:induction false} AloneHolds(s: System, t: nat, end: State, run: seq<Action>, u: System)
    requires Alone(s, t, end) && ThreadsReach(s, run, u) && forall i :: 0 <= i < |run| ==> run[i] == Step(t)
    ensures Alone(u, t, end)
    decreases |run|
  {
    hide Alone, Apply;
    if run != [] {
      StepAlone(s, t, end);
      assert forall i :: 0 <= i < |run| - 1 ==> run[1..][i] == run[i + 1];
      AloneHolds(Apply(s, Step(t)), t, end, run[1..], u);
    }
  }

  /** A call that nothing interrupts, once finished, has had exactly the effect its name says. */
  lemma UninterruptedExact(s: System, t: nat, c: Call, run: seq<Action>, u: System)
    requires Enabled(s, Begin(t, c)) && ThreadsReach(Apply(s, Begin(t, c)), run, u)
    requires (forall i :: 0 <= i < |run| ==> run[i] == Step(t)) && t in u.threads && u.threads[t] == Done
    ensures u.cell == Effect(c, s.cell)
  {
    AloneHolds(Apply(s, Begin(t, c)), t, Effect(c, s.cell), run, u);
  }

  /** Which readings make a call ask for an update, and for which: all tests it makes on the way
      must have passed. */
  lemma AsksExactly(c: Call, r: seq<State>, n: State)
    ensures Decide(c, r) == Set(n) <==>
              match c
              case DecStartStreaming(capture) => n == Running && capture && |r| > 1 && r[0] != Error && r[1] != Idle
              case DecSetFormat(output) => n == Init && output && r != [] && r[0] == Idle
              case DecStop => n == Drain && |r| > 1 && r[0] != Error && r[1] != Drain
              case EncStartStreaming(input) =>
                n == Running && |r| > 1 && r[0] != Error && (r[1] == Init || (|r| > 2 && r[2] == if input then Stopped else Reset))
              case EncStopStreaming(output) => n == if output then Stopped else Reset
              case EncSetFormat(capture) => n == Init && capture && r != [] && r[0] == Idle
              case EncStart => n == Running && |r| > 1 && r[0] != Error && r[1] != Drain
              case EncStop => n == Drain && |r| > 1 && r[0] != Error && r[1] != Drain
              case ResolutionChanged => n == DynamicResChange && r != [] && r[0] == Init
              case EndOfStream => n == Stopped
              case _ => n == Error
  {
  }

  // ---- what a guarded update overwrites ----

  /** The reading is what the word held when so many updates had been logged. */
  predicate Recorded(g: Guard, log: seq<(nat, State)>) {
    g.at <= |log| && g.seen == Replay(Idle, log[..g.at])
  }

  ghost predicate GuardsRecorded(s: System) {
    forall t :: t in s.threads && s.threads[t].LastGuard().Some? ==> Recorded(s.threads[t].LastGuard().value, s.log)
  }

  lemma StepGuards(s: System, a: Action)
    requires Enabled(s, a)
    ensures var u := Apply(s, a);
            && s.log <= u.log && a.tid in u.threads
            && (forall x :: x in u.threads && x != a.tid ==> x in s.threads && u.threads[x] == s.threads[x])
            && (u.threads[a.tid].LastGuard().Some? ==>
                  || u.threads[a.tid].LastGuard() == Some(Guard(s.cell, |s.log|))
                  || (a.tid in s.threads && u.threads[a.tid].LastGuard() == s.threads[a.tid].LastGuard()))
  {
    hide Decide;
  }

  lemma RecordedStays(g: Guard, log: seq<(nat, State)>, log': seq<(nat, State)>)
    requires Recorded(g, log) && log <= log'
    ensures Recorded(g, log')
  {
    assert log'[..g.at] == log[..g.at];
  }

  lemma StepRecords(s: System, a: Action)
    requires WordInv(s) && GuardsRecorded(s) && Enabled(s, a)
    ensures GuardsRecorded(Apply(s, a))
  {
    var u := Apply(s, a);
    StepGuards(s, a);
    assert s.log[..|s.log|] == s.log;
    assert Recorded(Guard(s.cell, |s.log|), s.log);
    RecordsCarried(s, u, a.tid);
  }

  lemma RecordsCarried(s: System, u: System, tid: nat)
    requires GuardsRecorded(s) && s.log <= u.log && tid in u.threads
    requires Recorded(Guard(s.cell, |s.log|), s.log)
    requires forall x :: x in u.threads && x != tid ==> x in s.threads && u.threads[x] == s.threads[x]
    requires u.threads[tid].LastGuard().Some? ==>
               || u.threads[tid].LastGuard() == Some(Guard(s.cell, |s.log|))
               || (tid in s.threads && u.threads[tid].LastGuard() == s.threads[tid].LastGuard())
    ensures GuardsRecorded(u)
  {
    hide Recorded;
    forall t | t in u.threads && u.threads[t].LastGuard().Some?
      ensures Recorded(u.threads[t].LastGuard().value, u.log)
    {
      RecordedStays(u.threads[t].LastGuard().value, s.log, u.log);
    }
  }

  lemma OpenedRecords()
    ensures WordInv(Opened()) && GuardsRecorded(Opened())
  {
  }

  lemma {:induction false} GuardsHold(s: System, run: seq<Action>, u: System)
    requires WordInv(s) && GuardsRecorded(s) && ThreadsReach(s, run, u)
    ensures WordInv(u) && GuardsRecorded(u)
    decreases |run|
  {
    if run != [] {
      StepInv(s, run[0]);
      StepRecords(s, run[0]);
      GuardsHold(Apply(s, run[0]), run[1..], u);
    }
  }

  /** Without ERROR in the end, a replay ends with the last update, whatever came before. */
  lemma {:induction false} ReplayLast(s: State, log: seq<(nat, State)>)
    requires Replay(s, log) != Error
    ensures Replay(s, log) == if log == [] then s else log[|log| - 1].1
    ensures s != Error
    decreases |log|
  {
    if log != [] { ReplayLast(s, log[..|log| - 1]); }
  }

  /** The thread is about to win its compare-and-swap after a guarded decision. */
  predicate Wins(s: System, t: nat) {
    t in s.threads && s.threads[t].HaveRead? && s.threads[t].prev == s.cell && s.threads[t].guard.Some?
  }

  /** When does a guarded update overwrite the state its guard saw? In every run the winning
      compare-and-swap overwrites the value that the updates logged since the guard's reading
      make of the value read. So it is the value read if and only if they map that value to
      itself: if and only if there are none, or the last of them has set it again. */
  lemma GuardedUpdateExact(run: seq<Action>, s: System, t: nat)
    requires ThreadsReach(Opened(), run, s) && Wins(s, t)
    ensures var g := s.threads[t].guard.value;
            && g.at <= |s.log|
            && var since := s.log[g.at..];
               && s.cell == Replay(g.seen, since)
               && (s.cell == g.seen <==> Replay(g.seen, since) == g.seen)
               && (s.cell == g.seen <==> since == [] || since[|since| - 1].1 == g.seen)
  {
    hide WordInv, ThreadsReach, Replay;
    OpenedRecords();
    GuardsHold(Opened(), run, s);
    var g := s.threads[t].guard.value;
    assert s.threads[t].LastGuard() == Some(g);
    assert s.log == s.log[..g.at] + s.log[g.at..];
    ReplayConcat(Idle, s.log[..g.at], s.log[g.at..]);
    ReplayLast(g.seen, s.log[g.at..]);
  }

  lemma NothingLogged(s: System, t: nat, at: nat)
    requires WordInv(s) && t in s.threads && s.threads[t] != Done && at <= |s.log|
    requires forall i :: at <= i < |s.log| ==> s.log[i].0 == t
    ensures s.log[at..] == []
  {
    assert forall i :: 0 <= i < |s.log| ==> s.threads[s.log[i].0] == Done;
  }

  /** With no other thread's update logged since its reading, the guard still holds at the swap. */
  lemma UndisturbedGuardHolds(run: seq<Action>, s: System, t: nat)
    requires ThreadsReach(Opened(), run, s) && Wins(s, t)
    requires forall i :: s.threads[t].guard.value.at <= i < |s.log| ==> s.log[i].0 == t
    ensures s.cell == s.threads[t].guard.value.seen
  {
    GuardedUpdateExact(run, s, t);
    GuardsHold(Opened(), run, s);
    NothingLogged(s, t, s.threads[t].guard.value.at);
  }

  /** The guard a caller reads before the update is not part of the compare-and-swap: a
      resolution change that saw INIT overwrites the RUNNING another thread has set since. */
  lemma GuardIsNotAtomic()
    ensures exists run, s, run', u :: ThreadsReach(Opened(), run, s) && s.cell == Running && ThreadsReach(s, run', u) && u.cell == DynamicResChange
  {
    var s0 := Opened();
    // thread 0 sets the format: IDLE to INIT
    var s1 := Apply(s0, Begin(0, DecSetFormat(true)));
    var s2 := Apply(s1, Step(0));
    var s3 := Apply(s2, Step(0));
    assert s3.threads[0] == LoopTop(Init, Some(Guard(Idle, 0)));
    ThreadsReachByStep(s0, [Begin(0, DecSetFormat(true)), Step(0), Step(0)], [s0, s1, s2, s3]);
    FormatSet(s3, [Begin(0, DecSetFormat(true)), Step(0), Step(0)]);
  }

  lemma FormatSet(s: System, run: seq<Action>)
    requires ThreadsReach(Opened(), run, s) && s.cell == Idle && s.threads == map[0 := LoopTop(Init, Some(Guard(Idle, 0)))] && 0 in s.calls
    requires 1 !in s.calls && 2 !in s.calls
    ensures exists run, s, run', u :: ThreadsReach(Opened(), run, s) && s.cell == Running && ThreadsReach(s, run', u) && u.cell == DynamicResChange
  {
    InvHolds(Opened(), run, s);
    Uninterrupted(s, 0, Init);
    var t := s.(cell := Init, threads := s.threads[0 := Done], log := s.log + [(0, Init)]);
    ThreadsReachOn(Opened(), run, s, [Step(0), Step(0)], t);
    RaceFrom(t, run + [Step(0), Step(0)]);
  }

  lemma RaceFrom(s: System, run: seq<Action>)
    requires ThreadsReach(Opened(), run, s) && s.cell == Init
    requires 1 !in s.calls && 2 !in s.calls && 1 !in s.threads && 2 !in s.threads
    ensures exists run, s, run', u :: ThreadsReach(Opened(), run, s) && s.cell == Running && ThreadsReach(s, run', u) && u.cell == DynamicResChange
  {
    // thread 1 reads INIT
    var s1 := Apply(s, Begin(1, ResolutionChanged));
    var s2 := Apply(s1, Step(1));
    var s3 := Apply(s2, Step(1));
    assert s3.threads[1].AtTop(DynamicResChange) && s3.cell == Init;
    assert 2 !in s3.calls && 2 !in s3.threads;
    ThreadsReachByStep(s, [Begin(1, ResolutionChanged), Step(1), Step(1)], [s, s1, s2, s3]);
    ThreadsReachOn(Opened(), run, s, [Begin(1, ResolutionChanged), Step(1), Step(1)], s3);
    RaceEnds(s3, run + [Begin(1, ResolutionChanged), Step(1), Step(1)]);
  }

  lemma RaceEnds(s: System, run: seq<Action>)
    requires ThreadsReach(Opened(), run, s) && s.cell == Init
    requires 1 in s.calls && 1 in s.threads && s.threads[1].AtTop(DynamicResChange)
    requires 2 !in s.calls && 2 !in s.threads
    ensures exists run, s, run', u :: ThreadsReach(Opened(), run, s) && s.cell == Running && ThreadsReach(s, run', u) && u.cell == DynamicResChange
  {
    // thread 2 starts streaming
    var s1 := Apply(s, Begin(2, DecStartStreaming(true)));
    var s2 := Apply(s1, Step(2));
    var s3 := Apply(s2, Step(2));
    var s4 := Apply(s3, Step(2));
    var start := [Begin(2, DecStartStreaming(true)), Step(2), Step(2), Step(2)];
    assert s4.threads[2].AtTop(Running) && s4.threads[1].AtTop(DynamicResChange) && s4.cell == Init;
    ThreadsReachByStep(s, start, [s, s1, s2, s3, s4]);
    ThreadsReachOn(Opened(), run, s, start, s4);
    RaceWon(s4, run + start);
  }

  lemma RaceWon(s: System, run: seq<Action>)
    requires ThreadsReach(Opened(), run, s) && s.cell == Init && 1 in s.threads && 2 in s.threads
    requires s.threads[1].AtTop(DynamicResChange) && s.threads[2].AtTop(Running)
    ensures exists run, s, run', u :: ThreadsReach(Opened(), run, s) && s.cell == Running && ThreadsReach(s, run', u) && u.cell == DynamicResChange
  {
    hide ThreadsReach, Replay, Decides, Apply;
    OpenedRecords();
    InvHolds(Opened(), run, s);
    Uninterrupted(s, 2, Running);
    var t := s.(cell := Running, threads := s.threads[2 := Done], log := s.log + [(2, Running)]);
    ThreadsReachOn(Opened(), run, s, [Step(2), Step(2)], t);
    InvHolds(Opened(), run + [Step(2), Step(2)], t);
    Uninterrupted(t, 1, DynamicResChange);
    RaceWitness(run + [Step(2), Step(2)], t, [Step(1), Step(1)],
                t.(cell := DynamicResChange, threads := t.threads[1 := Done], log := t.log + [(1, DynamicResChange)]));
  }

  lemma RaceWitness(run: seq<Action>, s: System, run': seq<Action>, u: System)
    requires ThreadsReach(Opened(), run, s) && s.cell == Running && ThreadsReach(s, run', u) && u.cell == DynamicResChange
    ensures exists run, s, run', u :: ThreadsReach(Opened(), run, s) && s.cell == Running && ThreadsReach(s, run', u) && u.cell == DynamicResChange
  {
  }

  /** What the word holds when the i-th attempt starts. */
  function Held(first: State, others: seq<State>, i: nat): State
    requires i <= |others|
  {
    if i == 0 then first else others[i - 1]
  }

  /** The i-th compare-and-swap finds another value than the attempt has read. */
  predicate Disturbed(first: State, others: seq<State>, i: nat)
    requires i < |others|
  {
    others[i] != Held(first, others, i)
  }

  /** struct virtio_video_stream, as far as its state word is concerned. */
  class Stream {
    var state: State

    constructor ()
      ensures state == Idle
    {
      state := Idle; // virtio_video_state_reset
    }

    /** virtio_video_state_update against an environment: others[i] is what the word holds
        when the i-th compare-and-swap is reached. The word ends as one atomic Update of
        what it held at the successful attempt. */
    method StateUpdate(n: State, others: seq<State>) returns (failures: nat)
      modifies this
      ensures failures <= |others|
      ensures state == Update(Held(old(state), others, failures), n)
      ensures forall i :: 0 <= i < failures ==> Disturbed(old(state), others, i)
    {
      failures := 0;
      while true
        invariant failures <= |others|
        invariant state == Held(old(state), others, failures)
        invariant forall i :: 0 <= i < failures ==> Disturbed(old(state), others, i)
        decreases |others| - failures
      {
        var prev := state;
        if prev == Error {
          return;
        }
        if failures < |others| {
          state := others[failures];
        }
        if state == prev {
          state := n;
          return;
        }
        assert Disturbed(old(state), others, failures);
        failures := failures + 1;
      }
    }
  }
}

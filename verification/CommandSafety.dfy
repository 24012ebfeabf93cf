/** No interleaving frees a command buffer twice or touches a freed one, and kick sends
    exactly the command just added. */
module CommandSafety {
  import opened Sequences
  import opened HabVirtqueue
  import opened CommandQueue

  ghost predicate Safe(c: Core) {
    && NoDup(c.pending)
    && (forall v :: v in c.pending ==> v in c.live)
    && NoDup(c.freed)
    && (forall v :: v in c.freed ==> v !in c.live)
    && !c.fault
  }

  /** From c to d, only buffers that were on the pending list were freed, each of them once. */
  ghost predicate FreesOnlyPending(c: Core, d: Core) {
    && c.freed <= d.freed
    && NoDup(d.freed[|c.freed|..])
    && (forall v :: v in d.freed[|c.freed|..] ==> v in c.pending && v in c.live)
    && (forall v :: v in d.live <==> v in c.live && v !in d.freed[|c.freed|..])
    && (forall v :: v in d.pending <==> v in c.pending && v !in d.freed[|c.freed|..])
  }

  lemma IsPendingSafe(c: Core, v: Vbuf)
    requires Safe(c)
    ensures IsPending(c, v).0 == c
  {
    assert forall u :: u in Visited(c.pending, IndexOf(c.pending, v)) ==> u in c.pending;
  }

  /** Also when v was freed earlier: it is then not pending, and nothing happens. */
  lemma CompleteOneSafe(c: Core, v: Vbuf)
    requires Safe(c)
    ensures Safe(CompleteOne(c, v)) && FreesOnlyPending(c, CompleteOne(c, v))
    ensures v !in c.pending ==> CompleteOne(c, v) == c
  {
    IsPendingSafe(c, v);
    if v in c.pending && !v.isSync {
      assert c.Deref([v]) == c;
    }
  }

  lemma {:induction false} DrainSafe(c: Core)
    requires Safe(c)
    ensures Safe(Drain(c)) && FreesOnlyPending(c, Drain(c))
    ensures Drain(c).q.resps == []
    decreases |c.q.resps|
  {
    hide Safe, FreesOnlyPending, CompleteOne;
    if c.q.resps == [] {
      FreesNothing(c, c);
    } else {
      var (q1, v) := c.q.Unattach(RespList);
      var c1 := c.(q := q1);
      SameSlab(c, c1);
      CompleteOneSafe(c1, v.value);
      CompleteOneQueue(c1, v.value);
      var c2 := CompleteOne(c1, v.value);
      DrainSafe(c2);
      FreesInTurn(c1, c2, Drain(c2));
      SameSlabFrees(c, c1, Drain(c2));
    }
  }

  lemma FreesNothing(c: Core, d: Core)
    requires d.live == c.live && d.pending == c.pending && d.freed == c.freed
    ensures FreesOnlyPending(c, d)
  {
  }

  /** Queues apart, the two agree. */
  lemma SameSlab(c: Core, d: Core)
    requires Safe(c) && d.live == c.live && d.pending == c.pending && d.freed == c.freed && d.fault == c.fault
    ensures Safe(d)
  {
  }

  lemma SameSlabFrees(c: Core, c1: Core, d: Core)
    requires c1.live == c.live && c1.pending == c.pending && c1.freed == c.freed && FreesOnlyPending(c1, d)
    ensures FreesOnlyPending(c, d)
  {
  }

  lemma FreesInTurn(c: Core, d: Core, e: Core)
    requires FreesOnlyPending(c, d) && FreesOnlyPending(d, e)
    ensures FreesOnlyPending(c, e)
  {
    var n, m, nm := d.freed[|c.freed|..], e.freed[|d.freed|..], e.freed[|c.freed|..];
    assert nm == n + m;
    assert forall v :: v in nm <==> v in n || v in m;
    forall v | v in m
      ensures v !in n
    {
      assert v in d.live;
    }
    NoDupJoin(n, m);
    assert c.freed <= e.freed;
    assert NoDup(nm);
    assert forall v :: v in nm ==> v in c.pending && v in c.live;
    assert forall v :: v in e.live <==> v in c.live && v !in nm;
    assert forall v :: v in e.pending <==> v in c.pending && v !in nm;
  }

  lemma NoDupJoin<T>(n: seq<T>, m: seq<T>)
    requires NoDup(n) && NoDup(m) && forall v :: v in m ==> v !in n
    ensures NoDup(n + m)
  {
    var nm := n + m;
    forall i, j | 0 <= i < j < |nm|
      ensures nm[i] != nm[j]
    {
      if i < |n| <= j { assert m[j - |n|] in m && n[i] in n; }
    }
  }

  lemma CompleteOneQueue(c: Core, v: Vbuf)
    ensures CompleteOne(c, v).q == c.q && CompleteOne(c, v).ready == c.ready
  {
  }

  lemma ReclaimSafe(c: Core, v: Vbuf)
    requires Safe(c)
    ensures Safe(ReclaimIfPending(c, v)) && FreesOnlyPending(c, ReclaimIfPending(c, v))
    ensures v !in c.pending ==> ReclaimIfPending(c, v) == c
    ensures v !in ReclaimIfPending(c, v).pending
  {
    IsPendingSafe(c, v);
  }

  lemma SubmitSafe(c: Core, v: Vbuf, b: bool)
    requires Safe(c) && v in c.live && v !in c.pending
    ensures var d := Submit(c, v, b).0; Safe(d) && d.pending == c.pending + [v] && d.live == c.live && d.freed == c.freed
  {
  }

  /** The invariant of the whole system. */
  ghost predicate SafeState(s: State) {
    && Safe(s.core)
    && (forall v :: v in s.core.live || v in s.core.freed ==> v in s.phase)
    && (forall v :: v in s.phase && s.phase[v] == Called ==> v in s.core.live && v !in s.core.pending)
  }

  lemma StepFreesOnlyPending(s: State, a: Action)
    requires SafeState(s) && Enabled(s, a) && !a.Begin? && !a.SubmitLocked?
    ensures Safe(Apply(s, a).core) && FreesOnlyPending(s.core, Apply(s, a).core)
  {
    hide Safe, FreesOnlyPending, Drain, ReclaimIfPending, Match;
    var c, d := s.core, Apply(s, a).core;
    match a
    case Reclaim(v) => ReclaimSafe(c, v);
    case Reply(k) =>
      MatchKeepsSlab(c, k);
      SameSlab(c, d);
      FreesNothing(c, d);
    case Callback =>
      DrainSafe(c);
      FreesNothing(c, c);
    case Teardown => TeardownSafe(c);
    case _ =>
      SameSlab(c, d);
      FreesNothing(c, d);
  }

  lemma MatchKeepsSlab(c: Core, k: Key)
    requires Safe(c)
    ensures var d := Match(c, k).0; d.live == c.live && d.pending == c.pending && d.freed == c.freed && d.fault == c.fault
  {
    var i := FirstWithKey(c.pending, k);
    assert forall v :: v in Visited(c.pending, i) ==> v in c.pending;
  }

  lemma TeardownSafe(c: Core)
    requires Safe(c)
    ensures Safe(TeardownOne(c)) && FreesOnlyPending(c, TeardownOne(c))
  {
    hide Safe, FreesOnlyPending, ReclaimIfPending;
    var (q1, v) := c.q.Detach();
    var c1 := c.(q := q1);
    SameSlab(c, c1);
    FreesNothing(c, c1);
    if v != None {
      ReclaimSafe(c1, v.value);
      SameSlabFrees(c, c1, ReclaimIfPending(c1, v.value));
    }
  }

  lemma StepSafe(s: State, a: Action)
    requires SafeState(s) && Enabled(s, a)
    ensures SafeState(Apply(s, a))
  {
    match a
    case Begin(v) => BeginSafe(s, v);
    case SubmitLocked(v, b) => SubmitStepSafe(s, v, b);
    case _ =>
      StepFreesOnlyPending(s, a);
      StepPhases(s, a);
      FreeingStepSafe(s, Apply(s, a));
  }

  lemma BeginSafe(s: State, v: Vbuf)
    requires SafeState(s) && Enabled(s, Begin(v))
    ensures SafeState(Apply(s, Begin(v)))
  {
    hide NoDup;
  }

  lemma SubmitStepSafe(s: State, v: Vbuf, b: bool)
    requires SafeState(s) && Enabled(s, SubmitLocked(v, b))
    ensures SafeState(Apply(s, SubmitLocked(v, b)))
  {
    hide Safe, Submit;
    assert v in s.core.live && v !in s.core.pending;
    SubmitSafe(s.core, v, b);
  }

  /** Calls that have not been submitted, or have returned, stay where they are; none goes back. */
  ghost predicate PhasesMove(s: State, t: State) {
    && t.phase.Keys == s.phase.Keys
    && (forall v :: v in s.phase ==>
          t.phase[v] == s.phase[v] || (!s.phase[v].Called? && !s.phase[v].Returned? && !t.phase[v].Called?))
  }

  lemma StepPhases(s: State, a: Action)
    requires Enabled(s, a) && !a.Begin? && !a.SubmitLocked?
    ensures PhasesMove(s, Apply(s, a)) && Apply(s, a).submitted == s.submitted
  {
    hide Drain, Match, ReclaimIfPending, TeardownOne;
  }

  lemma FreeingStepSafe(s: State, t: State)
    requires SafeState(s) && Safe(t.core) && FreesOnlyPending(s.core, t.core)
    requires PhasesMove(s, t)
    ensures SafeState(t)
  {
    hide Safe, NoDup;
    assert forall v :: v in t.core.freed ==> v in s.core.freed || v in t.core.freed[|s.core.freed|..];
    forall v | v in t.phase && t.phase[v] == Called
      ensures v in t.core.live && v !in t.core.pending
    {
      assert v in s.phase && v in s.core.live && v !in s.core.pending;
    }
  }

  /** In every run from the initial state no buffer is freed twice, and no list walk,
      response copy, callback or completion ever touches a freed one. */
  lemma {:induction false} NoUseAfterFree(s: State, run: seq<Action>, t: State)
    requires SafeState(s) && Reaches(s, run, t)
    ensures SafeState(t)
    ensures !t.core.fault && NoDup(t.core.freed)
    decreases |run|
  {
    if run != [] {
      StepSafe(s, run[0]);
      NoUseAfterFree(Apply(s, run[0]), run[1..], t);
    }
  }

  /** The same from the driver's initial state, with what the next step may do: whatever it
      frees was allocated and on the pending list, and it touches nothing freed. */
  lemma FreedOnceAndOnlyWhilePending(run: seq<Action>, s: State, a: Action)
    requires Reaches(Init(), run, s) && Enabled(s, a)
    ensures var t := Apply(s, a);
            && !t.core.fault && NoDup(t.core.freed) && s.core.freed <= t.core.freed
            && (forall v :: v in t.core.freed[|s.core.freed|..] ==> v in s.core.pending && v in s.core.live)
            && (forall v :: v in t.core.freed ==> v !in t.core.live && v !in t.core.pending)
  {
    assert SafeState(Init());
    NoUseAfterFree(Init(), run, s);
    StepSafe(s, a);
    if a.SubmitLocked? {
      SubmitSafe(s.core, a.v, a.breakBetween);
    } else if !a.Begin? {
      StepFreesOnlyPending(s, a);
    }
  }

  // ---- the vbuf list and the node pool ----

  /** While the queue is not broken the vbuf list is empty whenever qlock is free; while the
      device is ready, at most one buffer is on the response list, and no node is lost. */
  ghost predicate QueueInv(s: State) {
    var q := s.core.q;
    && (!q.broken ==> q.vbufs == [])
    && |q.vbufs| <= 1
    && (s.core.ready ==>
         && |q.resps| <= (if s.rx.RxCallback? then 1 else 0)
         && |q.unused| + |q.vbufs| + |q.resps| == DEFAULT_VQ_NUM)
    && (forall v :: v in s.phase && s.phase[v].Sending? ==> s.phase[v] == Sending(v, true))
  }

  /** kick takes exactly the command just added, or the submission fails and takes nothing;
      while the device is ready it fails only when the queue is, or has just become, broken. */
  lemma KickSendsWhatWasAdded(s: State, v: Vbuf, b: bool)
    requires QueueInv(s)
    ensures var (d, u) := Submit(s.core, v, b);
            && (u == Some(v) || u == None)
            && (u == Some(v) <==> s.core.q.AddOk() && !b)
            && (u == Some(v) ==> d.q == s.core.q.(unused := s.core.q.unused[1..] + [s.core.q.unused[0]]))
            && (s.core.ready ==> (u == None <==> s.core.q.broken || b))
  {
    var q := s.core.q;
    if q.AddOk() && !b {
      AttachUnattach(q, VbufList, v);
    }
  }

  lemma {:induction false} DrainQueue(c: Core)
    ensures Drain(c).q.vbufs == c.q.vbufs && Drain(c).q.resps == []
    ensures Drain(c).q.broken == c.q.broken && Drain(c).ready == c.ready
    ensures |Drain(c).q.unused| == |c.q.unused| + |c.q.resps|
    decreases |c.q.resps|
  {
    if c.q.resps != [] {
      hide CompleteOne;
      var (q1, v) := c.q.Unattach(RespList);
      CompleteOneQueue(c.(q := q1), v.value);
      DrainQueue(CompleteOne(c.(q := q1), v.value));
    }
  }

  lemma StepQueueInv(s: State, a: Action)
    requires QueueInv(s) && Enabled(s, a)
    ensures QueueInv(Apply(s, a))
    ensures s.core.q.broken ==> Apply(s, a).core.q.broken
  {
    match a
    case SubmitLocked(v, b) =>
      KickSendsWhatWasAdded(s, v, b);
      SubmitQueueInv(s, v, b, Apply(s, a));
    case Callback => CallbackQueueInv(s);
    case Reply(k) => ReplyQueueInv(s, k);
    case Teardown => TeardownQueueInv(s);
    case _ => PhaseQueueInv(s, a);
  }

  lemma SubmitQueueInv(s: State, v: Vbuf, b: bool, t: State)
    requires QueueInv(s) && v in s.phase && s.phase[v] == Called
    requires var (d, u) := Submit(s.core, v, b);
             && t.core == d && t.rx == s.rx
             && t.phase == s.phase[v := if u == None then Returned(false) else Sending(u.value, s.core.q.AddOk())]
             && (u == Some(v) || u == None) && (u == Some(v) <==> s.core.q.AddOk() && !b)
             && (u == Some(v) ==> d.q == s.core.q.(unused := s.core.q.unused[1..] + [s.core.q.unused[0]]))
             && (s.core.ready ==> (u == None <==> s.core.q.broken || b))
    ensures QueueInv(t) && (s.core.q.broken ==> t.core.q.broken)
  {
  }

  lemma CallbackQueueInv(s: State)
    requires QueueInv(s) && Enabled(s, Callback)
    ensures var t := Apply(s, Callback); QueueInv(t) && (s.core.q.broken ==> t.core.q.broken)
  {
    hide Drain;
    DrainQueue(s.core);
  }

  lemma ReplyQueueInv(s: State, k: Key)
    requires QueueInv(s) && Enabled(s, Reply(k))
    ensures var t := Apply(s, Reply(k)); QueueInv(t) && (s.core.q.broken ==> t.core.q.broken)
  {
  }

  lemma TeardownQueueInv(s: State)
    requires QueueInv(s) && Enabled(s, Teardown)
    ensures var t := Apply(s, Teardown); QueueInv(t) && (s.core.q.broken ==> t.core.q.broken)
  {
  }

  lemma PhaseQueueInv(s: State, a: Action)
    requires QueueInv(s) && Enabled(s, a)
    requires a.Begin? || a.Send? || a.Wake? || a.Reclaim? || a.RecvFailed? || a.Unready?
    ensures var t := Apply(s, a); QueueInv(t) && (s.core.q.broken ==> t.core.q.broken)
  {
  }

  lemma {:induction false} QueueInvHolds(s: State, run: seq<Action>, t: State)
    requires QueueInv(s) && Reaches(s, run, t)
    ensures QueueInv(t)
    ensures s.core.q.broken ==> t.core.q.broken
    decreases |run|
  {
    if run != [] {
      StepQueueInv(s, run[0]);
      QueueInvHolds(Apply(s, run[0]), run[1..], t);
    }
  }

  ghost predicate InFlight(s: State, v: Vbuf) {
    v in s.phase && s.phase[v].Sending?
  }

  lemma StepBroken(s: State, a: Action)
    requires QueueInv(s) && s.core.q.broken && Enabled(s, a)
    ensures var t := Apply(s, a);
            && (t.sent == s.sent || (exists v :: InFlight(s, v) && t.sent == s.sent + [v]))
            && (forall v :: InFlight(t, v) ==> InFlight(s, v))
  {
    match a
    case SubmitLocked(v, b) => KickSendsWhatWasAdded(s, v, b);
    case Send(v, ok) => assert s.phase[v].what == v && InFlight(s, v);
    case _ =>
  }

  /** Once the queue is broken, the only commands that still reach the host are those whose
      send had already started; nothing submitted later is sent. */
  lemma {:induction false} BrokenSendsNothingNew(s: State, run: seq<Action>, t: State)
    requires QueueInv(s) && s.core.q.broken && Reaches(s, run, t)
    ensures s.sent <= t.sent
    ensures forall v :: v in t.sent[|s.sent|..] ==> InFlight(s, v)
    decreases |run|
  {
    hide Apply, Enabled, QueueInv;
    if run != [] {
      var s1 := Apply(s, run[0]);
      StepQueueInv(s, run[0]);
      StepBroken(s, run[0]);
      BrokenSendsNothingNew(s1, run[1..], t);
      assert t.sent[|s.sent|..] == s1.sent[|s.sent|..] + t.sent[|s1.sent|..];
    }
  }

  // ---- the one access that is not protected ----

  /** A command whose send is in progress is allocated if and only if it is still on the
      pending list: kick reads the message with the lock dropped and does not look. */
  lemma SendReadsLiveIffPending(run: seq<Action>, t: State, v: Vbuf)
    requires Reaches(Init(), run, t) && InFlight(t, v)
    ensures v in t.core.live <==> v in t.core.pending
  {
    InFlightOwned(Init(), run, t);
    NoUseAfterFree(Init(), run, t);
  }

  /** A buffer that was submitted stays allocated exactly as long as it is pending. */
  ghost predicate SubmittedOwned(s: State) {
    && (forall v :: v in s.phase && !s.phase[v].Called? && v !in s.submitted ==> s.phase[v] == Returned(false))
    && (forall v :: v in s.submitted ==> v in s.phase && s.phase[v] != Called)
    && (forall v :: v in s.submitted && v in s.core.live ==> v in s.core.pending)
  }

  lemma {:induction false} InFlightOwned(s: State, run: seq<Action>, t: State)
    requires SafeState(s) && SubmittedOwned(s) && Reaches(s, run, t)
    ensures SubmittedOwned(t)
    decreases |run|
  {
    if run != [] {
      var s1 := Apply(s, run[0]);
      StepSafe(s, run[0]);
      StepOwned(s, run[0]);
      InFlightOwned(s1, run[1..], t);
    }
  }

  lemma StepOwned(s: State, a: Action)
    requires SafeState(s) && SubmittedOwned(s) && Enabled(s, a)
    ensures SubmittedOwned(Apply(s, a))
  {
    hide SafeState, SubmittedOwned, Safe, FreesOnlyPending;
    match a
    case Begin(v) => BeginOwned(s, v);
    case SubmitLocked(v, b) => SubmitOwned(s, v, b);
    case _ =>
      StepFreesOnlyPending(s, a);
      StepPhases(s, a);
      FreeingOwned(s, Apply(s, a));
  }

  lemma BeginOwned(s: State, v: Vbuf)
    requires SafeState(s) && SubmittedOwned(s) && Enabled(s, Begin(v))
    ensures SubmittedOwned(Apply(s, Begin(v)))
  {
    hide Safe;
  }

  lemma SubmitOwned(s: State, v: Vbuf, b: bool)
    requires SafeState(s) && SubmittedOwned(s) && Enabled(s, SubmitLocked(v, b))
    ensures SubmittedOwned(Apply(s, SubmitLocked(v, b)))
  {
    hide Safe, Submit;
    assert v in s.core.live && v !in s.core.pending;
    SubmitSafe(s.core, v, b);
  }

  lemma FreeingOwned(s: State, t: State)
    requires SubmittedOwned(s) && FreesOnlyPending(s.core, t.core) && t.submitted == s.submitted && PhasesMove(s, t)
    ensures SubmittedOwned(t)
  {
    hide NoDup;
    assert forall v :: v in t.phase && !t.phase[v].Called? && v !in t.submitted ==> s.phase[v] == Returned(false);
  }

  ghost function Rotated(q: Hvq<Vbuf>): Hvq<Vbuf>
    requires q.unused != []
  {
    q.(unused := q.unused[1..] + [q.unused[0]])
  }

  /** A submission to a healthy queue: on the list and in the sender's hands. */
  ghost function InHand(s: State, v: Vbuf): State
    requires s.core.q.unused != []
  {
    s.(core := s.core.(pending := s.core.pending + [v], q := Rotated(s.core.q)),
       phase := s.phase[v := Sending(v, true)], submitted := s.submitted + [v])
  }

  lemma CleanSubmit(s: State, v: Vbuf)
    requires Enabled(s, SubmitLocked(v, false)) && !s.core.q.broken && s.core.q.unused != [] && s.core.q.vbufs == []
    requires v in s.core.live && forall u :: u in s.core.pending ==> u in s.core.live
    ensures Apply(s, SubmitLocked(v, false)) == InHand(s, v)
  {
    AttachUnattach(s.core.q, VbufList, v);
    assert s.core.Deref(s.core.pending + [v]) == s.core;
  }

  /** Two same-key commands a and b have overlapped: a's send is still in progress, b has
      been sent. */
  ghost predicate Overlapped(s: State, a: Vbuf, b: Vbuf) {
    && a != b && s.core.live == {a, b} && s.core.pending == [a, b] && s.core.ready && !s.core.q.broken
    && s.core.q.unused != [] && s.core.q.resps == [] && s.rx == RxIdle
    && a in s.phase && s.phase[a] == Sending(a, true)
  }

  lemma OverlapReachable(a: Vbuf, b: Vbuf) returns (run: seq<Action>, t: State)
    requires a != b
    ensures Reaches(Init(), run, t) && Overlapped(t, a, b)
  {
    hide Reaches, Submit;
    var s := Init();
    var s1 := Apply(s, Begin(a));
    var s2 := Apply(s1, Begin(b));
    ReachesByStep(s, [Begin(a), Begin(b)], [s, s1, s2]);
    assert BothCalled(s2, a, b);
    var run2;
    run2, t := BothSubmit(s2, a, b);
    run := [Begin(a), Begin(b)] + run2;
    ReachesConcat(s, [Begin(a), Begin(b)], s2, run2, t);
  }

  ghost predicate BothCalled(s: State, a: Vbuf, b: Vbuf) {
    && a != b && s.core.live == {a, b} && s.core.pending == [] && s.core.ready && s.rx == RxIdle
    && !s.core.q.broken && |s.core.q.unused| > 1 && s.core.q.resps == [] && s.core.q.vbufs == []
    && a in s.phase && b in s.phase && s.phase[a] == Called && s.phase[b] == Called
  }

  lemma BothSubmit(s: State, a: Vbuf, b: Vbuf) returns (run: seq<Action>, t: State)
    requires BothCalled(s, a, b)
    ensures Reaches(s, run, t) && Overlapped(t, a, b)
  {
    hide Submit;
    CleanSubmit(s, a);
    var s1 := InHand(s, a);
    CleanSubmit(s1, b);
    var s2 := InHand(s1, b);
    t := Apply(s2, Send(b, true));
    run := [SubmitLocked(a, false), SubmitLocked(b, false), Send(b, true)];
    ReachesByStep(s, run, [s, s1, s2, t]);
  }

  lemma OverlapEnds(s: State, a: Vbuf, b: Vbuf)
    requires Overlapped(s, a, b) && !a.isSync && a.key == b.key
    ensures exists run, t :: Reaches(s, run, t) && t.sendFault
  {
    var s1 := Apply(s, Reply(a.key));
    assert FirstWithKey(s.core.pending, a.key) == 0;
    AttachUnattach(s.core.q, RespList, a);
    var s2 := Apply(s1, Callback);
    DrainOne(s1.core, a);
    var s3 := Apply(s2, Send(a, true));
    ReachesByStep(s, [Reply(a.key), Callback, Send(a, true)], [s, s1, s2, s3]);
  }

  /** The response list holds one asynchronous pending command: the callback frees it. */
  lemma DrainOne(c: Core, a: Vbuf)
    requires Bufs(c.q.resps) == [a] && !a.isSync && a in c.pending
    ensures a !in Drain(c).live
  {
    var c1 := c.(q := c.q.Unattach(RespList).0);
    assert c.q.resps[0].buf == Bufs(c.q.resps)[0] == a;
    CompleteOneQueue(c1, a);
    assert a !in CompleteOne(c1, a).live;
    assert Drain(c) == Drain(CompleteOne(c1, a)) == CompleteOne(c1, a);
  }

  /** Two overlapping submissions with one key: the first is still being sent when the reply
      to the second arrives, is matched as the oldest, and is freed under the sender. */
  lemma OverlapFreesUnderSender()
    ensures exists run, t :: Reaches(Init(), run, t) && t.sendFault
  {
    hide Reaches;
    var k := Key(1, 2);
    var a, b := Vbuf(0, k, false), Vbuf(1, k, false);
    var pre, s := OverlapReachable(a, b);
    OverlapEnds(s, a, b);
    var run, t :| Reaches(s, run, t) && t.sendFault;
    ReachesConcat(Init(), pre, s, run, t);
  }

  lemma {:induction false} ReachesConcat(s: State, run1: seq<Action>, t: State, run2: seq<Action>, u: State)
    requires Reaches(s, run1, t) && Reaches(t, run2, u)
    ensures Reaches(s, run1 + run2, u)
    decreases |run1|
  {
    hide Apply, Enabled;
    if run1 == [] {
      assert run1 + run2 == run2;
    } else {
      var r := run1 + run2;
      assert r[0] == run1[0] && r[1..] == run1[1..] + run2;
      var s1 := Apply(s, run1[0]);
      ReachesConcat(s1, run1[1..], t, run2, u);
      assert Reaches(s1, r[1..], u);
    }
  }

  lemma {:induction false} ReachesByStep(s: State, run: seq<Action>, states: seq<State>)
    requires |states| == |run| + 1 && states[0] == s
    requires forall i :: 0 <= i < |run| ==> Enabled(states[i], run[i]) && states[i + 1] == Apply(states[i], run[i])
    ensures Reaches(s, run, states[|run|])
    decreases |run|
  {
    if run != [] {
      assert forall i :: 0 <= i < |run[1..]| ==> run[1..][i] == run[i + 1] && states[1..][i] == states[i + 1];
      ReachesByStep(states[1], run[1..], states[1..]);
    }
  }
}

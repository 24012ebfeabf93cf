/** Until when a submitted command stays allocated, told from the replies: what a sender that
    reads it with the lock dropped, and a waiter that holds a pointer to it, may rely on. */
module CommandLifetimes {
  import opened Sequences
  import opened HabVirtqueue
  import opened CommandQueue
  import opened CommandSafety

  /** A reply was matched to v and the callback for it is over. */
  ghost predicate CalledBack(s: State, v: Vbuf) {
    v in s.delivered && s.rx != RxCallback(v)
  }

  /** The thread waits for its command, or has been woken and has not reclaimed it yet. */
  predicate Awaits(s: State, v: Vbuf) {
    v in s.phase && (s.phase[v].Waiting? || s.phase[v].Reclaiming?)
  }

  ghost predicate Histories(s: State) {
    && (forall v :: v in s.delivered ==> v in s.submitted)
    && (s.rx.RxCallback? ==> s.rx.v in s.delivered)
    && (forall v :: Awaits(s, v) ==> v.isSync)
    && (forall v :: InFlight(s, v) || Awaits(s, v) ==> v in s.submitted)
  }

  /** While the device is ready: a matched command is the only one on the response list until
      its callback; a command nobody waits for lives until then, and one somebody sends or
      awaits lives on. */
  ghost predicate ReadyLives(s: State) {
    && (s.rx.RxCallback? ==> Bufs(s.core.q.resps) == [s.rx.v])
    && (forall v :: v in s.submitted && !v.isSync ==> (v in s.core.live <==> !CalledBack(s, v)))
    && (forall v: Vbuf :: v.isSync && (InFlight(s, v) || Awaits(s, v)) ==> v in s.core.live)
  }

  ghost predicate PendingSubmitted(s: State) {
    forall v :: v in s.core.pending ==> v in s.submitted
  }

  ghost predicate LifeInv(s: State) {
    && SafeState(s) && SubmittedOwned(s) && QueueInv(s) && PendingSubmitted(s) && Histories(s)
    && (s.core.ready ==> ReadyLives(s))
  }

  /** What the drain of the response list does to buffers: an asynchronous pending one on the
      list is freed, no other. */
  lemma {:induction false} DrainFrees(c: Core, v: Vbuf)
    requires Safe(c) && (v in c.live ==> v in c.pending || v !in Bufs(c.q.resps))
    ensures v in Drain(c).live <==> v in c.live && (v.isSync || v !in Bufs(c.q.resps))
    decreases |c.q.resps|
  {
    if c.q.resps != [] {
      var (q1, u) := c.q.Unattach(RespList);
      var c1 := c.(q := q1);
      UnattachConserves(c.q, RespList);
      CompleteOneSafe(c1, u.value);
      CompleteOneFrees(c1, u.value, v);
      DrainFrees(CompleteOne(c1, u.value), v);
    }
  }

  lemma CompleteOneFrees(c: Core, u: Vbuf, v: Vbuf)
    requires Safe(c)
    ensures var d := CompleteOne(c, u);
            && d.q == c.q
            && (v in d.live <==> v in c.live && (v != u || v.isSync || v !in c.pending))
            && (v in d.live ==> (v in d.pending <==> v in c.pending))
  {
    IsPendingSafe(c, u);
    if u in c.pending && !u.isSync { assert c.Deref([u]) == c; }
  }

  /** What the steps other than the callback do to what the two predicates speak of. */
  ghost predicate SameHistory(s: State, t: State) {
    t.submitted == s.submitted && t.delivered == s.delivered && t.rx == s.rx && t.core.q.resps == s.core.q.resps
  }

  lemma BeginLives(s: State, v: Vbuf)
    requires LifeInv(s) && Enabled(s, Begin(v))
    ensures var t := Apply(s, Begin(v)); Histories(t) && (t.core.ready ==> ReadyLives(t))
  {
    hide Safe, QueueInv;
    var t := Apply(s, Begin(v));
    assert SameHistory(s, t) && v !in s.submitted;
    assert forall u :: InFlight(t, u) <==> InFlight(s, u);
    assert forall u :: Awaits(t, u) <==> Awaits(s, u);
  }

  lemma SubmitLives(s: State, v: Vbuf, b: bool)
    requires LifeInv(s) && Enabled(s, SubmitLocked(v, b))
    ensures var t := Apply(s, SubmitLocked(v, b)); Histories(t) && (t.core.ready ==> ReadyLives(t))
  {
    KickSendsWhatWasAdded(s, v, b);
    SubmitSafe(s.core, v, b);
    var t := Apply(s, SubmitLocked(v, b));
    SubmitLivesIn(s, t, v, t.phase[v]);
  }

  lemma SubmitLivesIn(s: State, t: State, v: Vbuf, p: Phase)
    requires LifeInv(s) && v in s.phase && s.phase[v] == Called && v in s.core.live
    requires t.core.live == s.core.live && t.core.ready == s.core.ready && t.core.q.resps == s.core.q.resps
    requires t.submitted == s.submitted + [v] && t.delivered == s.delivered && t.rx == s.rx
    requires t.phase == s.phase[v := p] && (p.Sending? || p.Returned?)
    ensures Histories(t) && (t.core.ready ==> ReadyLives(t))
  {
    hide Safe, QueueInv;
    assert v !in s.submitted && v !in s.delivered;
    assert !CalledBack(t, v);
    assert forall u :: CalledBack(t, u) <==> CalledBack(s, u);
    assert forall u :: InFlight(t, u) ==> InFlight(s, u) || u == v;
    assert forall u :: Awaits(t, u) ==> Awaits(s, u);
  }

  /** A step of one thread that frees nothing. */
  lemma PhaseLives(s: State, t: State, v: Vbuf, p: Phase)
    requires LifeInv(s) && SameHistory(s, t) && t.core.live == s.core.live && t.core.ready == s.core.ready
    requires InFlight(s, v) || Awaits(s, v)
    requires t.phase == s.phase[v := p] && !p.Called? && !p.Sending? && ((p.Waiting? || p.Reclaiming?) ==> v.isSync)
    ensures Histories(t) && (t.core.ready ==> ReadyLives(t))
  {
    hide Safe, QueueInv;
    assert forall u :: CalledBack(t, u) <==> CalledBack(s, u);
    assert forall u :: InFlight(t, u) ==> InFlight(s, u);
    assert forall u :: Awaits(t, u) ==> Awaits(s, u) || u == v;
  }

  lemma ReclaimLives(s: State, v: Vbuf)
    requires LifeInv(s) && Enabled(s, Reclaim(v))
    ensures var t := Apply(s, Reclaim(v)); Histories(t) && (t.core.ready ==> ReadyLives(t))
  {
    hide QueueInv, NoDup;
    IsPendingSafe(s.core, v);
    var t := Apply(s, Reclaim(v));
    assert Awaits(s, v);
    assert t.core.live == s.core.live - {v} || t.core.live == s.core.live;
    ReclaimLivesIn(s, t, v, t.phase[v]);
  }

  lemma ReclaimLivesIn(s: State, t: State, v: Vbuf, p: Phase)
    requires LifeInv(s) && SameHistory(s, t) && t.core.ready == s.core.ready && Awaits(s, v)
    requires t.core.live == s.core.live - {v} || t.core.live == s.core.live
    requires t.phase == s.phase[v := p] && p.Returned?
    ensures Histories(t) && (t.core.ready ==> ReadyLives(t))
  {
    hide Safe, QueueInv;
    assert forall u :: CalledBack(t, u) <==> CalledBack(s, u);
    assert forall u :: InFlight(t, u) ==> InFlight(s, u) && u != v;
    assert forall u :: Awaits(t, u) ==> Awaits(s, u) && u != v;
  }

  lemma ReplyLives(s: State, k: Key)
    requires LifeInv(s) && Enabled(s, Reply(k))
    ensures var t := Apply(s, Reply(k)); Histories(t) && (t.core.ready ==> ReadyLives(t))
  {
    var t := Apply(s, Reply(k));
    var i := FirstWithKey(s.core.pending, k);
    if i < |s.core.pending| {
      var m := s.core.pending[i];
      MatchedIsSubmitted(s, m);
      AttachConserves(s.core.q, RespList, m);
      assert s.core.ready ==> Bufs(s.core.q.resps) == [] && s.core.q.unused != [];
      assert s.core.ready ==> Bufs(t.core.q.resps) == [] + [m] == [m];
      MatchLivesIn(s, t, m);
    } else {
      RxEndLives(s, t);
    }
  }

  /** Only submitted commands are on the pending list. */
  lemma MatchedIsSubmitted(s: State, m: Vbuf)
    requires LifeInv(s) && m in s.core.pending
    ensures m in s.core.live && m in s.submitted
  {
  }

  lemma MatchLivesIn(s: State, t: State, m: Vbuf)
    requires LifeInv(s) && s.rx == RxIdle && t.rx == RxCallback(m) && m in s.core.live && m in s.submitted
    requires t.core.live == s.core.live && t.core.ready == s.core.ready && t.phase == s.phase
    requires t.submitted == s.submitted && t.delivered == s.delivered + [m]
    requires t.core.ready ==> Bufs(t.core.q.resps) == [m]
    ensures Histories(t) && (t.core.ready ==> ReadyLives(t))
  {
    hide Safe, QueueInv;
    assert forall u :: CalledBack(t, u) <==> CalledBack(s, u) && u != m;
    assert forall u :: InFlight(t, u) <==> InFlight(s, u);
    assert forall u :: Awaits(t, u) <==> Awaits(s, u);
    assert s.core.ready && !m.isSync ==> !CalledBack(s, m);
  }

  /** A step of the response thread that ends it. */
  lemma RxEndLives(s: State, t: State)
    requires LifeInv(s) && s.rx == RxIdle && t.rx == RxExited
    requires t.core.live == s.core.live && t.core.ready == s.core.ready && t.phase == s.phase
    requires t.submitted == s.submitted && t.delivered == s.delivered
    ensures Histories(t) && (t.core.ready ==> ReadyLives(t))
  {
    hide Safe, QueueInv;
    assert forall u :: CalledBack(t, u) <==> CalledBack(s, u);
    assert forall u :: InFlight(t, u) <==> InFlight(s, u);
    assert forall u :: Awaits(t, u) <==> Awaits(s, u);
  }

  lemma CallbackLives(s: State)
    requires LifeInv(s) && Enabled(s, Callback)
    ensures var t := Apply(s, Callback); Histories(t) && (t.core.ready ==> ReadyLives(t))
  {
    hide Safe, QueueInv, Drain, NoDup;
    var t, m := Apply(s, Callback), s.rx.v;
    assert forall u :: CalledBack(t, u) <==> CalledBack(s, u) || u == m;
    assert forall u :: InFlight(t, u) <==> InFlight(s, u);
    assert forall u :: Awaits(t, u) <==> Awaits(s, u);
    if s.core.ready {
      assert Bufs(s.core.q.resps) == [m];
      assert !m.isSync ==> !CalledBack(s, m);
      forall u | u in s.submitted
        ensures u in t.core.live <==> u in s.core.live && (u.isSync || u != m)
      {
        DrainFrees(s.core, u);
      }
      assert ReadyLives(t);
    }
  }

  lemma TeardownLives(s: State, t: State)
    requires LifeInv(s) && !t.core.ready && t.rx == s.rx && t.phase == s.phase
    requires t.submitted == s.submitted && t.delivered == s.delivered
    ensures Histories(t)
  {
    assert forall u :: InFlight(t, u) <==> InFlight(s, u);
    assert forall u :: Awaits(t, u) <==> Awaits(s, u);
  }

  lemma StepPendingSubmitted(s: State, a: Action)
    requires SafeState(s) && PendingSubmitted(s) && Enabled(s, a)
    ensures PendingSubmitted(Apply(s, a))
  {
    hide NoDup, Drain;
    match a
    case Begin(_) =>
    case SubmitLocked(v, b) => SubmitSafe(s.core, v, b);
    case _ => StepFreesOnlyPending(s, a);
  }

  lemma StepLives(s: State, a: Action)
    requires LifeInv(s) && Enabled(s, a)
    ensures var t := Apply(s, a); Histories(t) && (t.core.ready ==> ReadyLives(t))
  {
    hide Safe, SafeState, SubmittedOwned, PendingSubmitted, Histories, ReadyLives, Submit, Drain, Match;
    match a
    case Begin(v) => BeginLives(s, v);
    case SubmitLocked(v, b) => SubmitLives(s, v, b);
    case Send(v, ok) => SendLives(s, v, ok);
    case Wake(v, timedOut) => WakeLives(s, v, timedOut);
    case Reclaim(v) => ReclaimLives(s, v);
    case Reply(k) => ReplyLives(s, k);
    case RecvFailed => RxEndLives(s, Apply(s, a));
    case Callback => CallbackLives(s);
    case Unready => TeardownLives(s, Apply(s, a));
    case Teardown => TeardownLives(s, Apply(s, a));
  }

  lemma SendLives(s: State, v: Vbuf, ok: bool)
    requires LifeInv(s) && Enabled(s, Send(v, ok))
    ensures var t := Apply(s, Send(v, ok)); Histories(t) && (t.core.ready ==> ReadyLives(t))
  {
    var t := Apply(s, Send(v, ok));
    PhaseLives(s, t, v, t.phase[v]);
  }

  lemma WakeLives(s: State, v: Vbuf, timedOut: bool)
    requires LifeInv(s) && Enabled(s, Wake(v, timedOut))
    ensures var t := Apply(s, Wake(v, timedOut)); Histories(t) && (t.core.ready ==> ReadyLives(t))
  {
    assert Awaits(s, v);
    PhaseLives(s, Apply(s, Wake(v, timedOut)), v, Reclaiming(timedOut));
  }

  lemma {:induction false} LivesHold(s: State, run: seq<Action>, t: State)
    requires LifeInv(s) && Reaches(s, run, t)
    ensures LifeInv(t)
    decreases |run|
  {
    if run != [] {
      var s1 := Apply(s, run[0]);
      StepLifeInv(s, run[0]);
      LivesHold(s1, run[1..], t);
    }
  }

  lemma StepLifeInv(s: State, a: Action)
    requires LifeInv(s) && Enabled(s, a)
    ensures LifeInv(Apply(s, a))
  {
    hide Apply, Enabled, SafeState, SubmittedOwned, QueueInv, PendingSubmitted, Histories, ReadyLives;
    StepSafe(s, a);
    StepOwned(s, a);
    StepQueueInv(s, a);
    StepPendingSubmitted(s, a);
    StepLives(s, a);
  }

  lemma StartsAlive()
    ensures LifeInv(Init())
  {
  }

  /** When a send reads a freed command. With the device ready, the command in a sender's hands
      is gone exactly if nobody waits for it, a reply has been matched to it, and the callback
      for that reply is over. */
  lemma SenderReadsFreedExact(run: seq<Action>, t: State, v: Vbuf)
    requires Reaches(Init(), run, t) && t.core.ready && InFlight(t, v)
    ensures v !in t.core.live <==> !v.isSync && v in t.delivered && t.rx != RxCallback(v)
  {
    StartsAlive();
    LivesHold(Init(), run, t);
    assert v.isSync ==> v in t.core.live;
    assert CalledBack(t, v) <==> v in t.delivered && t.rx != RxCallback(v);
  }

  /** The command a step frees under a thread that awaits it: its own, by that thread's
      reclaiming it or by a teardown that finds it next on the queue. */
  predicate TakenAway(s: State, a: Action, v: Vbuf) {
    a == Reclaim(v) || (a.Teardown? && s.core.q.Detach().1 == Some(v))
  }

  /** What a waiter may rely on: its command is allocated exactly while it is on the pending
      list, which it is for as long as the device is ready; and a step takes an allocated one
      away if and only if it is the waiter's own reclaiming, or a teardown that detaches it. */
  lemma WaiterReadsLiveExact(run: seq<Action>, t: State, v: Vbuf, a: Action)
    requires Reaches(Init(), run, t) && Awaits(t, v) && Enabled(t, a)
    ensures v in t.core.live <==> v in t.core.pending
    ensures t.core.ready ==> v in t.core.live
    ensures v in t.core.live ==> (v !in Apply(t, a).core.live <==> TakenAway(t, a, v))
  {
    StartsAlive();
    LivesHold(Init(), run, t);
    if v in t.core.live {
      assert v in t.core.pending && v.isSync;
      StepTakes(t, a, v);
    }
  }

  lemma StepTakes(s: State, a: Action, v: Vbuf)
    requires SafeState(s) && Enabled(s, a) && v in s.core.live && v in s.core.pending && v.isSync
    ensures v !in Apply(s, a).core.live <==> TakenAway(s, a, v)
  {
    hide NoDup, Drain;
    match a
    case SubmitLocked(u, b) => SubmitSafe(s.core, u, b);
    case Reclaim(u) => IsPendingSafe(s.core, u);
    case Callback => DrainFrees(s.core, v);
    case Teardown =>
      var (q1, u) := s.core.q.Detach();
      if u != None { IsPendingSafe(s.core.(q := q1), u.value); }
    case _ =>
  }
}

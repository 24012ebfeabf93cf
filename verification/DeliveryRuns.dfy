/** Runs of the command protocol under the discipline: in order exactly when timely, a wrong
    delivery is never made good, and runs without timeouts are timely. */
module DeliveryRuns {
  import opened Sequences
  import opened HabVirtqueue
  import opened CommandQueue
  import opened CommandSafety
  import opened CommandLifetimes
  import opened KeyedLists
  import opened CommandDelivery

  lemma {:induction false} DeliveryHolds(s: State, run: seq<Action>, t: State)
    requires Delivery(s) && DisciplinedRun(s, run, t) && Timely(s, run)
    ensures Delivery(t)
    decreases |run|
  {
    hide Delivery, Apply, Disciplined, InTime;
    if run != [] {
      StepDelivery(s, run[0]);
      DeliveryHolds(Apply(s, run[0]), run[1..], t);
    }
  }

  lemma DeliveryInOrder(s: State)
    requires Delivery(s)
    ensures InOrder(s)
  {
    hide LifeInv, Lists, OneEach, SyncFates;
    forall j | 0 <= j < |s.delivered|
      ensures WentRight(s, j)
    {
      var k := s.responses[j];
      CountIsProjection(s.responses[..j], s.delivered[..j], k);
      ProjectSplit(s.delivered, j, k);
      assert Chain(s, k);
    }
  }

  // ---- a reply to the wrong command is never made good ----

  /** A reply found no command, or went to another one than the sends so far say. */
  ghost predicate Misdelivered(s: State) {
    || |s.delivered| < |s.responses|
    || exists j :: 0 <= j < |s.delivered| && WentWrong(s, j)
  }

  ghost predicate WentWrong(s: State, j: nat) {
    && j < |s.delivered| && j < |s.responses|
    && var k, i := s.responses[j], CountKey(s.responses[..j], s.responses[j]);
       i < |Project(s.sent, k)| && s.delivered[j] != Project(s.sent, k)[i]
  }

  /** The histories only grow, and with each delivery a reply is logged. */
  ghost predicate HistoryGrows(s: State, t: State) {
    && s.sent <= t.sent && s.responses <= t.responses && s.delivered <= t.delivered
    && |t.delivered| - |s.delivered| <= |t.responses| - |s.responses|
  }

  lemma StepHistory(s: State, a: Action)
    requires Enabled(s, a)
    ensures HistoryGrows(s, Apply(s, a))
  {
    hide Drain, Submit, ReclaimIfPending, TeardownOne;
  }

  lemma MisdeliveredStays(s: State, t: State)
    requires Misdelivered(s) && HistoryGrows(s, t)
    ensures Misdelivered(t)
  {
    if |t.delivered| >= |t.responses| {
      var j :| 0 <= j < |s.delivered| && WentWrong(s, j);
      assert t.responses[..j] == s.responses[..j];
      assert t.sent == s.sent + t.sent[|s.sent|..];
      ProjectConcat(s.sent, t.sent[|s.sent|..], s.responses[j]);
      assert WentWrong(t, j);
    }
  }

  lemma MisdeliveredIsNotInOrder(s: State)
    requires Misdelivered(s)
    ensures !InOrder(s)
  {
    if |s.delivered| >= |s.responses| {
      var j :| 0 <= j < |s.delivered| && WentWrong(s, j);
      assert !WentRight(s, j);
    }
  }

  lemma {:induction false} MisdeliveredForGood(s: State, run: seq<Action>, t: State)
    requires Misdelivered(s) && DisciplinedRun(s, run, t)
    ensures !InOrder(t)
    decreases |run|
  {
    hide Apply, Disciplined, Misdelivered, InOrder, HistoryGrows;
    if run == [] {
      MisdeliveredIsNotInOrder(s);
    } else {
      StepHistory(s, run[0]);
      MisdeliveredStays(s, Apply(s, run[0]));
      MisdeliveredForGood(Apply(s, run[0]), run[1..], t);
    }
  }

  lemma LateMisdelivers(s: State, k: Key)
    requires Delivery(s) && Enabled(s, Reply(k)) && Disciplined(s, Reply(k)) && !InTime(s, Reply(k))
    ensures Misdelivered(Apply(s, Reply(k)))
  {
    hide LifeInv, Lists, OneEach, SyncFates, Chain, CallInv;
    DueIsFirst(s, k);
    var t, m := Apply(s, Reply(k)), Due(s, k);
    if |t.delivered| == |t.responses| {
      var j := |s.delivered|;
      assert t.delivered[j] in s.core.pending;
      assert t.responses[..j] == s.responses;
      assert t.delivered[j] != m;
      assert WentWrong(t, j);
    }
  }

  // ---- in order exactly when in time ----

  lemma InitDelivery()
    ensures Delivery(Init())
  {
  }

  lemma {:induction false} InOrderExact(s: State, run: seq<Action>, t: State)
    requires Delivery(s) && DisciplinedRun(s, run, t)
    ensures InOrder(t) <==> Timely(s, run)
    decreases |run|
  {
    hide Delivery, Apply, Disciplined, InTime, InOrder, Misdelivered;
    if run == [] {
      DeliveryInOrder(s);
    } else {
      var s1 := Apply(s, run[0]);
      if InTime(s, run[0]) {
        StepDelivery(s, run[0]);
        InOrderExact(s1, run[1..], t);
      } else {
        LateReply(s, run[0]);
        LateMisdelivers(s, run[0].key);
        MisdeliveredForGood(s1, run[1..], t);
      }
    }
  }

  lemma LateReply(s: State, a: Action)
    requires Disciplined(s, a) && !InTime(s, a)
    ensures a.Reply?
  {
  }

  lemma InFlightLives(t: State, v: Vbuf)
    requires Delivery(t) && InFlight(t, v)
    ensures t.phase[v] == Sending(v, true) && v in t.core.pending && v in t.core.live
  {
    assert Active(t, v) && CallInv(t, v) && Chain(t, v.key);
    InFlightNotSent(t, v);
    DeliveredIsSent(t, v);
  }

  // ---- without timeouts ----

  /** A waiter has been woken by its completion, and returned only after its reply. */
  ghost predicate Prompt(s: State) {
    && (forall v :: v in s.phase && s.phase[v].Reclaiming? ==> v in s.core.completed)
    && (forall v :: v in s.core.completed ==> v in s.delivered)
    && (forall v :: v in s.sent && GivenUp(s, v) ==> v in s.delivered)
  }

  /** What a step other than a send or a reclaiming must do for Prompt to stay. */
  lemma PromptStays(s: State, t: State)
    requires Prompt(s) && t.sent == s.sent && (forall v :: v in s.delivered ==> v in t.delivered)
    requires forall v :: v in t.phase && t.phase[v].Reclaiming? ==> (v in s.phase && s.phase[v].Reclaiming?) || v in s.core.completed
    requires forall v :: v in s.sent && GivenUp(t, v) ==> GivenUp(s, v) || v in s.delivered
    requires forall v :: v in s.core.completed ==> v in t.core.completed
    requires forall v :: v in t.core.completed ==> v in s.core.completed || v in s.delivered
    ensures Prompt(t)
  {
  }

  lemma SubmitPrompt(s: State, v: Vbuf, b: bool)
    requires Delivery(s) && Prompt(s) && Enabled(s, SubmitLocked(v, b))
    ensures Prompt(Apply(s, SubmitLocked(v, b)))
  {
    hide Delivery, Submit;
    NotYetSubmitted(s, v);
    SubmitCompletes(s.core, v, b);
    PromptStays(s, Apply(s, SubmitLocked(v, b)));
  }

  lemma CallbackPrompt(s: State)
    requires Delivery(s) && Prompt(s) && Enabled(s, Callback)
    ensures Prompt(Apply(s, Callback))
  {
    hide SafeState, SubmittedOwned, ReadyLives, Lists, OneEach, Chain, CallInv, Drain;
    CallbackCompletes(s);
    PromptStays(s, Apply(s, Callback));
  }

  lemma StepPrompt(s: State, a: Action)
    requires Delivery(s) && Prompt(s) && Enabled(s, a) && Disciplined(s, a) && InTime(s, a) && !(a.Wake? && a.timedOut)
    ensures Prompt(Apply(s, a))
  {
    hide Delivery, Prompt, Drain, Submit, Match;
    var t := Apply(s, a);
    match a
    case Begin(v) =>
      NotYetSubmitted(s, v);
      PromptStays(s, t);
    case SubmitLocked(v, b) => SubmitPrompt(s, v, b);
    case Send(v, ok) => SendPrompt(s, v, ok);
    case Callback => CallbackPrompt(s);
    case Reply(k) =>
      ReplyCompletes(s.core, k);
      PromptStays(s, t);
    case Reclaim(v) => ReclaimPrompt(s, v);
    case _ => PromptStays(s, t);
  }

  lemma ReclaimPrompt(s: State, v: Vbuf)
    requires Prompt(s) && Enabled(s, Reclaim(v))
    ensures Prompt(Apply(s, Reclaim(v)))
  {
    PromptStays(s, Apply(s, Reclaim(v)));
  }

  lemma SendPrompt(s: State, v: Vbuf, ok: bool)
    requires Delivery(s) && Prompt(s) && Enabled(s, Send(v, ok))
    ensures Prompt(Apply(s, Send(v, ok)))
  {
    hide SafeState, SubmittedOwned, ReadyLives, OneEach, Chain, CallInv;
    var t := Apply(s, Send(v, ok));
    assert s.phase[v] == Sending(v, true);
    assert forall u :: u != v ==> (GivenUp(t, u) <==> GivenUp(s, u));
    assert v in t.sent && GivenUp(t, v) ==> !ok;
    assert Active(s, v) && CallInv(s, v) && Chain(s, v.key);
    assert v !in s.sent by { InFlightNotSent(s, v); }
  }

  lemma ReplyCompletes(c: Core, k: Key)
    ensures Match(c, k).0.completed == c.completed
  {
  }

  lemma SubmitCompletes(c: Core, v: Vbuf, b: bool)
    ensures Submit(c, v, b).0.completed == c.completed
  {
  }

  lemma CallbackCompletes(s: State)
    requires Delivery(s) && Enabled(s, Callback)
    ensures s.core.completed <= Apply(s, Callback).core.completed <= s.core.completed + {s.rx.v}
  {
    hide SafeState, SubmittedOwned, Lists, Calls, SyncFates;
    var c, m := s.core, s.rx.v;
    var c1 := c.(q := c.q.Unattach(RespList).0);
    assert c.q.resps[0].buf == Bufs(c.q.resps)[0] == m;
    CompleteOneQueue(c1, m);
    assert Drain(c) == Drain(CompleteOne(c1, m)) == CompleteOne(c1, m);
  }

  lemma {:induction false} PromptIsTimely(s: State, run: seq<Action>, t: State)
    requires Delivery(s) && Prompt(s) && DisciplinedRun(s, run, t)
    requires forall i :: 0 <= i < |run| && run[i].Wake? ==> !run[i].timedOut
    ensures Timely(s, run)
    decreases |run|
  {
    hide Delivery, Prompt, Apply, Disciplined, InTime;
    if run != [] {
      PromptInTime(s, run[0]);
      StepDelivery(s, run[0]);
      StepPrompt(s, run[0]);
      PromptIsTimely(Apply(s, run[0]), run[1..], t);
    }
  }

  lemma PromptInTime(s: State, a: Action)
    requires Delivery(s) && Prompt(s) && Enabled(s, a) && Disciplined(s, a)
    ensures InTime(s, a)
  {
    if a.Reply? {
      DueIsFirst(s, a.key);
      ProjectKeyOf(s.sent, a.key, CountKey(s.responses, a.key));
    }
  }

  // ---- a run with a timeout ----

  /** One sync command has been sent and given up; its reply is still to come. */
  ghost predicate AfterTimeout(s: State, a: Vbuf) {
    && s.submitted == [a] && s.sent == [a] && s.responses == [] && s.delivered == [] && s.rx == RxIdle
    && a in s.phase && s.phase[a].Returned? && s.phase.Keys == {a}
    && s.core.pending == [] && s.core.live == {} && s.core.ready
    && !s.core.q.broken && |s.core.q.unused| > 1 && s.core.q.vbufs == []
  }

  /** It has been sent and is waited for. */
  ghost predicate AloneWaiting(s: State, a: Vbuf) {
    && s.submitted == [a] && s.sent == [a] && s.responses == [] && s.delivered == [] && s.rx == RxIdle
    && s.phase == map[a := Waiting]
    && s.core.pending == [a] && s.core.live == {a} && s.core.ready
    && !s.core.q.broken && |s.core.q.unused| > 1 && s.core.q.vbufs == []
  }

  lemma AloneReachable(a: Vbuf) returns (run: seq<Action>, t: State)
    requires a.isSync
    ensures Reaches(Init(), run, t) && AloneWaiting(t, a)
  {
    hide Submit;
    var s := Init();
    var s1 := Apply(s, Begin(a));
    CleanSubmit(s1, a);
    var s2 := InHand(s1, a);
    t := Apply(s2, Send(a, true));
    run := [Begin(a), SubmitLocked(a, false), Send(a, true)];
    ReachesByStep(s, run, [s, s1, s2, t]);
  }

  lemma TimesOut(s: State, a: Vbuf) returns (run: seq<Action>, t: State)
    requires AloneWaiting(s, a)
    ensures Reaches(s, run, t) && AfterTimeout(t, a)
  {
    var s1 := Apply(s, Wake(a, true));
    t := Apply(s1, Reclaim(a));
    assert IndexOf([a], a) == 0 && RemoveAt([a], 0) == [];
    run := [Wake(a, true), Reclaim(a)];
    ReachesByStep(s, run, [s, s1, t]);
  }

  lemma NextAnswered(s: State, a: Vbuf, b: Vbuf) returns (run: seq<Action>, t: State)
    requires AfterTimeout(s, a) && b.isSync && b != a && b.key == a.key
    ensures Reaches(s, run, t) && t.sent == [a, b] && |t.responses| == 1 && t.delivered == [b]
  {
    hide Submit;
    var s1 := Apply(s, Begin(b));
    CleanSubmit(s1, b);
    var s2 := InHand(s1, b);
    var s3 := Apply(s2, Send(b, true));
    assert FirstWithKey([b], b.key) == 0;
    t := Apply(s3, Reply(b.key));
    run := [Begin(b), SubmitLocked(b, false), Send(b, true), Reply(b.key)];
    ReachesByStep(s, run, [s, s1, s2, s3, t]);
  }

}

/** Command delivery under a discipline of non-overlapping calls: the invariant that ties each
    reply to the command it answers, and what every step does to it. */
module CommandDelivery {
  import opened Sequences
  import opened HabVirtqueue
  import opened CommandQueue
  import opened CommandSafety
  import opened CommandLifetimes
  import opened KeyedLists

  // ---- the discipline ----

  predicate Active(s: State, v: Vbuf) {
    v in s.phase && !s.phase[v].Returned?
  }

  /** What the property asks of the environment: calls with one key do not overlap, the device
      stays ready, and the host answers each sent command at most once, replies of one key in
      the order of its sends. Waiters may time out, sends may fail, the queue may break at
      any moment, and the response thread may die. */
  ghost predicate Disciplined(s: State, a: Action) {
    match a
    case Begin(v) => forall u :: Active(s, u) ==> u.key != v.key
    case Reply(k) => CountKey(s.responses, k) < |Project(s.sent, k)|
    case Unready => false
    case Teardown => false
    case _ => true
  }

  ghost predicate DisciplinedRun(s: State, run: seq<Action>, t: State)
    decreases |run|
  {
    if run == [] then s == t
    else Enabled(s, run[0]) && Disciplined(s, run[0]) && DisciplinedRun(Apply(s, run[0]), run[1..], t)
  }

  /** The command that the next reply with key k answers at the host. */
  function Due(s: State, k: Key): Vbuf
    requires CountKey(s.responses, k) < |Project(s.sent, k)|
  {
    Project(s.sent, k)[CountKey(s.responses, k)]
  }

  /** The synchronous call has returned: after a timeout, if no reply has come. */
  predicate GivenUp(s: State, v: Vbuf) {
    v.isSync && v in s.phase && s.phase[v].Returned?
  }

  /** Every reply in the run comes before the command it answers is given up. */
  ghost predicate Timely(s: State, run: seq<Action>)
    decreases |run|
  {
    run != [] ==>
      && Enabled(s, run[0]) && Disciplined(s, run[0])
      && InTime(s, run[0])
      && Timely(Apply(s, run[0]), run[1..])
  }

  ghost predicate InTime(s: State, a: Action)
    requires Disciplined(s, a)
  {
    a.Reply? ==> !GivenUp(s, Due(s, a.key))
  }

  /** The j-th reply overall went to the command it answers: the one sent as the i-th of its
      key, where i replies with that key came before. */
  ghost predicate WentRight(s: State, j: nat)
    requires j < |s.delivered| && j < |s.responses|
  {
    var k := s.responses[j];
    var i := CountKey(s.responses[..j], k);
    i < |Project(s.sent, k)| && s.delivered[j] == Project(s.sent, k)[i]
  }

  ghost predicate InOrder(s: State) {
    |s.delivered| == |s.responses| && forall j :: 0 <= j < |s.delivered| ==> WentRight(s, j)
  }

  // ---- the invariant ----

  /** The pending list is what remains of the submissions, in order. */
  ghost predicate Lists(s: State) {
    && NoDup(s.submitted) && s.core.pending == Remaining(s.submitted, s.core.live)
    && (forall v :: v in s.submitted ==> v in s.core.live || v in s.core.freed)
  }

  /** For one key: the delivered commands D, the sent ones S and the submitted ones B form a
      chain of prefixes. All submitted commands are sent, unless one is being sent or the
      queue broke. */
  ghost predicate Chain(s: State, k: Key) {
    var D, S, B := Project(s.delivered, k), Project(s.sent, k), Project(s.submitted, k);
    && D <= S <= B
    && (s.core.q.broken || S == B || exists v :: InFlight(s, v) && v.key == k)
  }

  ghost predicate Matched(s: State) {
    |s.responses| == |s.delivered| && forall i :: 0 <= i < |s.responses| ==> s.delivered[i].key == s.responses[i]
  }

  /** What one active call knows: it is the youngest submission of its key. */
  ghost predicate CallInv(s: State, v: Vbuf) {
    var B := Project(s.submitted, v.key);
    && (v in s.submitted ==> B != [] && B[|B| - 1] == v)
    && (InFlight(s, v) ==> v in s.submitted && |Project(s.sent, v.key)| + 1 == |B|)
    && (Awaits(s, v) ==> v in s.sent)
  }

  ghost predicate OneEach(s: State) {
    forall u, v :: Active(s, u) && Active(s, v) && u.key == v.key ==> u == v
  }

  /** A synchronous command that was sent is gone once its call has returned, and completed
      once it has been delivered and called back. */
  ghost predicate SyncFates(s: State) {
    && (forall v :: v in s.sent && GivenUp(s, v) ==> v !in s.core.live)
    && (forall v: Vbuf :: v.isSync && CalledBack(s, v) && v in s.core.live ==> v in s.core.completed)
  }

  ghost predicate Delivery(s: State) {
    && LifeInv(s) && s.core.ready && Lists(s) && Matched(s) && OneEach(s) && SyncFates(s)
    && (forall k :: Chain(s, k))
    && (forall v :: Active(s, v) ==> CallInv(s, v))
  }

  // ---- what a step does ----

  ghost predicate SameHistory(s: State, t: State) {
    && t.submitted == s.submitted && t.sent == s.sent && t.delivered == s.delivered && t.responses == s.responses
  }

  /** At most v is freed. */
  ghost predicate FreesAtMost(c: Core, d: Core, v: Vbuf) {
    || (d.live == c.live && d.pending == c.pending && d.freed == c.freed)
    || (v in c.pending && d.live == c.live - {v} && d.pending == Without(c.pending, v) && d.freed == c.freed + [v])
  }

  lemma FreeLists(s: State, t: State, v: Vbuf)
    requires Lists(s) && t.submitted == s.submitted && FreesAtMost(s.core, t.core, v)
    ensures Lists(t)
  {
    RemainingMember(s.submitted, s.core.live, v);
    if t.core.live != s.core.live {
      RemainingFree(s.submitted, s.core.live, v);
    }
  }

  /** What a step that logs nothing keeps. */
  ghost predicate CallsShrink(s: State, t: State) {
    && (forall v :: InFlight(t, v) <==> InFlight(s, v))
    && (forall v :: Active(t, v) ==> Active(s, v))
    && (forall v :: Awaits(t, v) ==> Awaits(s, v))
    && (s.core.q.broken ==> t.core.q.broken)
  }

  /** The part of Delivery that speaks of the histories and the calls. */
  ghost predicate Calls(s: State) {
    Matched(s) && OneEach(s) && (forall k :: Chain(s, k)) && (forall v :: Active(s, v) ==> CallInv(s, v))
  }

  lemma QuietCalls(s: State, t: State)
    requires Calls(s) && SameHistory(s, t) && CallsShrink(s, t)
    ensures Calls(t)
  {
    forall k
      ensures Chain(t, k)
    {
      ChainStays(s, t, k);
    }
    forall v | Active(t, v)
      ensures CallInv(t, v)
    {
      assert CallInv(s, v);
    }
  }

  lemma ChainStays(s: State, t: State, k: Key)
    requires Chain(s, k) && SameHistory(s, t) && CallsShrink(s, t)
    ensures Chain(t, k)
  {
  }

  lemma DeliveredIsSent(s: State, v: Vbuf)
    requires Chain(s, v.key)
    ensures v in s.delivered ==> v in s.sent
  {
    if v in s.delivered {
      ProjectMember(s.delivered, v);
      var D, S := Project(s.delivered, v.key), Project(s.sent, v.key);
      var i :| 0 <= i < |D| && D[i] == v;
      assert S[i] == v;
      ProjectKeyOf(s.sent, v.key, i);
    }
  }

  lemma SentIsSubmitted(s: State, v: Vbuf)
    requires Chain(s, v.key) && v in s.sent
    ensures v in s.submitted
  {
    ProjectMember(s.sent, v);
    var S, B := Project(s.sent, v.key), Project(s.submitted, v.key);
    var i :| 0 <= i < |S| && S[i] == v;
    assert B[i] == v;
    ProjectKeyOf(s.submitted, v.key, i);
  }

  lemma BeginDelivery(s: State, v: Vbuf)
    requires Delivery(s) && Enabled(s, Begin(v)) && Disciplined(s, Begin(v))
    ensures var t := Apply(s, Begin(v)); Lists(t) && Calls(t) && SyncFates(t)
  {
    var t := Apply(s, Begin(v));
    NotYetSubmitted(s, v);
    RemainingSame(s.submitted, s.core.live, t.core.live);
    BeginCalls(s, t, v);
    assert forall u :: GivenUp(t, u) ==> GivenUp(s, u);
    assert forall u :: CalledBack(t, u) ==> CalledBack(s, u);
  }

  lemma NotYetSubmitted(s: State, v: Vbuf)
    requires Delivery(s) && (v !in s.phase || s.phase[v].Called?)
    ensures v !in s.submitted && v !in s.sent && v !in s.delivered
  {
    if v in s.sent { SentIsSubmitted(s, v); }
  }

  lemma BeginCalls(s: State, t: State, v: Vbuf)
    requires Calls(s) && SameHistory(s, t) && v !in s.phase && v !in s.submitted && t.phase == s.phase[v := Called]
    requires t.core.q == s.core.q && forall u :: Active(s, u) ==> u.key != v.key
    ensures Calls(t)
  {
    assert forall u :: InFlight(t, u) <==> InFlight(s, u);
    assert forall u :: Active(t, u) <==> Active(s, u) || u == v;
    forall k
      ensures Chain(t, k)
    {
      assert Chain(s, k);
    }
    forall u | Active(t, u)
      ensures CallInv(t, u)
    {
      if u != v { assert CallInv(s, u); }
    }
  }

  // ---- a submission ----

  lemma SubmitDelivery(s: State, v: Vbuf, b: bool)
    requires Delivery(s) && Enabled(s, SubmitLocked(v, b))
    ensures var t := Apply(s, SubmitLocked(v, b)); Lists(t) && Calls(t) && SyncFates(t)
  {
    hide LifeInv, OneEach, Matched, Chain, CallInv, SyncFates, Lists, Apply;
    var t := Apply(s, SubmitLocked(v, b));
    NotYetSubmitted(s, v);
    assert SubmitEffect(s, t, v) by { SubmitHasEffect(s, v, b); }
    SubmitLists(s, t, v);
    SubmitCalls(s, t, v);
    SubmitFates(s, t, v);
  }

  /** What a submission does, with the queue's part summed up. */
  ghost predicate SubmitEffect(s: State, t: State, v: Vbuf) {
    && v in s.phase && s.phase[v] == Called && v in t.phase && v in s.core.live
    && t.submitted == s.submitted + [v] && t.sent == s.sent && t.delivered == s.delivered && t.responses == s.responses
    && t.phase == s.phase[v := t.phase[v]] && (t.phase[v].Sending? || t.phase[v].Returned?) && t.rx == s.rx
    && t.core.pending == s.core.pending + [v] && t.core.live == s.core.live && t.core.freed == s.core.freed
    && t.core.completed == s.core.completed
    && (s.core.q.broken ==> t.core.q.broken)
    && (InFlight(t, v) ==> !s.core.q.broken) && (!InFlight(t, v) ==> t.core.q.broken)
  }

  lemma SubmitHasEffect(s: State, v: Vbuf, b: bool)
    requires LifeInv(s) && s.core.ready && Enabled(s, SubmitLocked(v, b))
    ensures SubmitEffect(s, Apply(s, SubmitLocked(v, b)), v)
  {
    hide ReadyLives, SubmittedOwned, Histories, PendingSubmitted;
    assert v in s.core.live && v !in s.core.pending;
    SubmitSafe(s.core, v, b);
    KickSendsWhatWasAdded(s, v, b);
    hide SafeState, QueueInv;
    SubmitKeepsRest(s.core, v, b);
  }

  lemma SubmitKeepsRest(c: Core, v: Vbuf, b: bool)
    ensures var d := Submit(c, v, b).0; d.completed == c.completed && (c.q.broken ==> d.q.broken) && (Submit(c, v, b).1 == None ==> d.q.broken || c.q.unused == [])
  {
  }

  lemma SubmitLists(s: State, t: State, v: Vbuf)
    requires Lists(s) && SubmitEffect(s, t, v) && v !in s.submitted
    ensures Lists(t)
  {
    RemainingAppend(s.submitted, v, s.core.live);
  }

  lemma SubmitFates(s: State, t: State, v: Vbuf)
    requires SyncFates(s) && SubmitEffect(s, t, v) && v !in s.sent
    ensures SyncFates(t)
  {
    assert forall u :: u in s.sent && GivenUp(t, u) ==> GivenUp(s, u);
    assert forall u :: CalledBack(t, u) ==> CalledBack(s, u);
  }

  lemma SubmitCalls(s: State, t: State, v: Vbuf)
    requires Calls(s) && v !in s.submitted && SubmitEffect(s, t, v)
    ensures Calls(t)
  {
    assert Active(s, v);
    assert forall u :: Active(t, u) ==> Active(s, u);
    forall k
      ensures Chain(t, k)
    {
      SubmitChain(s, t, v, k);
    }
    assert forall x :: InFlight(s, x) ==> Active(s, x);
    assert Chain(s, v.key);
    forall u | Active(t, u)
      ensures CallInv(t, u)
    {
      assert CallInv(s, u) && (u != v ==> u.key != v.key);
      SubmitCall(s, t, v, u);
    }
  }

  lemma SubmitCall(s: State, t: State, v: Vbuf, u: Vbuf)
    requires CallInv(s, u) && (u != v ==> u.key != v.key) && SubmitEffect(s, t, v)
    requires InFlight(t, v) ==> Project(s.sent, v.key) == Project(s.submitted, v.key)
    ensures CallInv(t, u)
  {
    hide Project;
    ProjectAppend(s.submitted, v, u.key);
    if u != v {
      assert Project(t.submitted, u.key) == Project(s.submitted, u.key);
      assert (InFlight(t, u) <==> InFlight(s, u)) && (Awaits(t, u) <==> Awaits(s, u));
    }
  }

  lemma SubmitChain(s: State, t: State, v: Vbuf, k: Key)
    requires Chain(s, k) && SubmitEffect(s, t, v)
    ensures Chain(t, k)
  {
    ProjectAppend(s.submitted, v, k);
    assert forall u :: u != v ==> (InFlight(t, u) <==> InFlight(s, u));
    if exists u :: InFlight(s, u) && u.key == k {
      var u :| InFlight(s, u) && u.key == k;
      assert InFlight(t, u);
    }
  }

  // ---- a send ----

  lemma SendDelivery(s: State, v: Vbuf, ok: bool)
    requires Delivery(s) && Enabled(s, Send(v, ok))
    ensures var t := Apply(s, Send(v, ok)); Lists(t) && Calls(t) && SyncFates(t)
  {
    hide SafeState, ReadyLives, SubmittedOwned, Histories, NoDup, OneEach, Matched, Chain, CallInv;
    var t := Apply(s, Send(v, ok));
    assert s.phase[v] == Sending(v, true);
    assert Active(s, v) && CallInv(s, v) && InFlight(s, v);
    SendCalls(s, t, v, ok);
    assert forall u :: u in s.sent && GivenUp(t, u) ==> u == v || GivenUp(s, u);
    InFlightNotSent(s, v);
    assert forall u :: CalledBack(t, u) ==> CalledBack(s, u);
    assert ok ==> !GivenUp(t, v);
  }

  lemma InFlightNotSent(s: State, v: Vbuf)
    requires Chain(s, v.key) && CallInv(s, v) && InFlight(s, v) && NoDup(s.submitted)
    ensures v !in s.sent
  {
    var S, B := Project(s.sent, v.key), Project(s.submitted, v.key);
    ProjectNoDup(s.submitted, v.key);
    if v in s.sent { ProjectMember(s.sent, v); }
    assert forall i :: 0 <= i < |S| ==> S[i] == B[i];
  }

  lemma SendCalls(s: State, t: State, v: Vbuf, ok: bool)
    requires Calls(s) && InFlight(s, v) && v in t.phase && t.phase == s.phase[v := t.phase[v]]
    requires t.phase[v].Waiting? ==> ok
    requires t.phase[v].Waiting? || t.phase[v].Returned?
    requires t.submitted == s.submitted && t.delivered == s.delivered && t.responses == s.responses
    requires t.sent == (if ok then s.sent + [v] else s.sent) && t.core.q.broken == (s.core.q.broken || !ok)
    ensures Calls(t)
  {
    assert Active(s, v) && CallInv(s, v);
    assert forall u :: Active(t, u) ==> Active(s, u);
    forall k
      ensures Chain(t, k)
    {
      SendChain(s, t, v, ok, k);
    }
    forall u | Active(t, u)
      ensures CallInv(t, u)
    {
      assert CallInv(s, u) && (u != v ==> u.key != v.key);
      SendCall(s, t, v, ok, u);
    }
  }

  lemma SendCall(s: State, t: State, v: Vbuf, ok: bool, u: Vbuf)
    requires CallInv(s, u) && (u != v ==> u.key != v.key) && InFlight(s, v) && v in t.phase && t.phase == s.phase[v := t.phase[v]]
    requires t.phase[v].Waiting? ==> ok
    requires t.phase[v].Waiting? || t.phase[v].Returned?
    requires t.submitted == s.submitted && t.sent == (if ok then s.sent + [v] else s.sent)
    ensures CallInv(t, u)
  {
    hide Project;
    ProjectAppend(s.sent, v, u.key);
    assert t.sent == s.sent || t.sent == s.sent + [v];
    if u == v {
      assert !InFlight(t, v);
      assert Awaits(t, v) ==> v in t.sent;
    } else {
      assert Project(t.sent, u.key) == Project(s.sent, u.key);
      assert (InFlight(t, u) <==> InFlight(s, u)) && (Awaits(t, u) <==> Awaits(s, u));
    }
  }

  lemma SendChain(s: State, t: State, v: Vbuf, ok: bool, k: Key)
    requires Chain(s, k) && InFlight(s, v) && CallInv(s, v) && t.phase.Keys == s.phase.Keys
    requires forall u :: u != v && u in s.phase ==> t.phase[u] == s.phase[u]
    requires t.submitted == s.submitted && t.delivered == s.delivered
    requires t.sent == (if ok then s.sent + [v] else s.sent) && t.core.q.broken == (s.core.q.broken || !ok)
    ensures Chain(t, k)
  {
    hide CallInv;
    assert v.key == k && ok ==> Project(s.submitted, k) == Project(s.sent, k) + [v] by { LastToSend(s, v); }
    ProjectAppend(s.sent, v, k);
    if v.key != k && exists u :: InFlight(s, u) && u.key == k {
      var u :| InFlight(s, u) && u.key == k;
      assert InFlight(t, u);
    }
  }

  /** A command being sent is the one submission of its key that has not been sent. */
  lemma LastToSend(s: State, v: Vbuf)
    requires CallInv(s, v) && InFlight(s, v)
    ensures Chain(s, v.key) ==> Project(s.submitted, v.key) == Project(s.sent, v.key) + [v]
  {
    if Chain(s, v.key) {
      SentIsAllButLast(Project(s.sent, v.key), Project(s.submitted, v.key), v);
    }
  }

  lemma SentIsAllButLast(S: seq<Vbuf>, B: seq<Vbuf>, v: Vbuf)
    requires S <= B && |S| + 1 == |B| && B[|B| - 1] == v
    ensures B == S + [v]
  {
  }

  // ---- a reply ----

  /** What is known of a delivered command when the response thread is idle: it is gone, or
      its call is active and it is the youngest of its key. */
  lemma DeliveredIsGoneOrAwaited(s: State, v: Vbuf)
    requires Delivery(s) && s.rx == RxIdle && v in s.delivered
    ensures v in s.core.live ==> Active(s, v) && CallInv(s, v)
  {
    hide SafeState, QueueInv, Lists, OneEach;
    assert v in s.submitted && (v in s.core.live ==> v.isSync);
    assert Chain(s, v.key);
    DeliveredIsSent(s, v);
  }

  /** The heart of the matter: the command a reply is due to is given up, or it is the oldest
      pending one of its key. */
  lemma DueIsFirst(s: State, k: Key)
    requires Delivery(s) && s.rx == RxIdle && CountKey(s.responses, k) < |Project(s.sent, k)|
    ensures var m := Due(s, k);
            && m.key == k && m in s.submitted && m !in s.delivered
            && |Project(s.delivered, k)| == CountKey(s.responses, k)
            && (m in s.core.pending <==> !GivenUp(s, m))
            && (m in s.core.pending ==>
                  var i := FirstWithKey(s.core.pending, k); i < |s.core.pending| && s.core.pending[i] == m)
  {
    hide SafeState, QueueInv, ReadyLives, CallInv, SyncFates, OneEach;
    CountIsProjection(s.responses, s.delivered, k);
    var D, S, B := Project(s.delivered, k), Project(s.sent, k), Project(s.submitted, k);
    assert Chain(s, k);
    var r, m := |D|, Due(s, k);
    assert m == S[r] == B[r];
    ProjectKeyOf(s.sent, k, r);
    ProjectKeyOf(s.submitted, k, r);
    ProjectNoDup(s.submitted, k);
    if m in s.delivered { ProjectMember(s.delivered, m); }
    assert m !in D by { assert forall i :: 0 <= i < r ==> D[i] == B[i]; }
    RemainingMember(s.submitted, s.core.live, m);
    DueGivenUp(s, m);
    if m in s.core.live {
      EarlierGone(s, k, m);
    }
  }

  lemma DueGivenUp(s: State, m: Vbuf)
    requires Delivery(s) && m in s.sent && m in s.submitted && m !in s.delivered
    ensures m in s.core.live <==> !GivenUp(s, m)
  {
    assert !CalledBack(s, m);
  }

  lemma EarlierGone(s: State, k: Key, m: Vbuf)
    requires Delivery(s) && s.rx == RxIdle && m.key == k && m in s.core.live
    requires |Project(s.delivered, k)| < |Project(s.submitted, k)| && m == Project(s.submitted, k)[|Project(s.delivered, k)|]
    ensures var i := FirstWithKey(s.core.pending, k); i < |s.core.pending| && s.core.pending[i] == m
  {
    hide LifeInv, SyncFates, OneEach;
    var D, B := Project(s.delivered, k), Project(s.submitted, k);
    ProjectKeyOf(s.submitted, k, |D|);
    var p :| 0 <= p < |s.submitted| && s.submitted[p] == m;
    ProjectNoDup(s.submitted, k);
    ProjectSplit(s.submitted, p, k);
    assert Chain(s, k);
    var A := Project(s.submitted[..p], k);
    assert B[|A|] == m;
    assert A == B[..|D|] == D;
    forall x | x in s.submitted[..p] && x.key == k
      ensures x !in s.core.live
    {
      ProjectMember(s.submitted[..p], x);
      assert x in D;
      ProjectSound(s.delivered, k, x);
      DeliveredIsGoneOrAwaited(s, x); // were x still there, it would be the last submission
      assert x != B[|B| - 1] by { assert forall i :: 0 <= i < |D| ==> D[i] == B[i]; }
    }
    RemainingFirst(s.submitted, s.core.live, k, p);
  }

  /** A reply in time reaches the command it is due to. */
  lemma ReplyDelivery(s: State, k: Key)
    requires Delivery(s) && Enabled(s, Reply(k)) && Disciplined(s, Reply(k)) && InTime(s, Reply(k))
    ensures var t := Apply(s, Reply(k)); Lists(t) && Calls(t) && SyncFates(t)
  {
    hide QueueInv, OneEach, Chain, CallInv, NoDup, ReadyLives;
    var t, m := Apply(s, Reply(k)), Due(s, k);
    DueIsFirst(s, k);
    MatchKeepsSlab(s.core, k);
    assert t.delivered == s.delivered + [m];
    ReplyCalls(s, t, m);
    assert forall u :: GivenUp(t, u) <==> GivenUp(s, u);
    assert forall u :: CalledBack(t, u) ==> CalledBack(s, u);
  }

  lemma ReplyCalls(s: State, t: State, m: Vbuf)
    requires Calls(s) && t.phase == s.phase && t.submitted == s.submitted && t.sent == s.sent
    requires t.delivered == s.delivered + [m] && t.responses == s.responses + [m.key] && t.core.q.broken == s.core.q.broken
    requires |Project(s.delivered, m.key)| < |Project(s.sent, m.key)| && m == Project(s.sent, m.key)[|Project(s.delivered, m.key)|]
    ensures Calls(t)
  {
    assert forall u :: InFlight(t, u) <==> InFlight(s, u);
    assert forall u :: Active(t, u) <==> Active(s, u);
    forall k
      ensures Chain(t, k)
    {
      ProjectAppend(s.delivered, m, k);
      assert Chain(s, k);
    }
    forall u | Active(t, u)
      ensures CallInv(t, u)
    {
      assert CallInv(s, u);
    }
  }

  // ---- the callback and the waiters ----

  lemma CallbackDelivery(s: State)
    requires Delivery(s) && Enabled(s, Callback)
    ensures var t := Apply(s, Callback); Lists(t) && Calls(t) && SyncFates(t)
  {
    hide QueueInv, Matched, OneEach, Chain, CallInv, Drain, Lists, Safe;
    var t, m := Apply(s, Callback), s.rx.v;
    DrainsOne(s.core, m);
    FreeLists(s, t, m);
    QuietCalls(s, t);
    assert forall u :: GivenUp(t, u) <==> GivenUp(s, u);
    assert forall u :: CalledBack(t, u) <==> CalledBack(s, u) || u == m;
    assert m in s.submitted;
  }

  lemma DrainsOne(c: Core, m: Vbuf)
    requires Safe(c) && Bufs(c.q.resps) == [m]
    ensures FreesAtMost(c, Drain(c), m) && Drain(c).q.broken == c.q.broken && Drain(c).ready == c.ready
    ensures c.completed <= Drain(c).completed && (m.isSync && m in c.pending ==> m in Drain(c).completed)
  {
    var c1 := c.(q := c.q.Unattach(RespList).0);
    assert c.q.resps[0].buf == Bufs(c.q.resps)[0] == m;
    IsPendingSafe(c1, m);
    CompleteOneQueue(c1, m);
    assert Drain(c) == Drain(CompleteOne(c1, m)) == CompleteOne(c1, m);
  }

  lemma ReclaimDelivery(s: State, v: Vbuf)
    requires Delivery(s) && Enabled(s, Reclaim(v))
    ensures var t := Apply(s, Reclaim(v)); Lists(t) && Calls(t) && SyncFates(t)
  {
    hide QueueInv, ReadyLives, Matched, OneEach, Chain, CallInv, NoDup, Lists;
    var t := Apply(s, Reclaim(v));
    IsPendingSafe(s.core, v);
    assert FreesAtMost(s.core, t.core, v);
    assert Awaits(s, v) && v in s.submitted;
    FreeLists(s, t, v);
    QuietCalls(s, t);
    assert v !in t.core.live;
    assert forall u :: GivenUp(t, u) <==> GivenUp(s, u) || u == v;
    assert forall u :: CalledBack(t, u) <==> CalledBack(s, u);
  }

  lemma WakeDelivery(s: State, v: Vbuf, timedOut: bool)
    requires Delivery(s) && Enabled(s, Wake(v, timedOut))
    ensures var t := Apply(s, Wake(v, timedOut)); Lists(t) && Calls(t) && SyncFates(t)
  {
    hide SafeState, QueueInv, ReadyLives, SubmittedOwned, Matched, OneEach, Chain, CallInv;
    var t := Apply(s, Wake(v, timedOut));
    assert Awaits(s, v);
    QuietCalls(s, t);
    assert forall u :: GivenUp(t, u) <==> GivenUp(s, u);
    assert forall u :: CalledBack(t, u) <==> CalledBack(s, u);
  }

  lemma RecvFailedDelivery(s: State)
    requires Delivery(s) && Enabled(s, RecvFailed)
    ensures var t := Apply(s, RecvFailed); Lists(t) && Calls(t) && SyncFates(t)
  {
    hide SafeState, QueueInv, ReadyLives, SubmittedOwned, Matched, OneEach, Chain, CallInv;
    var t := Apply(s, RecvFailed);
    QuietCalls(s, t);
    assert forall u :: GivenUp(t, u) <==> GivenUp(s, u);
    assert forall u :: CalledBack(t, u) <==> CalledBack(s, u);
  }

  lemma StaysReady(s: State, a: Action)
    requires s.core.ready && Enabled(s, a) && Disciplined(s, a)
    ensures Apply(s, a).core.ready
  {
    hide Drain;
    DrainQueue(s.core);
  }

  lemma StepDelivery(s: State, a: Action)
    requires Delivery(s) && Enabled(s, a) && Disciplined(s, a) && InTime(s, a)
    ensures Delivery(Apply(s, a))
  {
    hide LifeInv, Lists, Matched, OneEach, Chain, CallInv, SyncFates, Apply;
    StepLifeInv(s, a);
    StaysReady(s, a);
    match a
    case Begin(v) => BeginDelivery(s, v);
    case SubmitLocked(v, b) => SubmitDelivery(s, v, b);
    case Send(v, ok) => SendDelivery(s, v, ok);
    case Wake(v, timedOut) => WakeDelivery(s, v, timedOut);
    case Reclaim(v) => ReclaimDelivery(s, v);
    case Reply(k) => ReplyDelivery(s, k);
    case RecvFailed => RecvFailedDelivery(s);
    case Callback => CallbackDelivery(s);
  }
}

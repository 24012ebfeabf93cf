/** What a call reports to its caller, and when the response thread ends: told from the history
    of the run, over every run and with no assumption on the host or on the order of calls. */
module CommandResults {
  import opened Sequences
  import opened HabVirtqueue
  import opened CommandQueue
  import opened CommandSafety

  // ---- where a call can go ----

  /** The ways one step can move the call of v. */
  ghost predicate CallMoves(s: State, t: State, a: Action, v: Vbuf) {
    if v !in s.phase then v in t.phase ==> a.Begin? && (t.phase[v] == Called || t.phase[v] == Returned(false))
    else
      && v in t.phase
      && (t.phase[v] == s.phase[v] ||
          match s.phase[v]
          case Called => t.phase[v] == Returned(false) || t.phase[v].Sending?
          case Sending(_, _) => a.Send? && a.v == v && if t.sent == s.sent then t.phase[v] == Returned(false) else t.phase[v] == if v.isSync then Waiting else Returned(true)
          case Waiting => t.phase[v].Reclaiming? && a == Wake(v, t.phase[v].timedOut)
          case Reclaiming(timedOut) => t.phase[v] == Returned(!timedOut)
          case Returned(_) => false)
  }

  /** A command is sent only by its own call, from kick. */
  ghost predicate SendsOwn(s: State, t: State, a: Action) {
    || t.sent == s.sent
    || (a.Send? && a.v in s.phase && s.phase[a.v].Sending? && t.sent == s.sent + [a.v] && a.v in t.phase && t.phase[a.v] != s.phase[a.v])
  }

  lemma SendMoves(s: State, u: Vbuf, ok: bool, v: Vbuf)
    requires QueueInv(s) && Enabled(s, Send(u, ok))
    ensures CallMoves(s, Apply(s, Send(u, ok)), Send(u, ok), v) && SendsOwn(s, Apply(s, Send(u, ok)), Send(u, ok))
  {
    assert s.phase[u] == Sending(u, true);
    assert |s.sent + [u]| != |s.sent|;
  }

  lemma StepMoves(s: State, a: Action, v: Vbuf)
    requires QueueInv(s) && Enabled(s, a)
    ensures CallMoves(s, Apply(s, a), a, v) && SendsOwn(s, Apply(s, a), a)
    ensures a.Wake? && v == a.v ==> v in s.phase && s.phase[v] == Waiting && Apply(s, a).phase[v] == Reclaiming(a.timedOut)
  {
    hide Drain, Submit, Match, ReclaimIfPending, TeardownOne;
    match a
    case SubmitLocked(u, b) => KickSendsWhatWasAdded(s, u, b);
    case Send(u, ok) => SendMoves(s, u, ok, v);
    case _ =>
  }

  // ---- what the histories record ----

  ghost predicate Recorded(s: State) {
    && (forall v :: v in Bufs(s.core.q.resps) ==> v in s.delivered)
    && (forall v :: v in s.core.completed ==> v in s.delivered)
    && (forall v :: v in s.phase && s.phase[v] == Reclaiming(false) ==> v in s.core.completed)
  }

  /** The result of a call so far. */
  ghost predicate Reported(s: State) {
    forall v :: ReportedAt(s, v)
  }

  predicate PastSend(p: Phase) {
    p.Waiting? || p.Reclaiming? || p.Returned?
  }

  ghost predicate ReportedAt(s: State, v: Vbuf) {
    && (v in s.phase && s.phase[v] == Returned(true) ==> v in s.sent && (v.isSync ==> v in s.core.completed))
    && (v in s.sent ==> v in s.phase && if v.isSync then PastSend(s.phase[v]) else s.phase[v] == Returned(true))
    && (v in s.phase && (s.phase[v].Waiting? || s.phase[v].Reclaiming?) ==> v.isSync && v in s.sent)
  }

  lemma {:induction false} DrainRecords(c: Core)
    ensures c.completed <= Drain(c).completed
    ensures forall v :: v in Drain(c).completed ==> v in c.completed || v in Bufs(c.q.resps)
    decreases |c.q.resps|
  {
    if c.q.resps != [] {
      hide CompleteOne;
      var (q1, v) := c.q.Unattach(RespList);
      UnattachConserves(c.q, RespList);
      var c1 := c.(q := q1);
      CompleteOneQueue(c1, v.value);
      CompleteOneRecords(c1, v.value);
      DrainRecords(CompleteOne(c1, v.value));
    }
  }

  lemma CompleteOneRecords(c: Core, v: Vbuf)
    ensures c.completed <= CompleteOne(c, v).completed <= c.completed + {v}
  {
  }

  /** What a step may add to the response list and to the completed commands. */
  ghost predicate RecordsGrow(s: State, t: State) {
    && (forall v :: v in s.delivered ==> v in t.delivered)
    && (forall v :: v in Bufs(t.core.q.resps) ==> v in Bufs(s.core.q.resps) || v in t.delivered)
    && s.core.completed <= t.core.completed
    && (forall v :: v in t.core.completed ==> v in s.core.completed || v in Bufs(s.core.q.resps))
  }

  lemma StepRecords(s: State, a: Action)
    requires Enabled(s, a)
    ensures RecordsGrow(s, Apply(s, a))
  {
    hide Drain, Submit, Match, ReclaimIfPending, TeardownOne;
    match a
    case SubmitLocked(v, b) => SubmitRecords(s.core, v, b);
    case Callback =>
      DrainRecords(s.core);
      DrainQueue(s.core);
    case Reply(k) => MatchRecords(s.core, k);
    case Reclaim(v) => ReclaimRecords(s.core, v);
    case Teardown => TeardownRecords(s.core);
    case _ =>
  }

  lemma SubmitRecords(c: Core, v: Vbuf, b: bool)
    ensures Submit(c, v, b).0.completed == c.completed && Submit(c, v, b).0.q.resps == c.q.resps
  {
  }

  lemma MatchRecords(c: Core, k: Key)
    ensures var (d, v) := Match(c, k);
            && d.completed == c.completed
            && forall u :: u in Bufs(d.q.resps) ==> u in Bufs(c.q.resps) || v == Some(u)
  {
    var i := FirstWithKey(c.pending, k);
    if i < |c.pending| { AttachConserves(c.q, RespList, c.pending[i]); }
  }

  lemma ReclaimRecords(c: Core, v: Vbuf)
    ensures ReclaimIfPending(c, v).completed == c.completed && ReclaimIfPending(c, v).q == c.q
  {
  }

  lemma TeardownRecords(c: Core)
    ensures TeardownOne(c).completed == c.completed
    ensures forall u :: u in Bufs(TeardownOne(c).q.resps) ==> u in Bufs(c.q.resps)
  {
    hide ReclaimIfPending;
    var (q1, v) := c.q.Detach();
    if v != None {
      ReclaimRecords(c.(q := q1), v.value);
      UnattachConserves(c.q, RespList);
    }
  }

  lemma StepRecorded(s: State, a: Action)
    requires QueueInv(s) && Recorded(s) && Reported(s) && Enabled(s, a)
    ensures Recorded(Apply(s, a)) && Reported(Apply(s, a))
  {
    var t := Apply(s, a);
    StepRecords(s, a);
    forall v
      ensures CallMoves(s, t, a, v) && SendsOwn(s, t, a)
    {
      StepMoves(s, a, v);
    }
    assert forall v: Vbuf :: a == Wake(v, false) ==> v in s.core.completed;
    StepRecordedFrom(s, t, a);
  }

  lemma StepRecordedFrom(s: State, t: State, a: Action)
    requires Recorded(s) && Reported(s) && RecordsGrow(s, t) && SendsOwn(s, t, a)
    requires forall v :: CallMoves(s, t, a, v)
    requires forall v: Vbuf :: a == Wake(v, false) ==> v in s.core.completed
    ensures Recorded(t) && Reported(t)
  {
    forall v
      ensures ReportedAt(t, v) && (v in t.phase && t.phase[v] == Reclaiming(false) ==> v in t.core.completed)
    {
      assert CallMoves(s, t, a, v) && ReportedAt(s, v);
      ReportedAtStays(s, t, a, v);
    }
    assert forall v :: v in t.core.completed ==> v in t.delivered;
  }

  lemma ReportedAtStays(s: State, t: State, a: Action, v: Vbuf)
    requires ReportedAt(s, v) && CallMoves(s, t, a, v) && SendsOwn(s, t, a) && s.core.completed <= t.core.completed
    requires v in s.phase && s.phase[v] == Reclaiming(false) ==> v in s.core.completed
    ensures ReportedAt(t, v)
  {
  }

  lemma {:induction false} RecordedHolds(s: State, run: seq<Action>, t: State)
    requires QueueInv(s) && Recorded(s) && Reported(s) && Reaches(s, run, t)
    ensures QueueInv(t) && Recorded(t) && Reported(t)
    decreases |run|
  {
    hide QueueInv, Recorded, Reported, Apply, Enabled;
    if run != [] {
      StepQueueInv(s, run[0]);
      StepRecorded(s, run[0]);
      RecordedHolds(Apply(s, run[0]), run[1..], t);
    }
  }

  lemma StartsRecorded()
    ensures QueueInv(Init()) && Recorded(Init()) && Reported(Init())
  {
  }

  // ---- what a call reports ----

  /** Success means that the command was sent; and, for a synchronous call, that a reply was
      matched to it and its completion was signalled. */
  lemma SuccessMeansAnswered(run: seq<Action>, t: State, v: Vbuf)
    requires Reaches(Init(), run, t) && v in t.phase && t.phase[v] == Returned(true)
    ensures v in t.sent
    ensures v.isSync ==> v in t.core.completed && v in t.delivered
  {
    StartsRecorded();
    RecordedHolds(Init(), run, t);
    assert ReportedAt(t, v);
  }

  /** How the rest of a run decides a synchronous call whose command gets sent. */
  lemma {:induction false} WakeDecides(s: State, run: seq<Action>, t: State, v: Vbuf)
    requires QueueInv(s) && Recorded(s) && Reported(s) && Reaches(s, run, t)
    requires v.isSync && v in t.sent && v in t.phase && t.phase[v].Returned?
    ensures v in s.phase && s.phase[v].Returned? ==> t.phase[v] == s.phase[v] && Wake(v, true) !in run && Wake(v, false) !in run
    ensures v in s.phase && s.phase[v].Reclaiming? ==> t.phase[v].ok != s.phase[v].timedOut && Wake(v, true) !in run && Wake(v, false) !in run
    ensures !(v in s.phase && (s.phase[v].Returned? || s.phase[v].Reclaiming?)) ==>
              (Wake(v, true) in run <==> !t.phase[v].ok) && (Wake(v, false) in run <==> t.phase[v].ok)
    decreases |run|
  {
    hide QueueInv, Recorded, Reported, Apply, Enabled;
    if run == [] {
      SentHasBeenWoken(s, v);
    } else {
      var s1 := Apply(s, run[0]);
      StepMoves(s, run[0], v);
      StepQueueInv(s, run[0]);
      StepRecorded(s, run[0]);
      WakeDecides(s1, run[1..], t, v);
      assert forall b :: Wake(v, b) in run <==> run[0] == Wake(v, b) || Wake(v, b) in run[1..];
      if v in s1.phase && s1.phase[v].Returned? && v !in s1.sent { UnsentStays(s1, run[1..], t, v); }
      SentHasBeenWoken(s, v);
    }
  }

  lemma SentHasBeenWoken(s: State, v: Vbuf)
    requires Reported(s)
    ensures v in s.sent ==> v in s.phase && (v.isSync ==> PastSend(s.phase[v]))
  {
    assert ReportedAt(s, v);
  }

  /** A synchronous call whose command was sent reports failure exactly if its waiter timed out,
      and success exactly if it was woken by the completion; one whose command was not sent
      reports failure. */
  lemma SyncCallExact(run: seq<Action>, t: State, v: Vbuf)
    requires Reaches(Init(), run, t) && v.isSync && v in t.phase && t.phase[v].Returned?
    ensures v in t.sent ==> (t.phase[v] == Returned(false) <==> Wake(v, true) in run) && (t.phase[v] == Returned(true) <==> Wake(v, false) in run)
    ensures v !in t.sent ==> t.phase[v] == Returned(false)
  {
    StartsRecorded();
    RecordedHolds(Init(), run, t);
    assert ReportedAt(t, v);
    if v in t.sent { WakeDecides(Init(), run, t, v); }
  }

  /** An asynchronous call reports success exactly if its command was sent. */
  lemma AsyncCallExact(run: seq<Action>, t: State, v: Vbuf)
    requires Reaches(Init(), run, t) && !v.isSync && v in t.phase && t.phase[v].Returned?
    ensures t.phase[v] == Returned(true) <==> v in t.sent
  {
    StartsRecorded();
    RecordedHolds(Init(), run, t);
    assert ReportedAt(t, v);
  }

  /** A call that has returned sends nothing any more. */
  lemma {:induction false} UnsentStays(s: State, run: seq<Action>, t: State, v: Vbuf)
    requires QueueInv(s) && Reaches(s, run, t) && v in s.phase && s.phase[v].Returned? && v !in s.sent
    ensures v !in t.sent
    decreases |run|
  {
    hide QueueInv, Apply, Enabled;
    if run != [] {
      StepMoves(s, run[0], v);
      StepQueueInv(s, run[0]);
      UnsentStays(Apply(s, run[0]), run[1..], t, v);
    }
  }

  // ---- the response thread ----

  /** A reply takes the oldest pending command with its key; when there is none, the queue is
      broken and the thread is gone. */
  lemma ReplyTakesOldest(s: State, k: Key)
    requires Enabled(s, Reply(k))
    ensures var t := Apply(s, Reply(k));
            && t.responses == s.responses + [k] && t.core.pending == s.core.pending
            && (forall i :: 0 <= i < |s.core.pending| && s.core.pending[i].key == k && (forall j :: 0 <= j < i ==> s.core.pending[j].key != k) ==>
                  t.delivered == s.delivered + [s.core.pending[i]] && t.rx == RxCallback(s.core.pending[i]) && t.core.q.broken == s.core.q.broken)
            && ((forall v :: v in s.core.pending ==> v.key != k) ==>
                  t.delivered == s.delivered && t.rx == RxExited && t.core.q.broken)
  {
    var i := FirstWithKey(s.core.pending, k);
    if i < |s.core.pending| { assert s.core.pending[i] in s.core.pending; }
  }

  ghost predicate Receiving(s: State, failed: bool) {
    && (s.rx.RxExited? <==> failed || |s.delivered| < |s.responses|)
    && |s.delivered| <= |s.responses| && (s.rx.RxExited? ==> s.core.q.broken)
  }

  lemma StepReceiving(s: State, a: Action, failed: bool)
    requires QueueInv(s) && Receiving(s, failed) && Enabled(s, a)
    ensures Receiving(Apply(s, a), failed || a.RecvFailed?)
  {
    hide QueueInv, Apply;
    StepQueueInv(s, a);
    match a
    case Reply(k) => ReplyReceives(s, k);
    case _ => SameReceiver(s, a);
  }

  lemma ReplyReceives(s: State, k: Key)
    requires Enabled(s, Reply(k))
    ensures var t := Apply(s, Reply(k));
            && |t.responses| == |s.responses| + 1
            && (if t.rx.RxExited? then |t.delivered| == |s.delivered| && t.core.q.broken else |t.delivered| == |s.delivered| + 1)
  {
    hide Apply;
    ReplyTakesOldest(s, k);
    var i := FirstWithKey(s.core.pending, k);
    if i < |s.core.pending| {
      assert s.core.pending[i].key == k;
    }
  }

  lemma SameReceiver(s: State, a: Action)
    requires Enabled(s, a) && !a.Reply?
    ensures Apply(s, a).delivered == s.delivered && Apply(s, a).responses == s.responses
    ensures Apply(s, a).rx == if a.RecvFailed? then RxExited else if a.Callback? then RxIdle else s.rx
    ensures a.RecvFailed? ==> Apply(s, a).core.q.broken
  {
    hide Drain, Submit, ReclaimIfPending, TeardownOne;
  }

  lemma {:induction false} ReceivingHolds(s: State, run: seq<Action>, t: State, failed: bool)
    requires QueueInv(s) && Receiving(s, failed) && Reaches(s, run, t)
    ensures Receiving(t, failed || RecvFailed in run)
    decreases |run|
  {
    hide QueueInv, Receiving, Apply, Enabled;
    if run != [] {
      StepQueueInv(s, run[0]);
      StepReceiving(s, run[0], failed);
      ReceivingHolds(Apply(s, run[0]), run[1..], t, failed || run[0].RecvFailed?);
      assert RecvFailed in run <==> run[0] == RecvFailed || RecvFailed in run[1..];
    }
  }

  /** The response thread ends exactly when receiving fails or a reply matches no command, and
      it leaves the queue broken. */
  lemma ReceiverEndsExact(run: seq<Action>, t: State)
    requires Reaches(Init(), run, t)
    ensures t.rx.RxExited? <==> RecvFailed in run || |t.delivered| < |t.responses|
    ensures t.rx.RxExited? ==> t.core.q.broken
  {
    StartsRecorded();
    ReceivingHolds(Init(), run, t, false);
  }

  // ---- once the device is not ready ----

  lemma StepReady(s: State, a: Action)
    requires Enabled(s, a)
    ensures Apply(s, a).core.ready <==> s.core.ready && !a.Unready?
    ensures !s.core.ready && Apply(s, a).core.freed != s.core.freed ==> a.Reclaim? || a.Teardown?
    ensures a.Begin? ==> (Apply(s, a).phase[a.v] == Called <==> s.core.ready) && a.v in Apply(s, a).core.live
    ensures a.Begin? && !s.core.ready ==> Apply(s, a).phase[a.v] == Returned(false)
  {
    hide Drain;
    DrainQueue(s.core);
  }

  lemma {:induction false} ReadyHolds(s: State, run: seq<Action>, t: State)
    requires Reaches(s, run, t)
    ensures t.core.ready <==> s.core.ready && Unready !in run
    decreases |run|
  {
    hide Apply, Enabled;
    if run != [] {
      StepReady(s, run[0]);
      ReadyHolds(Apply(s, run[0]), run[1..], t);
      assert Unready in run <==> run[0] == Unready || Unready in run[1..];
    }
  }

  /** Removal: once the device has been made not ready, every call that begins is refused, and
      nothing but a waiter that reclaims its command, or the teardown, frees one. */
  lemma UnreadyExact(run: seq<Action>, s: State, a: Action)
    requires Reaches(Init(), run, s) && Enabled(s, a)
    ensures a.Begin? ==> Apply(s, a).phase[a.v] == if Unready in run then Returned(false) else Called
    ensures Unready in run && Apply(s, a).core.freed != s.core.freed ==> a.Reclaim? || a.Teardown?
    ensures a.Teardown? ==> Unready in run
  {
    ReadyHolds(Init(), run, s);
    StepReady(s, a);
  }
}

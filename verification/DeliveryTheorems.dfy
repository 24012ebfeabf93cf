/** Command delivery refines one FIFO per (stream_id, type). When submissions of one key do not
    overlap and the host answers every sent command once and in order, the i-th reply for a key
    reaches the i-th command sent with that key, for all i, if and only if no reply comes for
    a command that its waiter has given up. */
module DeliveryTheorems {
  import opened Sequences
  import opened HabVirtqueue
  import opened CommandQueue
  import opened CommandSafety
  import opened CommandLifetimes
  import opened KeyedLists
  import opened CommandDelivery
  import opened DeliveryRuns

  /** Delivery in order, exactly. On disciplined runs every reply reaches the command it
      answers if and only if each comes before its command is given up; and then the
      commands reached by the replies for one key are a prefix of those sent with it. */
  lemma FifoPerKey(run: seq<Action>, t: State)
    requires DisciplinedRun(Init(), run, t)
    ensures InOrder(t) <==> Timely(Init(), run)
    ensures InOrder(t) ==> forall k :: Project(t.delivered, k) <= Project(t.sent, k)
  {
    InitDelivery();
    InOrderExact(Init(), run, t);
    if InOrder(t) {
      DeliveryHolds(Init(), run, t);
      assert forall k :: Chain(t, k) ==> Project(t.delivered, k) <= Project(t.sent, k);
    }
  }

  /** When the response thread is idle every delivered async command has been freed, and
      every delivered sync command has been completed. */
  lemma DeliveredIsFinished(run: seq<Action>, t: State, v: Vbuf)
    requires DisciplinedRun(Init(), run, t) && Timely(Init(), run) && t.rx == RxIdle && v in t.delivered
    ensures v in t.core.freed || (v.isSync && v in t.core.completed && v in t.core.pending)
  {
    InitDelivery();
    DeliveryHolds(Init(), run, t);
    assert CalledBack(t, v) && v in t.submitted;
  }

  /** Under the discipline the send never reads a freed buffer either. */
  lemma SendsReadLiveBuffers(run: seq<Action>, t: State, v: Vbuf)
    requires DisciplinedRun(Init(), run, t) && Timely(Init(), run) && InFlight(t, v)
    ensures t.phase[v] == Sending(v, true) && v in t.core.pending && v in t.core.live
  {
    InitDelivery();
    DeliveryHolds(Init(), run, t);
    InFlightLives(t, v);
  }

  /** When no waiter times out, every reply reaches the command it answers. */
  lemma WithoutTimeoutsInOrder(run: seq<Action>, t: State)
    requires DisciplinedRun(Init(), run, t)
    requires forall i :: 0 <= i < |run| && run[i].Wake? ==> !run[i].timedOut
    ensures InOrder(t)
  {
    InitDelivery();
    PromptIsTimely(Init(), run, t);
    FifoPerKey(run, t);
  }

  /** Late replies happen: nothing overlaps and the host answers every sent command once and in
      order, yet the first reply reaches the second command. */
  lemma LateReplyMisdelivers()
    ensures exists run, t :: Reaches(Init(), run, t) && |t.sent| == 2 && |t.responses| == 1 && t.delivered == [t.sent[1]]
                             && t.sent[0].key == t.sent[1].key && t.sent[0] != t.sent[1]
  {
    hide Reaches;
    var k := Key(1, 2);
    var a, b := Vbuf(0, k, true), Vbuf(1, k, true);
    var run1, s1 := AloneReachable(a);
    var run2, s2 := TimesOut(s1, a);
    ReachesConcat(Init(), run1, s1, run2, s2);
    var run3, t := NextAnswered(s2, a, b);
    ReachesConcat(Init(), run1 + run2, s2, run3, t);
  }
}

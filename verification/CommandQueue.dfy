/** The command protocol of driver/virtio_video_vq.c over the emulated virtqueue: every
    critical section under commandq.qlock is one step of a state machine shared by any
    number of submitters, the response thread, timed-out waiters and teardown. */
module CommandQueue {
  import opened Sequences
  import opened HabVirtqueue

  /** What a reply is matched by. */
  datatype Key = Key(streamId: int, cmdType: int)

  /** A command buffer. Its header and is_sync are written before it is submitted and never
      after, so they are part of its identity; identities are never recycled. */
  datatype Vbuf = Vbuf(id: nat, key: Key, isSync: bool)

  /** The memory the critical sections read and write. `live` is the slab, `freed` the
      history of kmem_cache_free calls, and `fault` records any access to a buffer that is
      not allocated. */
  datatype Core = Core(
    live: set<Vbuf>, pending: seq<Vbuf>, freed: seq<Vbuf>, completed: set<Vbuf>,
    q: Hvq<Vbuf>, ready: bool, fault: bool)
  {
    function Deref(vs: seq<Vbuf>): Core {
      this.(fault := fault || exists v :: v in vs && v !in live)
    }
  }

  /** free_vbuf: list_del touches the neighbours too. */
  function FreeVbuf(c: Core, v: Vbuf): Core {
    c.Deref(c.pending + [v]).(live := c.live - {v}, pending := Without(c.pending, v), freed := c.freed + [v])
  }

  /** The entries a list search visits when it stops at index i. */
  function Visited(l: seq<Vbuf>, i: nat): seq<Vbuf> {
    if i < |l| then l[..i + 1] else l
  }

  /** vbuf_is_pending */
  function IsPending(c: Core, v: Vbuf): (Core, bool) {
    (c.Deref(Visited(c.pending, IndexOf(c.pending, v))), v in c.pending)
  }

  function FirstWithKey(l: seq<Vbuf>, k: Key): (i: nat)
    ensures i <= |l|
    ensures forall j :: 0 <= j < i ==> l[j].key != k
    ensures i < |l| ==> l[i].key == k
  {
    if l == [] || l[0].key == k then 0 else 1 + FirstWithKey(l[1..], k)
  }

  /** The part of virtio_video_queue_cmd_buffer between taking qlock and either failing or
      dropping it in kick. Both reads of `broken` are unlocked, so another thread may set
      it between them. Returns the buffer that kick took off the vbuf list. */
  function Submit(c: Core, v: Vbuf, breakBetween: bool): (Core, Option<Vbuf>) {
    var c1 := c.Deref(c.pending + [v]).(pending := c.pending + [v]);
    var q1 := c.q.AddSgs(v);
    var q2 := q1.(broken := q1.broken || breakBetween);
    if q2.broken then (c1.(q := q2), None)
    else
      var (q3, u) := q2.Unattach(VbufList);
      (c1.(q := q3), u)
  }

  /** The locked part of process_msm_hab_cmd_resp: the oldest pending command with the
      reply's key gets the response and is put on the response list. */
  function Match(c: Core, k: Key): (Core, Option<Vbuf>) {
    var i := FirstWithKey(c.pending, k);
    var c1 := c.Deref(Visited(c.pending, i));
    if i < |c.pending| then
      (c1.(q := c.q.Attach(RespList, c.pending[i])), Some(c.pending[i]))
    else (c1, None)
  }

  /** One turn of the inner loop of virtio_video_cmd_cb for the buffer v just dequeued. */
  function CompleteOne(c: Core, v: Vbuf): Core {
    var (c1, found) := IsPending(c, v);
    if !found then c1
    else if v.isSync then c1.Deref([v]).(completed := c.completed + {v})
    else FreeVbuf(c1.Deref([v]), v)
  }

  function Drain(c: Core): Core
    decreases |c.q.resps|
  {
    if c.q.resps == [] then c
    else
      var (q1, v) := c.q.Unattach(RespList);
      Drain(CompleteOne(c.(q := q1), v.value))
  }

  /** virtio_video_cmd_cb: enable_cb is constantly true here, so the outer loop runs at most once. */
  function CmdCb(c: Core): Core {
    if c.ready then Drain(c) else c
  }

  /** The tail of virtio_video_queue_cmd_buffer_sync, and the teardown loop's body. */
  function ReclaimIfPending(c: Core, v: Vbuf): Core {
    var (c1, found) := IsPending(c, v);
    if found then FreeVbuf(c1, v) else c1
  }

  function TeardownOne(c: Core): Core {
    var (q1, v) := c.q.Detach();
    if v == None then c.(q := q1) else ReclaimIfPending(c.(q := q1), v.value)
  }

  /** Where the thread that submitted a command is. */
  datatype Phase =
    | Called                               // allocated, passed the `ready` test
    | Sending(what: Vbuf, addOk: bool)     // inside kick with the lock dropped
    | Waiting                              // in wait_for_completion_timeout
    | Reclaiming(timedOut: bool)           // woken, about to take the lock
    | Returned(ok: bool)

  datatype Rx = RxIdle | RxCallback(v: Vbuf) | RxExited

  /** The whole system. The last four sequences are history: submissions in list order,
      successful sends, replies received and the commands they were matched with. */
  datatype State = State(
    core: Core, phase: map<Vbuf, Phase>, rx: Rx, sendFault: bool,
    submitted: seq<Vbuf>, sent: seq<Vbuf>, responses: seq<Key>, delivered: seq<Vbuf>)

  function Init(): State {
    State(Core({}, [], [], {}, Empty(DEFAULT_VQ_NUM), true, false), map[], RxIdle, false, [], [], [], [])
  }

  datatype Action =
    | Begin(v: Vbuf)
    | SubmitLocked(v: Vbuf, breakBetween: bool)
    | Send(v: Vbuf, ok: bool)
    | Wake(v: Vbuf, timedOut: bool)
    | Reclaim(v: Vbuf)
    | Reply(key: Key)
    | RecvFailed
    | Callback
    | Unready
    | Teardown

  predicate Enabled(s: State, a: Action) {
    match a
    case Begin(v) => v !in s.phase
    case SubmitLocked(v, _) => v in s.phase && s.phase[v] == Called
    case Send(v, _) => v in s.phase && s.phase[v].Sending?
    case Wake(v, timedOut) => v in s.phase && s.phase[v] == Waiting && (timedOut || v in s.core.completed)
    case Reclaim(v) => v in s.phase && s.phase[v].Reclaiming?
    case Reply(_) => s.rx == RxIdle
    case RecvFailed => s.rx == RxIdle
    case Callback => s.rx.RxCallback?
    case Unready => true
    case Teardown => !s.core.ready
  }

  function AfterSend(v: Vbuf, ok: bool): Phase {
    if !ok then Returned(false) else if v.isSync then Waiting else Returned(true)
  }

  function Apply(s: State, a: Action): State
    requires Enabled(s, a)
  {
    match a
    case Begin(v) =>
      s.(core := s.core.(live := s.core.live + {v}),
         phase := s.phase[v := if s.core.ready then Called else Returned(false)])
    case SubmitLocked(v, breakBetween) =>
      var (c, u) := Submit(s.core, v, breakBetween);
      s.(core := c, submitted := s.submitted + [v],
         phase := s.phase[v := if u == None then Returned(false) else Sending(u.value, s.core.q.AddOk())])
    case Send(v, ok) =>
      var u := s.phase[v].what;
      s.(sendFault := s.sendFault || u !in s.core.live,
         sent := if ok then s.sent + [u] else s.sent,
         core := if ok then s.core else s.core.(q := s.core.q.(broken := true)),
         phase := s.phase[v := AfterSend(v, ok && s.phase[v].addOk)])
    case Wake(v, timedOut) => s.(phase := s.phase[v := Reclaiming(timedOut)])
    case Reclaim(v) =>
      s.(core := ReclaimIfPending(s.core, v), phase := s.phase[v := Returned(!s.phase[v].timedOut)])
    case Reply(k) =>
      var (c, v) := Match(s.core, k);
      if v == None then
        s.(core := c.(q := c.q.(broken := true)), rx := RxExited, responses := s.responses + [k])
      else
        s.(core := c, rx := RxCallback(v.value), responses := s.responses + [k],
           delivered := s.delivered + [v.value])
    case RecvFailed => s.(core := s.core.(q := s.core.q.(broken := true)), rx := RxExited)
    case Callback => s.(core := CmdCb(s.core), rx := RxIdle)
    case Unready => s.(core := s.core.(ready := false))
    case Teardown => s.(core := TeardownOne(s.core))
  }

  ghost predicate Reaches(s: State, run: seq<Action>, t: State)
    decreases |run|
  {
    if run == [] then s == t
    else Enabled(s, run[0]) && Reaches(Apply(s, run[0]), run[1..], t)
  }
}

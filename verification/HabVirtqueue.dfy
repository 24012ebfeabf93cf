/** The emulated virtqueue of driver/virtio_video_msm_hab.c: a fixed pool of nodes that
    move between an unused list, a list of buffers offered to the host and a list of
    buffers the host has answered. */
module HabVirtqueue {
  import opened Sequences

  const DEFAULT_VQ_NUM: nat := 512

  datatype Node<+B> = Node(id: nat, buf: B)

  datatype Which = VbufList | RespList

  datatype Hvq<+B> = Hvq(unused: seq<nat>, vbufs: seq<Node<B>>, resps: seq<Node<B>>, broken: bool) {
    function On(w: Which): seq<Node<B>> {
      if w == VbufList then vbufs else resps
    }

    function With(w: Which, ns: seq<Node<B>>): Hvq<B> {
      if w == VbufList then this.(vbufs := ns) else this.(resps := ns)
    }

    /** Every node of the pool, wherever it is. */
    function Nodes(): multiset<nat> {
      multiset(unused) + multiset(Ids(vbufs)) + multiset(Ids(resps))
    }

    /** attach_buf_to_vq_buf: no unused node, no change. */
    function Attach(w: Which, b: B): Hvq<B> {
      if unused == [] then this
      else this.(unused := unused[1..]).With(w, On(w) + [Node(unused[0], b)])
    }

    /** unattach_buf_from_vq_buf: the node goes back to the tail of the unused list. */
    function Unattach(w: Which): (Hvq<B>, Option<B>) {
      var l := On(w);
      if l == [] then (this, None)
      else (this.(unused := unused + [l[0].id]).With(w, l[1..]), Some(l[0].buf))
    }

    /** msm_hab_virtqueue_add_sgs when nothing interleaves between its two sections. */
    function AddSgs(b: B): Hvq<B> {
      if broken then this else Attach(VbufList, b)
    }

    predicate AddOk() {
      !broken && unused != []
    }

    /** msm_hab_virtqueue_detach_unused_buf: vbuf list first, then resp list; when both
        are empty the node pool is freed. */
    function Detach(): (Hvq<B>, Option<B>) {
      if vbufs != [] then Unattach(VbufList)
      else if resps != [] then Unattach(RespList)
      else (this.(unused := []), None)
    }
  }

  function Ids<B>(l: seq<Node<B>>): seq<nat> {
    seq(|l|, i requires 0 <= i < |l| => l[i].id)
  }

  function Bufs<B>(l: seq<Node<B>>): seq<B> {
    seq(|l|, i requires 0 <= i < |l| => l[i].buf)
  }

  function Empty<B>(n: nat): Hvq<B> {
    Hvq(seq(n, i => i), [], [], false)
  }

  lemma IdsAppend<B>(l: seq<Node<B>>, n: Node<B>)
    ensures Ids(l + [n]) == Ids(l) + [n.id]
    ensures Bufs(l + [n]) == Bufs(l) + [n.buf]
  {
  }

  lemma IdsTail<B>(l: seq<Node<B>>)
    requires l != []
    ensures Ids(l) == [l[0].id] + Ids(l[1..])
    ensures Bufs(l) == [l[0].buf] + Bufs(l[1..])
  {
  }

  /** Nodes are neither lost nor duplicated by moving a buffer onto a list. */
  lemma AttachConserves<B>(q: Hvq<B>, w: Which, b: B)
    ensures q.Attach(w, b).Nodes() == q.Nodes()
    ensures q.unused != [] ==> Bufs(q.Attach(w, b).On(w)) == Bufs(q.On(w)) + [b]
  {
    if q.unused != [] {
      IdsAppend(q.On(w), Node(q.unused[0], b));
      assert q.unused == [q.unused[0]] + q.unused[1..];
    }
  }

  /** ... nor by taking one off, which hands out the oldest buffer of the list. */
  lemma UnattachConserves<B>(q: Hvq<B>, w: Which)
    ensures q.Unattach(w).0.Nodes() == q.Nodes()
    ensures q.On(w) != [] ==> Bufs(q.On(w)) == [q.Unattach(w).1.value] + Bufs(q.Unattach(w).0.On(w))
  {
    if q.On(w) != [] {
      IdsTail(q.On(w));
    }
  }

  /** A buffer attached to an empty list and taken off again leaves the list empty and the
      pool intact: one node is rotated to the tail. */
  lemma AttachUnattach<B>(q: Hvq<B>, w: Which, b: B)
    requires q.unused != [] && q.On(w) == []
    ensures var r := q.Attach(w, b).Unattach(w);
            && r.1 == Some(b)
            && r.0 == q.(unused := q.unused[1..] + [q.unused[0]])
  {
  }

  /** Tearing down hands out the offered buffers first, oldest first, then the answered ones. */
  lemma DetachConserves<B>(q: Hvq<B>)
    ensures var (d, b) := q.Detach();
            && (b == None <==> q.vbufs == [] && q.resps == [])
            && (b == None ==> d == q.(unused := []))
            && (b != None ==> Bufs(q.vbufs) + Bufs(q.resps) == [b.value] + (Bufs(d.vbufs) + Bufs(d.resps)) && d.Nodes() == q.Nodes())
  {
    if q.vbufs != [] {
      UnattachConserves(q, VbufList);
    } else if q.resps != [] {
      UnattachConserves(q, RespList);
    }
  }

  /** struct hab_virtqueue: the three lists with the counts kept beside them. */
  class HabQueue<B> {
    var unused: seq<nat>
    var unusedCount: int
    var vbufs: seq<Node<B>>
    var vbufCount: int
    var resps: seq<Node<B>>
    var respCount: int
    var broken: bool

    ghost predicate Valid()
      reads this
    {
      unusedCount == |unused| && vbufCount == |vbufs| && respCount == |resps|
    }

    ghost function Q(): Hvq<B>
      reads this
    {
      Hvq(unused, vbufs, resps, broken)
    }

    constructor (n: nat)
      ensures Valid() && Q() == Empty<B>(n)
    {
      unused, unusedCount := [], 0;
      vbufs, vbufCount := [], 0;
      resps, respCount := [], 0;
      broken := false;
      new;
      for i := 0 to n
        invariant Valid() && Q() == Empty<B>(i)
      {
        unused := unused + [i];
        unusedCount := unusedCount + 1;
      }
    }

    method Attach(w: Which, b: B) returns (ok: bool)
      requires Valid()
      modifies this
      ensures Valid()
      ensures Q() == old(Q()).Attach(w, b) && ok == (old(unused) != [])
    {
      ok := unused != [];
      if ok {
        var id := unused[0];
        unused, unusedCount := unused[1..], unusedCount - 1;
        if w == VbufList {
          vbufs, vbufCount := vbufs + [Node(id, b)], vbufCount + 1;
        } else {
          resps, respCount := resps + [Node(id, b)], respCount + 1;
        }
      }
    }

    method Unattach(w: Which) returns (b: Option<B>)
      requires Valid()
      modifies this
      ensures Valid()
      ensures (Q(), b) == old(Q()).Unattach(w)
    {
      b := None;
      if w == VbufList {
        if vbufs != [] {
          var node := vbufs[0];
          vbufs, vbufCount := vbufs[1..], vbufCount - 1;
          unused, unusedCount := unused + [node.id], unusedCount + 1;
          b := Some(node.buf);
        }
      } else {
        if resps != [] {
          var node := resps[0];
          resps, respCount := resps[1..], respCount - 1;
          unused, unusedCount := unused + [node.id], unusedCount + 1;
          b := Some(node.buf);
        }
      }
    }

    /** The two locked sections of add_sgs, run back to back. */
    method AddSgs(b: B) returns (ok: bool)
      requires Valid()
      modifies this
      ensures Valid()
      ensures Q() == old(Q()).AddSgs(b) && ok == old(Q()).AddOk()
    {
      if broken {
        return false;
      }
      if unused == [] {
        return false;
      }
      var id := unused[0];
      unused, unusedCount := unused[1..], unusedCount - 1;
      vbufs, vbufCount := vbufs + [Node(id, b)], vbufCount + 1;
      return true;
    }

    method DetachUnusedBuf() returns (b: Option<B>)
      requires Valid()
      modifies this
      ensures Valid()
      ensures (Q(), b) == old(Q()).Detach()
    {
      b := Unattach(VbufList);
      if b == None {
        b := Unattach(RespList);
      }
      if b == None {
        while unused != []
          invariant Valid()
          invariant Q() == old(Q()).(unused := unused)
          decreases |unused|
        {
          unused, unusedCount := unused[1..], unusedCount - 1;
        }
      }
    }

    /** get_one_evt_buf: the loop guard asks for retry > maxRetry where the parameter name
        promises up to maxRetry waits. retry starts at 0, so the guard is false the first
        time it is tested and the caller never waits. */
    method GetOneEvtBuf(maxRetry: nat) returns (b: Option<B>, waits: nat)
      requires Valid()
      modifies this
      ensures Valid()
      ensures (Q(), b) == old(Q()).Unattach(VbufList)
      ensures waits == 0
    {
      waits := 0;
      if vbufs == [] && waits > maxRetry {
        assert false; // the first test of the loop guard: the body is never entered
      }
      b := Unattach(VbufList);
    }
  }
}

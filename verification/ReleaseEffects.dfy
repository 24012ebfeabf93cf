/** What releasing a queue's buffers takes off the list, buffer by buffer. */
module ReleaseEffects {
  import opened Sequences
  import opened Masks
  import opened ExportCache
  import opened BufferOwnership
  import opened QueuedOnce
  import opened Leftovers

  /** The kernel's enum vb2_buffer_state. */
  function Number(st: VbState): nat {
    match st
    case Dequeued => 0
    case Active => 4
    case Done => 5
    case Error => 6
  }

  /** The test (state & VB2_BUF_STATE_ACTIVE) > 0 lets through ACTIVE, but DONE and ERROR too. */
  lemma TestsActiveExact(st: VbState)
    ensures TestsActive(st) <==> And(Number(st), Number(Active)) > 0
    ensures TestsActive(st) <==> st == Active || st == Done || st == Error
  {
    assert And(1, 1) == 1;
    assert And(2, 2) == 2 * And(1, 1) && And(3, 2) == 2 * And(1, 1);
    match st
    case Dequeued =>
    case Active => assert And(4, 4) == 2 * And(2, 2);
    case Done => assert And(5, 4) == 2 * And(2, 2);
    case Error => assert And(6, 4) == 2 * And(3, 2);
  }

  /** The release of a queue takes this entry. */
  ghost predicate Takes(d: Dev, b: nat, sid: nat, qt: QueueType) {
    b in d.bufs && d.bufs[b].sid == sid && d.bufs[b].qt == qt && d.bufs[b].vb != Dequeued
  }

  /** From list position i on, exactly those entries go; an ACTIVE buffer among them is returned
      in ERROR, and vb2 complains about any other. */
  ghost predicate ReleasedFrom(d: Dev, e: Dev, sid: nat, qt: QueueType, i: nat) {
    && i <= |d.pending| && e.streams == d.streams && e.host == d.host && e.taken == d.taken
    && (forall b :: b in e.pending <==> b in d.pending && !(b in d.pending[i..] && Takes(d, b, sid, qt)))
    && e.bufs.Keys == d.bufs.Keys
    && (forall b :: b in d.bufs ==>
          e.bufs[b] == if b in d.pending[i..] && Takes(d, b, sid, qt) && d.bufs[b].vb == Active then d.bufs[b].(vb := Error) else d.bufs[b])
    && (e.warned <==> d.warned || exists b :: b in d.pending[i..] && Takes(d, b, sid, qt) && d.bufs[b].vb != Active)
  }

  /** Entry i alone has gone, and its buffer with it if it was ACTIVE. */
  ghost predicate OneTaken(d: Dev, d1: Dev, i: nat)
    requires i < |d.pending| && d.pending[i] in d.bufs
  {
    var b0 := d.pending[i];
    && i <= |d1.pending| && d1.pending[i..] == d.pending[i + 1..] && b0 !in d.pending[i + 1..]
    && (forall b :: b in d1.pending <==> b in d.pending && b != b0)
    && (forall b :: b in d.pending[i..] <==> b in d.pending[i + 1..] || b == b0)
    && d1.streams == d.streams && d1.host == d.host && d1.taken == d.taken && d1.bufs.Keys == d.bufs.Keys
    && (forall b :: b in d.bufs ==> d1.bufs[b] == if b == b0 && d.bufs[b].vb == Active then d.bufs[b].(vb := Error) else d.bufs[b])
    && d1.warned == (d.warned || d.bufs[b0].vb != Active)
  }

  lemma TakeOne(d: Dev, sid: nat, qt: QueueType, i: nat)
    requires NoDup(d.pending) && i < |d.pending| && Takes(d, d.pending[i], sid, qt)
    ensures var d1 := VbDone(d.(pending := RemoveAt(d.pending, i)), d.pending[i], Error); NoDup(d1.pending) && OneTaken(d, d1, i)
  {
    var b0, l := d.pending[i], RemoveAt(d.pending, i);
    RemovedFrom(d.pending, i);
    assert d.pending[i..] == [b0] + d.pending[i + 1..];
    assert l[i..] == d.pending[i + 1..];
    forall b | b in d.pending && b != b0
      ensures b in l
    {
      RemoveAtKeepsOthers(d.pending, i, b);
    }
  }

  lemma {:induction false} ReleaseFromExact(d: Dev, sid: nat, qt: QueueType, i: nat)
    requires NoDup(d.pending) && i <= |d.pending|
    ensures ReleasedFrom(d, ReleaseFrom(d, sid, qt, i), sid, qt, i)
    decreases |d.pending| - i
  {
    hide ReleasedFrom, NoDup, VbDone, OneTaken, RemoveAt;
    if i == |d.pending| {
      NothingLeft(d, sid, qt);
    } else {
      var b := d.pending[i];
      TestsActiveExact(Error);
      if Takes(d, b, sid, qt) {
        var d1 := VbDone(d.(pending := RemoveAt(d.pending, i)), b, Error);
        TakeOne(d, sid, qt, i);
        ReleaseFromExact(d1, sid, qt, i);
        TakenFirst(d, d1, ReleaseFrom(d1, sid, qt, i), sid, qt, i);
      } else {
        ReleaseFromExact(d, sid, qt, i + 1);
        NotTaken(d, ReleaseFrom(d, sid, qt, i + 1), sid, qt, i);
      }
    }
  }

  lemma NothingLeft(d: Dev, sid: nat, qt: QueueType)
    ensures ReleasedFrom(d, d, sid, qt, |d.pending|)
  {
  }

  lemma NotTaken(d: Dev, e: Dev, sid: nat, qt: QueueType, i: nat)
    requires i < |d.pending| && !Takes(d, d.pending[i], sid, qt) && ReleasedFrom(d, e, sid, qt, i + 1)
    ensures ReleasedFrom(d, e, sid, qt, i)
  {
    assert d.pending[i..] == [d.pending[i]] + d.pending[i + 1..];
    assert forall b :: b in d.pending[i..] && Takes(d, b, sid, qt) <==> b in d.pending[i + 1..] && Takes(d, b, sid, qt);
  }

  lemma TakenFirst(d: Dev, d1: Dev, e: Dev, sid: nat, qt: QueueType, i: nat)
    requires i < |d.pending| && d.pending[i] in d.bufs && Takes(d, d.pending[i], sid, qt) && OneTaken(d, d1, i) && ReleasedFrom(d1, e, sid, qt, i)
    ensures ReleasedFrom(d, e, sid, qt, i)
  {
    hide Takes;
    var b0, before, after := d.pending[i], d.pending[i..], d1.pending[i..];
    TakesAlike(d, d1, sid, qt, i);
    WarnsAlike(d, d1, e, sid, qt, before, after, b0);
    ListsAlike(d, d1, e, sid, qt, before, after, b0);
    Assembled(d, e, sid, qt, i);
  }

  lemma TakesAlike(d: Dev, d1: Dev, sid: nat, qt: QueueType, i: nat)
    requires i < |d.pending| && d.pending[i] in d.bufs && OneTaken(d, d1, i)
    ensures var b0, before, after := d.pending[i], d.pending[i..], d1.pending[i..];
            && b0 in before && (forall b :: b in after ==> b != b0 && b in before) && (forall b :: b in before && b != b0 ==> b in after)
            && (forall b :: b != b0 ==> (Takes(d1, b, sid, qt) <==> Takes(d, b, sid, qt)))
  {
  }

  lemma Assembled(d: Dev, e: Dev, sid: nat, qt: QueueType, i: nat)
    requires i <= |d.pending| && e.streams == d.streams && e.host == d.host && e.taken == d.taken && e.bufs.Keys == d.bufs.Keys
    requires forall b :: b in e.pending <==> b in d.pending && !(b in d.pending[i..] && Takes(d, b, sid, qt))
    requires forall b :: b in d.bufs ==>
               e.bufs[b] == if b in d.pending[i..] && Takes(d, b, sid, qt) && d.bufs[b].vb == Active then d.bufs[b].(vb := Error) else d.bufs[b]
    requires e.warned <==> d.warned || exists b :: b in d.pending[i..] && Takes(d, b, sid, qt) && d.bufs[b].vb != Active
    ensures ReleasedFrom(d, e, sid, qt, i)
  {
  }

  lemma ListsAlike(d: Dev, d1: Dev, e: Dev, sid: nat, qt: QueueType, before: seq<nat>, after: seq<nat>, b0: nat)
    requires Takes(d, b0, sid, qt) && b0 in before && b0 in d.bufs
    requires forall b :: b in after ==> b != b0 && b in before
    requires forall b :: b in before && b != b0 ==> b in after
    requires forall b :: b != b0 ==> (Takes(d1, b, sid, qt) <==> Takes(d, b, sid, qt))
    requires forall b :: b in d1.pending <==> b in d.pending && b != b0
    requires d1.bufs.Keys == d.bufs.Keys && e.bufs.Keys == d1.bufs.Keys
    requires forall b :: b in d.bufs ==> d1.bufs[b] == if b == b0 && d.bufs[b].vb == Active then d.bufs[b].(vb := Error) else d.bufs[b]
    requires forall b :: b in e.pending <==> b in d1.pending && !(b in after && Takes(d1, b, sid, qt))
    requires forall b :: b in d1.bufs ==>
               e.bufs[b] == if b in after && Takes(d1, b, sid, qt) && d1.bufs[b].vb == Active then d1.bufs[b].(vb := Error) else d1.bufs[b]
    ensures forall b :: b in e.pending <==> b in d.pending && !(b in before && Takes(d, b, sid, qt))
    ensures forall b :: b in d.bufs ==>
              e.bufs[b] == if b in before && Takes(d, b, sid, qt) && d.bufs[b].vb == Active then d.bufs[b].(vb := Error) else d.bufs[b]
  {
    hide Takes;
  }

  lemma WarnsAlike(d: Dev, d1: Dev, e: Dev, sid: nat, qt: QueueType, before: seq<nat>, after: seq<nat>, b0: nat)
    requires Takes(d, b0, sid, qt) && b0 in before && d1.warned == (d.warned || d.bufs[b0].vb != Active)
    requires forall b :: b in after ==> b != b0 && b in before
    requires forall b :: b in before && b != b0 ==> b in after
    requires forall b :: b != b0 ==> (Takes(d1, b, sid, qt) <==> Takes(d, b, sid, qt))
    requires d1.bufs.Keys == d.bufs.Keys && forall b :: b in d.bufs && b != b0 ==> d1.bufs[b] == d.bufs[b]
    requires e.warned <==> d1.warned || exists b :: b in after && Takes(d1, b, sid, qt) && d1.bufs[b].vb != Active
    ensures e.warned <==> d.warned || exists b :: b in before && Takes(d, b, sid, qt) && d.bufs[b].vb != Active
  {
    if b :| b in after && Takes(d1, b, sid, qt) && d1.bufs[b].vb != Active {
      assert b in before && Takes(d, b, sid, qt);
    }
    if b :| b in before && Takes(d, b, sid, qt) && d.bufs[b].vb != Active {
      assert b != b0 ==> b in after && Takes(d1, b, sid, qt);
    }
  }

  /** Releasing a queue, exactly, for a list without duplicates, as every run keeps it. */
  lemma ReleaseExact(d: Dev, sid: nat, qt: QueueType)
    requires NoDup(d.pending)
    ensures var e := Release(d, sid, qt);
            && (forall b :: b in e.pending <==> b in d.pending && !Takes(d, b, sid, qt))
            && e.bufs.Keys == d.bufs.Keys
            && (forall b :: b in d.bufs ==>
                  e.bufs[b] == if b in d.pending && Takes(d, b, sid, qt) && d.bufs[b].vb == Active then d.bufs[b].(vb := Error) else d.bufs[b])
            && (e.warned <==> d.warned || exists b :: b in d.pending && Takes(d, b, sid, qt) && d.bufs[b].vb != Active)
            && e.streams == d.streams && e.host == d.host
  {
    ReleaseFromExact(d, sid, qt, 0);
    assert d.pending[0..] == d.pending;
    hide ReleaseFrom, Takes;
  }
}

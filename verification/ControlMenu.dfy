/** Controls sent by the host: the in-place rewrite of a menu's offsets into pointers, and the
    collection of control records over several replies. */
module ControlMenu {
  import opened Sequences
  import opened Wire

  const MAX_QMENU_ELEMENT_COUNT: nat := 64
  const TWO64: nat := 0x1_0000_0000_0000_0000

  // ---- 64-bit words in a byte buffer ----

  function Load(b: seq<byte>, i: nat): u64
    requires 8 * (i + 1) <= |b|
  {
    Widths();
    Le(b[8 * i..8 * i + 8])
  }

  /** The word read as a signed 64-bit integer. */
  function Signed(w: u64): int {
    if w < TWO64 / 2 then w else w - TWO64
  }

  function Store(b: seq<byte>, i: nat, w: u64): (r: seq<byte>)
    requires 8 * (i + 1) <= |b|
    ensures |r| == |b|
  {
    b[..8 * i] + Bytes64(w) + b[8 * i + 8..]
  }

  lemma StoreWord(b: seq<byte>, i: nat, w: u64)
    requires 8 * (i + 1) <= |b|
    ensures Load(Store(b, i, w), i) == w
    ensures Store(b, i, w)[8 * i + 8..] == b[8 * i + 8..] && Store(b, i, w)[..8 * i] == b[..8 * i]
  {
    var r := Store(b, i, w);
    assert r[8 * i..8 * i + 8] == Bytes64(w);
    Widths();
    LeOfBytes(w, 8);
  }

  /** A word depends on its own eight bytes. */
  lemma LoadSuffix(b: seq<byte>, c: seq<byte>, i: nat, k: nat)
    requires |b| == |c| && 8 * i <= |b| && b[8 * i..] == c[8 * i..] && i <= k && 8 * (k + 1) <= |b|
    ensures Load(b, k) == Load(c, k)
  {
    assert b[8 * k..8 * k + 8] == b[8 * i..][8 * (k - i)..8 * (k - i) + 8];
    assert c[8 * k..8 * k + 8] == c[8 * i..][8 * (k - i)..8 * (k - i) + 8];
  }

  lemma LoadPrefix(b: seq<byte>, c: seq<byte>, i: nat, k: nat)
    requires |b| == |c| && 8 * i <= |b| && b[..8 * i] == c[..8 * i] && k < i
    ensures Load(b, k) == Load(c, k)
  {
    assert b[8 * k..8 * k + 8] == b[..8 * i][8 * k..8 * k + 8];
    assert c[8 * k..8 * k + 8] == c[..8 * i][8 * k..8 * k + 8];
  }

  // ---- the menu ----

  /** How many offsets are rewritten: the count in the first word, when it is not negative, not
      over the limit and leaves room for itself and its offsets before the end. */
  function Count(b: seq<byte>): (n: nat)
    requires |b| >= 8
    ensures 8 * (n + 1) <= |b|
  {
    var c := Signed(Load(b, 0));
    if 0 <= c <= MAX_QMENU_ELEMENT_COUNT && (c + 1) * 8 < |b| then c else 0
  }

  /** The i-th offset. */
  function Offset(b: seq<byte>, i: nat): u64
    requires 8 * (i + 2) <= |b|
  {
    Load(b, i + 1)
  }

  /** What slot i becomes: the pointer its offset stands for, if the offset is not past the
      end; otherwise it keeps its old word. */
  function Slot(b: seq<byte>, base: u64, i: nat): u64
    requires 8 * (i + 2) <= |b|
  {
    if Signed(Offset(b, i)) < |b| then (base + Offset(b, i)) % TWO64 else Load(b, i)
  }

  /** The guard as the source computes it, on unsigned 64-bit words. */
  predicate GuardHolds(count: int, size: nat) {
    count <= MAX_QMENU_ELEMENT_COUNT && ((count + 1) * 8) % TWO64 < size
  }

  /** The first n slots of b are rewritten, and nothing from there on has changed. */
  ghost predicate Rewritten(b: seq<byte>, c: seq<byte>, base: u64, n: nat) {
    && |c| == |b| && 8 * (n + 1) <= |b|
    && (forall i :: 0 <= i < n ==> Load(c, i) == Slot(b, base, i))
    && c[8 * n..] == b[8 * n..]
  }

  /** The final buffer: the slots, a NULL, and the rest as it was. */
  ghost predicate Terminated(b: seq<byte>, c: seq<byte>, base: u64, n: nat) {
    && |c| == |b| && 8 * (n + 1) <= |b|
    && (forall i :: 0 <= i < n ==> Load(c, i) == Slot(b, base, i))
    && Load(c, n) == 0 && c[8 * (n + 1)..] == b[8 * (n + 1)..]
  }

  /** Writing word n leaves the slots before it. */
  lemma SlotsKept(b: seq<byte>, c: seq<byte>, base: u64, n: nat, w: u64)
    requires Rewritten(b, c, base, n)
    ensures forall i :: 0 <= i < n ==> Load(Store(c, n, w), i) == Slot(b, base, i)
  {
    StoreWord(c, n, w);
    forall i | 0 <= i < n
      ensures Load(Store(c, n, w), i) == Slot(b, base, i)
    {
      LoadPrefix(Store(c, n, w), c, n, i);
    }
  }

  /** The offset is still there to be read when its slot is written. */
  lemma OffsetIntact(b: seq<byte>, c: seq<byte>, base: u64, n: nat)
    requires Rewritten(b, c, base, n) && 8 * (n + 2) <= |b|
    ensures |b| == |c| && Offset(c, n) == Offset(b, n) && Load(c, n) == Load(b, n)
  {
    hide Load;
    LoadSuffix(c, b, n, n + 1);
    LoadSuffix(c, b, n, n);
  }

  lemma SlotWritten(b: seq<byte>, c: seq<byte>, base: u64, n: nat)
    requires Rewritten(b, c, base, n) && 8 * (n + 2) <= |b|
    ensures Signed(Offset(b, n)) < |b| ==> Rewritten(b, Store(c, n, Slot(b, base, n)), base, n + 1)
    ensures Signed(Offset(b, n)) >= |b| ==> Rewritten(b, c, base, n + 1)
  {
    hide Load, Slot, Store;
    var w := Slot(b, base, n);
    OffsetIntact(b, c, base, n);
    SlotsKept(b, c, base, n, w);
    StoreWord(c, n, w);
    SlotValue(b, base, n);
  }

  lemma NullWritten(b: seq<byte>, c: seq<byte>, base: u64, n: nat)
    requires Rewritten(b, c, base, n)
    ensures Terminated(b, Store(c, n, 0), base, n)
  {
    hide Load, Slot, Store;
    SlotsKept(b, c, base, n, 0);
    StoreWord(c, n, 0);
  }

  method Load64(a: array<byte>, i: nat) returns (w: u64)
    requires 8 * (i + 1) <= a.Length
    ensures w == Load(a[..], i)
  {
    Widths();
    w := Le(a[8 * i..8 * i + 8]);
    assert a[8 * i..8 * i + 8] == a[..][8 * i..8 * i + 8];
  }

  method Store64(a: array<byte>, i: nat, w: u64)
    requires 8 * (i + 1) <= a.Length
    modifies a
    ensures a[..] == Store(old(a[..]), i, w)
  {
    hide Bytes64;
    var b := Bytes64(w);
    forall k | 0 <= k < 8 {
      a[8 * i + k] := b[k];
    }
    assert a[8 * i..8 * i + 8] == b;
    assert a[..] == a[..8 * i] + a[8 * i..8 * i + 8] + a[8 * i + 8..];
  }

  /** virtio_video_parse_qmenu over the whole array, which lies at address `base`. The slots
      move one word to the left of the offsets they are computed from, so each offset is read
      before it is overwritten. The strings, and all bytes past the NULL slot, stay put. */
  method ParseQmenu(a: array<byte>, base: u64)
    requires 8 <= a.Length < 0x8000_0000
    modifies a
    ensures Terminated(old(a[..]), a[..], base, Count(old(a[..])))
  {
    ghost var b := a[..];
    var w := Load64(a, 0);
    CountByGuard(b);
    assert Rewritten(b, b, base, 0);
    hide Load, Slot, Store, Count, Rewritten, Terminated, GuardHolds, Signed;
    var elementCount := Signed(w);
    ghost var total := Count(b);
    var n := 0;
    if GuardHolds(elementCount, a.Length) {
      assert elementCount <= total && (0 <= elementCount ==> elementCount == total && 8 * (total + 1) < a.Length);
      while n < elementCount
        invariant 0 <= n <= total && (elementCount < 0 ==> n == total)
        invariant Rewritten(b, a[..], base, n)
      {
        RewriteSlot(a, b, base, n);
        n := n + 1;
      }
    }
    assert n == total;
    NullWritten(b, a[..], base, n);
    Store64(a, n, 0);
  }

  /** One turn of the loop. */
  method RewriteSlot(a: array<byte>, ghost b: seq<byte>, base: u64, n: nat)
    requires |b| == a.Length && Rewritten(b, a[..], base, n) && 8 * (n + 2) <= a.Length
    modifies a
    ensures Rewritten(b, a[..], base, n + 1)
  {
    hide Load, Slot, Store, Rewritten, Signed;
    OffsetIntact(b, a[..], base, n);
    SlotWritten(b, a[..], base, n);
    SlotValue(b, base, n);
    var ofs := Load64(a, n + 1);
    if Signed(ofs) < a.Length {
      Store64(a, n, (base + ofs) % TWO64);
    }
  }

  lemma CountByGuard(b: seq<byte>)
    requires 8 <= |b| < 0x8000_0000
    ensures var c := Signed(Load(b, 0));
            && Count(b) == (if GuardHolds(c, |b|) && 0 <= c then c else 0)
            && (GuardHolds(c, |b|) && 0 <= c ==> 8 * (c + 1) < |b|)
  {
    hide Load;
    GuardExact(Signed(Load(b, 0)), |b|);
  }

  lemma SlotValue(b: seq<byte>, base: u64, n: nat)
    requires 8 * (n + 2) <= |b|
    ensures Slot(b, base, n) == if Signed(Offset(b, n)) < |b| then (base + Offset(b, n)) % TWO64 else Load(b, n)
  {
  }

  /** For a size that fits an int, the unsigned guard admits a non-negative count exactly when
      it leaves room; a negative count, which it may admit, rewrites nothing. */
  lemma GuardExact(count: int, size: nat)
    requires size < 0x8000_0000 && -0x8000_0000_0000_0000 <= count < 0x8000_0000_0000_0000
    ensures 0 <= count ==> (GuardHolds(count, size) <==> count <= MAX_QMENU_ELEMENT_COUNT && (count + 1) * 8 < size)
  {
  }

  /** Every offset lies in the strings, behind the NULL slot. */
  ghost predicate OffsetsInStrings(b: seq<byte>)
    requires |b| >= 8
  {
    forall i :: 0 <= i < Count(b) ==> 8 * (Count(b) + 1) <= Offset(b, i) < |b|
  }

  /** The order of the writes matters and is right: every pointer of a well-formed menu points
      at the bytes its offset named before the rewrite, and the first NULL ends the list. */
  lemma MenuMeans(b: seq<byte>, c: seq<byte>, base: u64, i: nat)
    requires 8 <= |b| < 0x8000_0000 && 0 < base && base + |b| < TWO64
    requires OffsetsInStrings(b) && Terminated(b, c, base, Count(b)) && i < Count(b)
    ensures Load(c, i) == base + Offset(b, i) && Load(c, i) != 0 && Load(c, Count(b)) == 0
    ensures c[Offset(b, i)..] == b[Offset(b, i)..]
  {
    hide Load, Count;
    assert Load(c, i) == Slot(b, base, i);
  }

  // ---- collecting control records ----

  /** A record carries its own size in its first word. */
  predicate CarriesSize(r: seq<byte>) {
    4 <= |r| < 0x1_0000_0000 && r[..4] == Bytes32(|r|)
  }

  /** What one reply holds: its records, and whether a record of size zero ended it. */
  datatype Chunk = Chunk(records: seq<seq<byte>>, end: bool)

  /** The records from off on, at most n of them; None when one is not inside the buffer. */
  function Records(buf: seq<byte>, off: nat, n: nat): Option<Chunk>
    decreases n
  {
    if n == 0 then Some(Chunk([], false))
    else
      var size := Get32(buf, off);
      if size.None? || off + size.value > |buf| then None
      else if size.value == 0 then Some(Chunk([], true))
      else
        var rest := Records(buf, off + size.value, n - 1);
        if rest.None? then None else Some(Chunk([buf[off..off + size.value]] + rest.value.records, rest.value.end))
  }

  function ParseChunk(buf: seq<byte>): Option<Chunk> {
    var num := Get32(buf, 8);
    if num.None? then None else Records(buf, 16, num.value)
  }

  function Concat(rs: seq<seq<byte>>): seq<byte> {
    if rs == [] then [] else rs[0] + Concat(rs[1..])
  }

  predicate AllCarrySize(rs: seq<seq<byte>>) {
    rs == [] || (CarriesSize(rs[0]) && AllCarrySize(rs[1..]))
  }

  /** A reply carries the chunk: the records one after the other, and either as many as it
      announces or fewer with a zero size behind the last. */
  ghost predicate Carries(buf: seq<byte>, c: Chunk) {
    && AllCarrySize(c.records) && Get32(buf, 8).Some?
    && if c.end then Get32(buf, 8).value > |c.records| && At(buf, 16, Concat(c.records) + Bytes32(0))
       else Get32(buf, 8).value == |c.records| && At(buf, 16, Concat(c.records))
  }

  lemma RecordAt(buf: seq<byte>, off: nat, r: seq<byte>)
    requires CarriesSize(r) && At(buf, off, r)
    ensures 4 <= |r| < 0x1_0000_0000 && Get32(buf, off) == Some(|r|) && off + |r| <= |buf| && buf[off..off + |r|] == r
  {
    hide Get32;
    AtSlice(buf, off, r);
    assert r == r[..4] + r[4..];
    AtAppend(buf, off, r[..4], r[4..]);
    Get32Exact(buf, off, |r|);
  }

  lemma {:induction false} RecordsRoundTrip(buf: seq<byte>, off: nat, rs: seq<seq<byte>>, n: nat, end: bool)
    requires AllCarrySize(rs) && At(buf, off, Concat(rs) + if end then Bytes32(0) else [])
    requires if end then n > |rs| else n == |rs|
    ensures Records(buf, off, n) == Some(Chunk(rs, end))
    decreases |rs|
  {
    hide Get32, CarriesSize, At;
    var tail := if end then Bytes32(0) else [];
    if rs == [] {
      assert Concat(rs) + tail == tail;
      if end {
        Get32Exact(buf, off, 0);
        AtSlice(buf, off, tail);
        assert |tail| == 4;
      }
    } else {
      assert Concat(rs) + tail == rs[0] + (Concat(rs[1..]) + tail);
      AtAppend(buf, off, rs[0], Concat(rs[1..]) + tail);
      RecordAt(buf, off, rs[0]);
      RecordsRoundTrip(buf, off + |rs[0]|, rs[1..], n - 1, end);
      assert [rs[0]] + rs[1..] == rs;
    }
  }

  lemma ChunkRoundTrip(buf: seq<byte>, c: Chunk)
    requires Carries(buf, c)
    ensures ParseChunk(buf) == Some(c)
  {
    hide Get32, Records;
    assert Concat(c.records) + [] == Concat(c.records);
    RecordsRoundTrip(buf, 16, c.records, Get32(buf, 8).value, c.end);
  }

  /** All records of the replies, up to and including the one that ends; false when the
      replies run out, or a command fails, before that. */
  function Collected(replies: seq<Option<Chunk>>): (seq<seq<byte>>, bool) {
    if replies == [] || replies[0].None? then ([], false)
    else if replies[0].value.end then (replies[0].value.records, true)
    else
      var (rest, ok) := Collected(replies[1..]);
      (replies[0].value.records + rest, ok)
  }

  function Flat(chunks: seq<seq<seq<byte>>>): seq<seq<byte>> {
    if chunks == [] then [] else chunks[0] + Flat(chunks[1..])
  }

  /** The replies a host sends for those records: only the last one ends. */
  function AsReplies(chunks: seq<seq<seq<byte>>>): seq<Option<Chunk>> {
    if chunks == [] then [] else [Some(Chunk(chunks[0], |chunks| == 1))] + AsReplies(chunks[1..])
  }

  /** However the records are cut into replies, all are collected, in order. */
  lemma {:induction false} CuttingDoesNotMatter(chunks: seq<seq<seq<byte>>>, late: seq<Option<Chunk>>)
    requires chunks != []
    ensures Collected(AsReplies(chunks) + late) == (Flat(chunks), true)
    decreases |chunks|
  {
    var all := AsReplies(chunks) + late;
    assert all[0] == Some(Chunk(chunks[0], |chunks| == 1));
    if |chunks| == 1 {
      assert Flat(chunks) == chunks[0] + [] == chunks[0];
    } else {
      CuttingDoesNotMatter(chunks[1..], late);
      assert all[1..] == AsReplies(chunks[1..]) + late;
    }
  }

  /** What the driver makes of the buffers it is sent; None is a failed command. */
  function Parses(bufs: seq<Option<seq<byte>>>): seq<Option<Chunk>> {
    if bufs == [] then [] else [if bufs[0].None? then None else ParseChunk(bufs[0].value)] + Parses(bufs[1..])
  }

  /** Each buffer that arrives is a well-formed reply. */
  predicate WellFormed(bufs: seq<Option<seq<byte>>>) {
    bufs == [] || ((bufs[0].Some? ==> ParseChunk(bufs[0].value).Some?) && WellFormed(bufs[1..]))
  }

  function Behind(got: seq<seq<byte>>, c: Chunk): Chunk {
    Chunk(got + c.records, c.end)
  }

  /** Where the records end. */
  lemma LastRecord(buf: seq<byte>, off: nat, n: nat)
    requires Records(buf, off, n).Some?
    ensures n == 0 ==> Records(buf, off, n) == Some(Chunk([], false))
    ensures n > 0 ==> Get32(buf, off).Some? && off + Get32(buf, off).value <= |buf|
    ensures n > 0 && Get32(buf, off) == Some(0) ==> Records(buf, off, n) == Some(Chunk([], true))
  {
    hide Get32;
  }

  lemma NextRecord(buf: seq<byte>, off: nat, n: nat, got: seq<seq<byte>>)
    requires n > 0 && Records(buf, off, n).Some? && Get32(buf, off).Some? && Get32(buf, off).value != 0
    requires off + Get32(buf, off).value <= |buf|
    ensures var size := Get32(buf, off).value;
            && Records(buf, off + size, n - 1).Some?
            && Behind(got, Records(buf, off, n).value) == Behind(got + [buf[off..off + size]], Records(buf, off + size, n - 1).value)
  {
    hide Get32;
    var size := Get32(buf, off).value;
    var r, rest := buf[off..off + size], Records(buf, off + size, n - 1).value.records;
    assert got + ([r] + rest) == (got + [r]) + rest;
  }

  /** The device's list of controls, before their menus are rewritten. */
  class ControlList {
    var configs: seq<seq<byte>>

    /** virtio_video_parse_controls on a well-formed reply */
    method ParseControls(buf: seq<byte>) returns (isEnd: bool)
      requires ParseChunk(buf).Some?
      modifies this
      ensures |old(configs)| <= |configs| && configs[..|old(configs)|] == old(configs)
      ensures ParseChunk(buf) == Some(Chunk(configs[|old(configs)|..], isEnd))
    {
      hide Get32, Records;
      var numDescs: nat := Get32(buf, 8).value;
      var offset: nat := 16;
      isEnd := false;
      ghost var got: seq<seq<byte>> := [];
      assert [] + Records(buf, 16, numDescs).value.records == Records(buf, 16, numDescs).value.records;
      while numDescs > 0
        invariant numDescs >= 0 && configs == old(configs) + got
        invariant Records(buf, offset, numDescs).Some?
        invariant !isEnd
        invariant ParseChunk(buf).value == Behind(got, Records(buf, offset, numDescs).value)
        decreases numDescs
      {
        LastRecord(buf, offset, numDescs);
        var size := Get32(buf, offset).value;
        if size == 0 {
          isEnd := true;
          assert got + [] == got;
          break;
        }
        ghost var r := buf[offset..offset + size];
        NextRecord(buf, offset, numDescs, got);
        assert (old(configs) + got) + [r] == old(configs) + (got + [r]);
        configs := configs + [buf[offset..offset + size]];
        got := got + [r];
        offset := offset + size;
        numDescs := numDescs - 1;
      }
      LastRecord(buf, offset, numDescs);
      assert got + [] == got;
      assert configs[|old(configs)|..] == got;
    }

    /** virtio_video_query_capability: replies are asked for until one ends; a command that
        fails, or is never answered, stops the loop and keeps what has been collected. */
    method QueryCapability(replies: seq<Option<seq<byte>>>) returns (ok: bool)
      requires WellFormed(replies)
      modifies this
      ensures var (records, done) := Collected(Parses(replies));
              ok == done && configs == old(configs) + records
    {
      hide ParseChunk;
      var isEnd, i := false, 0;
      ok := true;
      ghost var got: seq<seq<byte>> := [];
      assert replies[0..] == replies && [] + Collected(Parses(replies)).0 == Collected(Parses(replies)).0;
      while !isEnd
        invariant i <= |replies| && configs == old(configs) + got && WellFormed(replies[i..])
        invariant isEnd ==> Collected(Parses(replies)) == (got, true)
        invariant !isEnd ==> Collected(Parses(replies)) == Before(got, Collected(Parses(replies[i..])))
        decreases |replies| - i, !isEnd
      {
        if i == |replies| || replies[i] == None {
          assert got + [] == got;
          return false;
        }
        ghost var before := configs;
        assert replies[i..][1..] == replies[i + 1..];
        isEnd := ParseControls(replies[i].value);
        CollectedStep(replies[i..], got, Chunk(configs[|before|..], isEnd));
        got := got + configs[|before|..];
        assert configs == before + configs[|before|..];
        i := i + 1;
      }
    }
  }

  function Before(got: seq<seq<byte>>, r: (seq<seq<byte>>, bool)): (seq<seq<byte>>, bool) {
    (got + r.0, r.1)
  }

  /** Taking one more reply into account. */
  lemma CollectedStep(bufs: seq<Option<seq<byte>>>, got: seq<seq<byte>>, c: Chunk)
    requires bufs != [] && bufs[0].Some? && ParseChunk(bufs[0].value) == Some(c)
    ensures Before(got, Collected(Parses(bufs))) ==
              if c.end then (got + c.records, true) else Before(got + c.records, Collected(Parses(bufs[1..])))
  {
    hide ParseChunk, Collected;
    assert Parses(bufs) == [Some(c)] + Parses(bufs[1..]);
    CollectedCons(c, Parses(bufs[1..]));
    assert got + (c.records + Collected(Parses(bufs[1..])).0) == (got + c.records) + Collected(Parses(bufs[1..])).0;
  }

  lemma CollectedCons(c: Chunk, rest: seq<Option<Chunk>>)
    ensures Collected([Some(c)] + rest) == if c.end then (c.records, true) else Before(c.records, Collected(rest))
  {
    assert ([Some(c)] + rest)[1..] == rest;
  }
}

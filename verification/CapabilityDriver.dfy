/** The parser of driver/virtio_video_caps.c as it runs: nested loops that advance an offset, and
    a format list that grows at its head; the ranges of control values; and the enumeration of
    the formats a mask allows. */
module CapabilityDriver {
  import opened Sequences
  import opened Wire
  import opened FormatNegotiation
  import opened CapabilityParser
  import SS = StreamState

  function Reverse<T>(s: seq<T>): (r: seq<T>)
    ensures |r| == |s|
  {
    if s == [] then [] else Reverse(s[1..]) + [s[0]]
  }

  lemma {:induction false} ReverseSnoc<T>(s: seq<T>, x: T)
    ensures Reverse(s + [x]) == [x] + Reverse(s)
    decreases |s|
  {
    if s == [] {
      assert s + [x] == [x] && [x][1..] == [];
    } else {
      ReverseSnoc(s[1..], x);
      assert (s + [x])[1..] == s[1..] + [x];
    }
  }

  method ParseVirtioFrameRate(buf: seq<byte>, off: nat) returns (rate: Range, size: nat)
    requires ParseRange(buf, off).Some?
    ensures ParseRange(buf, off) == Some(rate) && size == RANGE_SIZE
  {
    rate := Range(Get32(buf, off).value, Get32(buf, off + 4).value, Get32(buf, off + 8).value);
    size := RANGE_SIZE;
  }

  /** The rates parsed so far in front of those still to come. */
  ghost predicate RatesSplit(buf: seq<byte>, start: nat, n: nat, got: seq<Range>, offset: nat)
    requires |got| <= n
  {
    var all, rest := ParseRates(buf, start, n), ParseRates(buf, offset, n - |got|);
    all.Some? && rest.Some? && all.value == got + rest.value
  }

  method ParseVirtioFrame(buf: seq<byte>, off: nat) returns (frm: FrameInfo, offset: nat)
    requires ParseFrame(buf, off).Some?
    ensures offset >= off + FRAME_SIZE && ParseFrame(buf, off) == Some(Parsed(frm, offset - off))
  {
    hide ParseRange;
    var width, s0 := ParseVirtioFrameRate(buf, off);
    var height, s1 := ParseVirtioFrameRate(buf, off + 16);
    var numRates := Get32(buf, off + 32).value;
    var rates: seq<Range> := [];
    offset := off + FRAME_SIZE;
    for idx := 0 to numRates
      invariant |rates| == idx && offset == off + FRAME_SIZE + RANGE_SIZE * idx
      invariant RatesSplit(buf, off + FRAME_SIZE, numRates, rates, offset)
    {
      var rate, extra := ParseVirtioFrameRate(buf, offset);
      rates := rates + [rate];
      offset := offset + extra;
    }
    assert rates + [] == rates;
    frm := FrameInfo(width, height, rates);
  }

  ghost predicate FramesSplit(buf: seq<byte>, start: nat, n: nat, got: seq<FrameInfo>, offset: nat)
    requires |got| <= n
  {
    var all, rest := ParseFrames(buf, start, n), ParseFrames(buf, offset, n - |got|);
    && all.Some? && rest.Some? && offset >= start
    && all.value == Parsed(got + rest.value.value, offset - start + rest.value.size)
  }

  lemma FramesStart(buf: seq<byte>, start: nat, n: nat)
    requires ParseFrames(buf, start, n).Some?
    ensures FramesSplit(buf, start, n, [], start)
  {
    hide ParseFrames;
    assert [] + ParseFrames(buf, start, n).value.value == ParseFrames(buf, start, n).value.value;
  }

  lemma FramesEnd(buf: seq<byte>, start: nat, n: nat, got: seq<FrameInfo>, offset: nat)
    requires |got| == n && FramesSplit(buf, start, n, got, offset)
    ensures ParseFrames(buf, start, n) == Some(Parsed(got, offset - start))
  {
    assert got + [] == got;
  }

  lemma NextFrame(buf: seq<byte>, start: nat, n: nat, got: seq<FrameInfo>, offset: nat)
    requires |got| < n && FramesSplit(buf, start, n, got, offset)
    ensures ParseFrame(buf, offset).Some?
    ensures var f := ParseFrame(buf, offset).value; FramesSplit(buf, start, n, got + [f.value], offset + f.size)
  {
    hide ParseFrame;
    var f := ParseFrame(buf, offset).value;
    var rest := ParseFrames(buf, offset + f.size, n - |got| - 1).value;
    assert got + ([f.value] + rest.value) == (got + [f.value]) + rest.value;
  }

  method ParseVirtioFmt(buf: seq<byte>, off: nat, toV4l2: nat -> nat) returns (fmt: Format, offset: nat)
    requires ParseDesc(buf, off, toV4l2).Some?
    ensures offset >= off + DESC_SIZE && ParseDesc(buf, off, toV4l2) == Some(Parsed(fmt, offset - off))
  {
    hide ParseFrame;
    var format := toV4l2(Get32(buf, off + 8).value);
    var mask, planesLayout := Get64(buf, off).value, Get32(buf, off + 12).value;
    var numFrames := Get32(buf, off + 20).value;
    var frames: seq<FrameInfo> := [];
    offset := off + DESC_SIZE;
    FramesStart(buf, offset, numFrames);
    for idx := 0 to numFrames
      invariant |frames| == idx && offset >= off + DESC_SIZE
      invariant FramesSplit(buf, off + DESC_SIZE, numFrames, frames, offset)
    {
      NextFrame(buf, off + DESC_SIZE, numFrames, frames, offset);
      var frame, next := ParseVirtioFrame(buf, offset);
      frames := frames + [frame];
      offset := next;
    }
    FramesEnd(buf, off + DESC_SIZE, numFrames, frames, offset);
    fmt := Format(format, mask, planesLayout, frames);
  }

  ghost predicate DescsSplit(buf: seq<byte>, n: nat, toV4l2: nat -> nat, got: seq<Format>, offset: nat)
    requires |got| <= n
  {
    var all, rest := ParseDescs(buf, RESP_SIZE, n, toV4l2), ParseDescs(buf, offset, n - |got|, toV4l2);
    && all.Some? && rest.Some? && offset >= RESP_SIZE
    && all.value == Parsed(got + rest.value.value, offset - RESP_SIZE + rest.value.size)
  }

  lemma DescsStart(buf: seq<byte>, n: nat, toV4l2: nat -> nat)
    requires ParseDescs(buf, RESP_SIZE, n, toV4l2).Some?
    ensures DescsSplit(buf, n, toV4l2, [], RESP_SIZE)
  {
    hide ParseDescs;
    assert [] + ParseDescs(buf, RESP_SIZE, n, toV4l2).value.value == ParseDescs(buf, RESP_SIZE, n, toV4l2).value.value;
  }

  lemma DescsEnd(buf: seq<byte>, n: nat, toV4l2: nat -> nat, got: seq<Format>, offset: nat)
    requires |got| == n && DescsSplit(buf, n, toV4l2, got, offset)
    ensures ParseDescs(buf, RESP_SIZE, n, toV4l2) == Some(Parsed(got, offset - RESP_SIZE))
  {
    assert got + [] == got;
  }

  lemma NextDesc(buf: seq<byte>, n: nat, toV4l2: nat -> nat, got: seq<Format>, offset: nat)
    requires |got| < n && DescsSplit(buf, n, toV4l2, got, offset)
    ensures ParseDesc(buf, offset, toV4l2).Some?
    ensures var d := ParseDesc(buf, offset, toV4l2).value; DescsSplit(buf, n, toV4l2, got + [d.value], offset + d.size)
  {
    hide ParseDesc;
    var d := ParseDesc(buf, offset, toV4l2).value;
    var rest := ParseDescs(buf, offset + d.size, n - |got| - 1, toV4l2).value;
    assert got + ([d.value] + rest.value) == (got + [d.value]) + rest.value;
  }

  /** The lists of formats a device keeps. */
  class FormatList {
    var fmts: seq<Format>
    var num: nat

    /** The loop over the descriptors: each format goes to the head of the list. */
    method PrependFormats(buf: seq<byte>, fmtCount: nat, toV4l2: nat -> nat) returns (offset: nat, ghost got: seq<Format>)
      requires ParseDescs(buf, RESP_SIZE, fmtCount, toV4l2).Some?
      modifies this`fmts
      ensures fmts == Reverse(got) + old(fmts) && offset >= RESP_SIZE && |got| == fmtCount
      ensures ParseDescs(buf, RESP_SIZE, fmtCount, toV4l2) == Some(Parsed(got, offset - RESP_SIZE))
    {
      hide ParseDescs, ParseDesc;
      offset := RESP_SIZE;
      got := [];
      DescsStart(buf, fmtCount, toV4l2);
      assert Reverse(got) + old(fmts) == old(fmts);
      for fmtIdx := 0 to fmtCount
        invariant |got| == fmtIdx && offset >= RESP_SIZE && DescsSplit(buf, fmtCount, toV4l2, got, offset)
        invariant fmts == Reverse(got) + old(fmts)
      {
        NextDesc(buf, fmtCount, toV4l2, got, offset);
        var fmt, next := ParseVirtioFmt(buf, offset, toV4l2);
        offset := next;
        ReverseSnoc(got, fmt);
        assert [fmt] + (Reverse(got) + old(fmts)) == ([fmt] + Reverse(got)) + old(fmts);
        fmts := [fmt] + fmts;
        got := got + [fmt];
      }
      DescsEnd(buf, fmtCount, toV4l2, got, offset);
    }

    /** virtio_video_parse_virtio_capability on a well-formed reply. The list comes out in the
        reverse of the reply's order; a reply without descriptors is refused. */
    method ParseVirtioCapability(resp: Option<seq<byte>>, toV4l2: nat -> nat) returns (r: Outcome, ghost consumed: nat)
      requires resp.Some? ==> ParseCaps(resp.value, toV4l2).Some?
      modifies this
      ensures r == if resp.None? || Get32(resp.value, 8) == Some(0) then EINVAL else Accepted
      ensures r == EINVAL ==> fmts == old(fmts) && num == old(num)
      ensures r == Accepted ==>
                && num <= |fmts| && fmts[num..] == old(fmts)
                && ParseCaps(resp.value, toV4l2) == Some(Parsed(Reverse(fmts[..num]), consumed))
    {
      consumed := 0;
      if resp == None {
        return EINVAL, 0;
      }
      hide ParseDescs, ParseCaps, Get32, Reverse;
      var buf := resp.value;
      ParsedHead(buf, toV4l2);
      var fmtCount := Get32(buf, 8).value;
      if fmtCount == 0 {
        return EINVAL, 0;
      }
      var offset, got := PrependFormats(buf, fmtCount, toV4l2);
      num := fmtCount;
      ParsedWhole(buf, toV4l2, fmtCount, got, offset);
      Prepended(got, old(fmts), fmts, num);
      return Accepted, offset;
    }
  }

  lemma ParsedHead(buf: seq<byte>, toV4l2: nat -> nat)
    requires ParseCaps(buf, toV4l2).Some?
    ensures Get32(buf, 8).Some? && ParseDescs(buf, RESP_SIZE, Get32(buf, 8).value, toV4l2).Some?
  {
    hide Get32, ParseDescs;
  }

  lemma ParsedWhole(buf: seq<byte>, toV4l2: nat -> nat, n: nat, got: seq<Format>, offset: nat)
    requires ParseCaps(buf, toV4l2).Some? && Get32(buf, 8).Some? && Get32(buf, 8).value == n && offset >= RESP_SIZE
    requires ParseDescs(buf, RESP_SIZE, n, toV4l2) == Some(Parsed(got, offset - RESP_SIZE))
    ensures ParseCaps(buf, toV4l2) == Some(Parsed(got, offset))
  {
    hide Get32, ParseDescs;
  }

  lemma Prepended(got: seq<Format>, before: seq<Format>, after: seq<Format>, n: nat)
    requires after == Reverse(got) + before && n == |got|
    ensures n <= |after| && after[n..] == before && Reverse(after[..n]) == got
  {
    ReverseTwice(got);
    assert after[..n] == Reverse(got);
  }

  lemma {:induction false} ReverseTwice<T>(s: seq<T>)
    ensures Reverse(Reverse(s)) == s
  {
    if s != [] {
      ReverseTwice(s[1..]);
      ReverseSnoc(Reverse(s[1..]), s[0]);
      assert s == [s[0]] + s[1..];
    }
  }

  /** From bytes to list: after parsing a serialized reply into an empty list, the list holds
      the tree's formats, last first. */
  lemma ListedInReverse(c: WireCaps, rest: seq<byte>, toV4l2: nat -> nat, fmts: seq<Format>, consumed: nat)
    requires Countable(c.descs)
    requires ParseCaps(CapsBytes(c) + rest, toV4l2) == Some(Parsed(Reverse(fmts), consumed))
    ensures consumed == RESP_SIZE + DescsSize(c.descs) && |fmts| == |c.descs|
    ensures forall i :: 0 <= i < |fmts| ==> fmts[i] == KeptDesc(c.descs[|c.descs| - 1 - i], toV4l2)
  {
    hide ParseCaps, CapsBytes, KeptDesc, KeptDescs, Reverse, DescsSize;
    CapabilityRoundTrip(c, rest, toV4l2);
    var n := |fmts|;
    forall i | 0 <= i < n
      ensures fmts[i] == KeptDesc(c.descs[n - 1 - i], toV4l2)
    {
      var j := n - 1 - i;
      ReverseAt(fmts, j, i);
      KeptAt(c.descs, toV4l2, j);
    }
  }

  lemma {:induction false} ReverseAt<T>(s: seq<T>, k: nat, j: nat)
    requires k + j + 1 == |s|
    ensures Reverse(s)[k] == s[j]
    decreases |s|
  {
    if j > 0 { ReverseAt(s[1..], k, j - 1); }
  }

  lemma {:induction false} KeptAt(ds: seq<WireDesc>, toV4l2: nat -> nat, k: nat)
    requires k < |ds|
    ensures KeptDescs(ds, toV4l2)[k] == KeptDesc(ds[k], toV4l2)
    decreases |ds|
  {
    if k > 0 { KeptAt(ds[1..], toV4l2, k - 1); }
  }

  // ---- the values of a control ----

  /** What is kept of the levels or profiles of a format: the masks are sets of bits. */
  datatype ControlValues = ControlValues(entries: seq<nat>, min: nat, max: nat, skip: set<nat>)

  function BitsBelow(n: nat): (s: set<nat>)
    ensures forall b: nat :: b in s <==> b < n
  {
    if n == 0 then {} else BitsBelow(n - 1) + {n - 1}
  }

  /** The loop of virtio_video_parse_control_levels and _profiles over a reply; one that names
      no value leaves nothing behind. Min and max are attained, and the bits left out of the
      skip mask are exactly the values, provided all of them are bits of a word. */
  method ControlRange(values: seq<u32>, toV4l2: nat -> nat) returns (r: Option<ControlValues>)
    requires forall v :: v in values ==> toV4l2(v) <= 0xFFFF_FFFF
    ensures r.Some? <==> values != []
    ensures r.Some? ==>
              var c := r.value;
              && |c.entries| == |values| && (forall i :: 0 <= i < |values| ==> c.entries[i] == toV4l2(values[i]))
              && c.min in c.entries && c.max in c.entries && (forall e :: e in c.entries ==> c.min <= e <= c.max)
              && ((forall e :: e in c.entries ==> e < 32) ==> forall b: nat :: b < 32 ==> (b in c.skip <==> b !in c.entries))
  {
    if values == [] {
      return None;
    }
    // min starts as UINT_MAX: the comparisons are unsigned
    var min, max := 0xFFFF_FFFF, 0;
    var mask: set<nat> := {};
    var entries: seq<nat> := [];
    for idx := 0 to |values|
      invariant |entries| == idx && forall i :: 0 <= i < idx ==> entries[i] == toV4l2(values[i]) <= 0xFFFF_FFFF
      invariant forall e :: e in entries ==> min <= e <= max
      invariant idx > 0 ==> min in entries && max in entries
      invariant idx == 0 ==> min == 0xFFFF_FFFF && max == 0
      invariant forall b :: b in mask <==> b in entries
    {
      assert values[idx] in values;
      entries := entries + [toV4l2(values[idx])];
      mask := mask + {entries[idx]};
      if entries[idx] > max {
        max := entries[idx];
      }
      if entries[idx] < min {
        min := entries[idx];
      }
    }
    r := Some(ControlValues(entries, min, max, BitsBelow(32) - mask));
  }

  // ---- formats allowed by a mask ----

  /** The positions below n whose bit is set, ascending. */
  function Allowed(mask: set<nat>, n: nat): (r: seq<nat>)
    ensures |r| <= n && forall k :: 0 <= k < |r| ==> r[k] < n && r[k] in mask
  {
    if n == 0 then [] else Allowed(mask, n - 1) + if n - 1 in mask then [n - 1] else []
  }

  lemma {:induction false} AllowedExact(mask: set<nat>, n: nat)
    ensures forall i, j :: 0 <= i < j < |Allowed(mask, n)| ==> Allowed(mask, n)[i] < Allowed(mask, n)[j]
    ensures forall b: nat :: b in Allowed(mask, n) <==> b < n && b in mask
  {
    if n > 0 { AllowedExact(mask, n - 1); }
  }

  lemma {:induction false} AllowedNone(n: nat)
    ensures Allowed({}, n) == []
  {
    if n > 0 { AllowedNone(n - 1); }
  }

  lemma {:induction false} AllowedGrows(mask: set<nat>, i: nat, n: nat)
    requires i <= n
    ensures Allowed(mask, i) <= Allowed(mask, n)
    decreases n
  {
    if i < n { AllowedGrows(mask, i, n - 1); }
  }

  class Enumerator {
    var state: SS.State
    var inFormat: nat

    /** virtio_video_dec_enum_fmt_vid_cap: the index counts the output formats whose position in
        the list is a bit of the mask of the first input format with the current format. `masks`
        gives the bits of each input format's mask. */
    method EnumFmtVidCap(capture: bool, index: nat, inputs: seq<(nat, set<nat>)>, outputs: seq<Format>)
      returns (r: Outcome, pixelFormat: nat)
      ensures state == SS.Error ==> r == EIO
      ensures state != SS.Error ==>
                var mask := MaskFor(inputs, inFormat);
                var all := Allowed(mask, |outputs|);
                && (r == Accepted <==> capture && index < |all|)
                && (r == Accepted ==> pixelFormat == outputs[all[index]].format)
                && (r != Accepted ==> r == EINVAL)
    {
      pixelFormat := 0;
      if state == SS.Error {
        return EIO, 0;
      }
      ghost var all := Allowed(MaskFor(inputs, inFormat), |outputs|);
      if !capture {
        return EINVAL, 0;
      }
      if index >= |outputs| {
        return EINVAL, 0;
      }
      var inputMask: set<nat> := {};
      for i := 0 to |inputs|
        invariant inputMask == {} && MaskFor(inputs, inFormat) == MaskFor(inputs[i..], inFormat)
      {
        assert inputs[i..][1..] == inputs[i + 1..];
        if inputs[i].0 == inFormat {
          inputMask := inputs[i].1;
          break;
        }
      }
      assert inputMask == MaskFor(inputs, inFormat);
      if inputMask == {} {
        AllowedNone(|outputs|);
        return EINVAL, 0;
      }
      var idx := 0;
      for bitNum := 0 to |outputs|
        invariant idx == |Allowed(inputMask, bitNum)| <= index
      {
        AllowedGrows(inputMask, bitNum + 1, |outputs|);
        if bitNum in inputMask {
          if index == idx {
            assert all[index] == Allowed(inputMask, bitNum + 1)[index] == bitNum;
            return Accepted, outputs[bitNum].format;
          }
          idx := idx + 1;
        }
      }
      return EINVAL, 0;
    }
  }

  /** The mask looked up is that of the first input format with the format; without one it is
      empty, which the driver cannot tell from a format that allows nothing. */
  lemma {:induction false} MaskForExact(inputs: seq<(nat, set<nat>)>, format: nat)
    ensures forall i :: 0 <= i < |inputs| && inputs[i].0 == format && (forall j :: 0 <= j < i ==> inputs[j].0 != format) ==>
              MaskFor(inputs, format) == inputs[i].1
    ensures (forall i :: 0 <= i < |inputs| ==> inputs[i].0 != format) ==> MaskFor(inputs, format) == {}
  {
    if inputs != [] && inputs[0].0 != format {
      MaskForExact(inputs[1..], format);
      assert forall i :: 0 < i < |inputs| ==> inputs[1..][i - 1] == inputs[i];
      forall i | 0 <= i < |inputs| && inputs[i].0 == format && (forall j :: 0 <= j < i ==> inputs[j].0 != format)
        ensures MaskFor(inputs, format) == inputs[i].1
      {
        assert inputs[1..][i - 1].0 == format && forall j :: 0 <= j < i - 1 ==> inputs[1..][j].0 != format;
      }
    }
  }

  /** The mask of the first input format with that format; no bits when there is none. */
  function MaskFor(inputs: seq<(nat, set<nat>)>, format: nat): set<nat> {
    if inputs == [] then {}
    else if inputs[0].0 == format then inputs[0].1
    else MaskFor(inputs[1..], format)
  }
}

/** The nested capability reply: descriptors of formats, each with its frames, each with its
    rate ranges. The parser of driver/virtio_video_caps.c against the wire format. */
module CapabilityParser {
  import opened Sequences
  import opened Wire
  import opened FormatNegotiation

  const RANGE_SIZE: nat := 16
  const FRAME_SIZE: nat := 40
  const DESC_SIZE: nat := 24
  const RESP_SIZE: nat := 16

  // ---- the wire format ----

  datatype WireRange = WireRange(min: u32, max: u32, step: u32, padding: u32)

  datatype WireFrame = WireFrame(width: WireRange, height: WireRange, padding: u32, rates: seq<WireRange>)

  datatype WireDesc = WireDesc(mask: u64, format: u32, planesLayout: u32, planeAlign: u32, frames: seq<WireFrame>)

  datatype WireCaps = WireCaps(cmd: u32, streamId: u32, padding: u32, descs: seq<WireDesc>)

  /** The counts fit their 32-bit fields. */
  predicate Countable(ds: seq<WireDesc>) {
    |ds| < 0x1_0000_0000 && (ds != [] ==> CountableFrames(ds[0].frames) && Countable(ds[1..]))
  }

  predicate CountableFrames(fs: seq<WireFrame>) {
    |fs| < 0x1_0000_0000 && (fs != [] ==> |fs[0].rates| < 0x1_0000_0000 && CountableFrames(fs[1..]))
  }

  function RangeBytes(r: WireRange): (b: seq<byte>)
    ensures |b| == RANGE_SIZE
  {
    Bytes32(r.min) + Bytes32(r.max) + Bytes32(r.step) + Bytes32(r.padding)
  }

  function RatesBytes(rs: seq<WireRange>): (b: seq<byte>)
    ensures |b| == RANGE_SIZE * |rs|
  {
    if rs == [] then [] else RangeBytes(rs[0]) + RatesBytes(rs[1..])
  }

  function FrameHead(width: WireRange, height: WireRange, num: u32, padding: u32): (b: seq<byte>)
    ensures |b| == FRAME_SIZE
  {
    RangeBytes(width) + (RangeBytes(height) + (Bytes32(num) + Bytes32(padding)))
  }

  function FrameBytes(f: WireFrame): (b: seq<byte>)
    requires |f.rates| < 0x1_0000_0000
    ensures |b| == FRAME_SIZE + RANGE_SIZE * |f.rates|
  {
    FrameHead(f.width, f.height, |f.rates|, f.padding) + RatesBytes(f.rates)
  }

  function FramesBytes(fs: seq<WireFrame>): seq<byte>
    requires CountableFrames(fs)
  {
    if fs == [] then [] else FrameBytes(fs[0]) + FramesBytes(fs[1..])
  }

  function DescHead(mask: u64, format: u32, planesLayout: u32, planeAlign: u32, num: u32): (b: seq<byte>)
    ensures |b| == DESC_SIZE
  {
    Bytes64(mask) + (Bytes32(format) + (Bytes32(planesLayout) + (Bytes32(planeAlign) + Bytes32(num))))
  }

  function DescBytes(d: WireDesc): (b: seq<byte>)
    requires CountableFrames(d.frames)
    ensures |b| == DESC_SIZE + |FramesBytes(d.frames)|
  {
    DescHead(d.mask, d.format, d.planesLayout, d.planeAlign, |d.frames|) + FramesBytes(d.frames)
  }

  function DescsBytes(ds: seq<WireDesc>): seq<byte>
    requires Countable(ds)
  {
    if ds == [] then [] else DescBytes(ds[0]) + DescsBytes(ds[1..])
  }

  function CapsBytes(c: WireCaps): seq<byte>
    requires Countable(c.descs)
  {
    Bytes32(c.cmd) + (Bytes32(c.streamId) + (Bytes32(|c.descs|) + (Bytes32(c.padding) + DescsBytes(c.descs))))
  }

  // ---- the sizes ----

  function RatesSize(fs: seq<WireFrame>): nat {
    if fs == [] then 0 else FRAME_SIZE + RANGE_SIZE * |fs[0].rates| + RatesSize(fs[1..])
  }

  function DescsSize(ds: seq<WireDesc>): nat {
    if ds == [] then 0 else DESC_SIZE + RatesSize(ds[0].frames) + DescsSize(ds[1..])
  }

  lemma {:induction false} FramesBytesSize(fs: seq<WireFrame>)
    requires CountableFrames(fs)
    ensures |FramesBytes(fs)| == RatesSize(fs)
  {
    if fs != [] { FramesBytesSize(fs[1..]); }
  }

  lemma {:induction false} DescsBytesSize(ds: seq<WireDesc>)
    requires Countable(ds)
    ensures |DescsBytes(ds)| == DescsSize(ds)
  {
    if ds != [] {
      FramesBytesSize(ds[0].frames);
      DescsBytesSize(ds[1..]);
    }
  }

  // ---- what the driver keeps ----

  datatype FrameInfo = FrameInfo(width: Range, height: Range, rates: seq<Range>)

  datatype Format = Format(format: nat, mask: nat, planesLayout: nat, frames: seq<FrameInfo>)

  function KeptRange(r: WireRange): Range {
    Range(r.min, r.max, r.step)
  }

  function KeptRates(rs: seq<WireRange>): seq<Range> {
    if rs == [] then [] else [KeptRange(rs[0])] + KeptRates(rs[1..])
  }

  function KeptFrame(f: WireFrame): FrameInfo {
    FrameInfo(KeptRange(f.width), KeptRange(f.height), KeptRates(f.rates))
  }

  function KeptFrames(fs: seq<WireFrame>): seq<FrameInfo> {
    if fs == [] then [] else [KeptFrame(fs[0])] + KeptFrames(fs[1..])
  }

  /** The format is translated, the plane alignment dropped. */
  function KeptDesc(d: WireDesc, toV4l2: nat -> nat): Format {
    Format(toV4l2(d.format), d.mask, d.planesLayout, KeptFrames(d.frames))
  }

  function KeptDescs(ds: seq<WireDesc>, toV4l2: nat -> nat): (k: seq<Format>)
    ensures |k| == |ds|
  {
    if ds == [] then [] else [KeptDesc(ds[0], toV4l2)] + KeptDescs(ds[1..], toV4l2)
  }

  // ---- the parser: None when a structure is not wholly inside the buffer ----

  function ParseRange(buf: seq<byte>, off: nat): Option<Range> {
    var min, max, step, padding := Get32(buf, off), Get32(buf, off + 4), Get32(buf, off + 8), Get32(buf, off + 12);
    if padding.None? || min.None? || max.None? || step.None? then None else Some(Range(min.value, max.value, step.value))
  }

  function ParseRates(buf: seq<byte>, off: nat, n: nat): (r: Option<seq<Range>>)
    ensures r.Some? ==> |r.value| == n
    decreases n
  {
    if n == 0 then Some([])
    else
      var rate := ParseRange(buf, off);
      var rest := ParseRates(buf, off + RANGE_SIZE, n - 1);
      if rate.None? || rest.None? then None else Some([rate.value] + rest.value)
  }

  /** What was parsed, and how many bytes it took. */
  datatype Parsed<+T> = Parsed(value: T, size: nat)

  datatype Head = Head(width: Range, height: Range, num: u32)

  function ParseFrameHead(buf: seq<byte>, off: nat): Option<Head> {
    var width, height := ParseRange(buf, off), ParseRange(buf, off + 16);
    var num, padding := Get32(buf, off + 32), Get32(buf, off + 36);
    if width.None? || height.None? || num.None? || padding.None? then None
    else Some(Head(width.value, height.value, num.value))
  }

  function ParseFrame(buf: seq<byte>, off: nat): Option<Parsed<FrameInfo>> {
    var head := ParseFrameHead(buf, off);
    if head.None? then None
    else
      var rates := ParseRates(buf, off + FRAME_SIZE, head.value.num);
      if rates.None? then None
      else Some(Parsed(FrameInfo(head.value.width, head.value.height, rates.value), FRAME_SIZE + RANGE_SIZE * head.value.num))
  }

  function ParseFrames(buf: seq<byte>, off: nat, n: nat): (r: Option<Parsed<seq<FrameInfo>>>)
    ensures r.Some? ==> |r.value.value| == n
    decreases n
  {
    if n == 0 then Some(Parsed([], 0))
    else
      var frame := ParseFrame(buf, off);
      if frame.None? then None
      else
        var rest := ParseFrames(buf, off + frame.value.size, n - 1);
        if rest.None? then None
        else Some(Parsed([frame.value.value] + rest.value.value, frame.value.size + rest.value.size))
  }

  datatype FormatHead = FormatHead(mask: u64, format: u32, planesLayout: u32, num: u32)

  function ParseDescHead(buf: seq<byte>, off: nat): Option<FormatHead> {
    var mask, format, layout := Get64(buf, off), Get32(buf, off + 8), Get32(buf, off + 12);
    var align, num := Get32(buf, off + 16), Get32(buf, off + 20);
    if mask.None? || format.None? || layout.None? || align.None? || num.None? then None
    else Some(FormatHead(mask.value, format.value, layout.value, num.value))
  }

  function ParseDesc(buf: seq<byte>, off: nat, toV4l2: nat -> nat): Option<Parsed<Format>> {
    var head := ParseDescHead(buf, off);
    if head.None? then None
    else
      var frames := ParseFrames(buf, off + DESC_SIZE, head.value.num);
      if frames.None? then None
      else Some(Parsed(Format(toV4l2(head.value.format), head.value.mask, head.value.planesLayout, frames.value.value),
                       DESC_SIZE + frames.value.size))
  }

  function ParseDescs(buf: seq<byte>, off: nat, n: nat, toV4l2: nat -> nat): (r: Option<Parsed<seq<Format>>>)
    ensures r.Some? ==> |r.value.value| == n
    decreases n
  {
    if n == 0 then Some(Parsed([], 0))
    else
      var desc := ParseDesc(buf, off, toV4l2);
      if desc.None? then None
      else
        var rest := ParseDescs(buf, off + desc.value.size, n - 1, toV4l2);
        if rest.None? then None
        else Some(Parsed([desc.value.value] + rest.value.value, desc.value.size + rest.value.size))
  }

  // ---- parsing what was serialized ----

  lemma RangeRoundTrip(buf: seq<byte>, off: nat, r: WireRange)
    requires At(buf, off, RangeBytes(r))
    ensures ParseRange(buf, off) == Some(KeptRange(r))
  {
    hide Get32;
    AtRange(buf, off, r);
    Get32Exact(buf, off, r.min);
    Get32Exact(buf, off + 4, r.max);
    Get32Exact(buf, off + 8, r.step);
    Get32Exact(buf, off + 12, r.padding);
  }

  lemma AtRange(buf: seq<byte>, off: nat, r: WireRange)
    ensures At(buf, off, RangeBytes(r)) <==>
              At(buf, off, Bytes32(r.min)) && At(buf, off + 4, Bytes32(r.max)) && At(buf, off + 8, Bytes32(r.step)) && At(buf, off + 12, Bytes32(r.padding))
  {
    var a, b, c, d := Bytes32(r.min), Bytes32(r.max), Bytes32(r.step), Bytes32(r.padding);
    AtAppend(buf, off, a, b);
    AtAppend(buf, off, a + b, c);
    AtAppend(buf, off, a + b + c, d);
  }

  lemma {:induction false} RatesRoundTrip(buf: seq<byte>, off: nat, rs: seq<WireRange>)
    requires At(buf, off, RatesBytes(rs))
    ensures ParseRates(buf, off, |rs|) == Some(KeptRates(rs))
    decreases |rs|
  {
    hide RangeBytes, ParseRange;
    if rs != [] {
      AtAppend(buf, off, RangeBytes(rs[0]), RatesBytes(rs[1..]));
      RangeRoundTrip(buf, off, rs[0]);
      RatesRoundTrip(buf, off + RANGE_SIZE, rs[1..]);
    }
  }

  lemma HeadSizes(w: WireRange, h: WireRange, num: u32)
    ensures |RangeBytes(w)| == 16 && |RangeBytes(h)| == 16 && |Bytes32(num)| == 4
  {
  }

  lemma AtFrameHead(buf: seq<byte>, off: nat, w: WireRange, h: WireRange, num: u32, padding: u32)
    ensures At(buf, off, FrameHead(w, h, num, padding)) <==>
              && At(buf, off, RangeBytes(w)) && At(buf, off + 16, RangeBytes(h))
              && At(buf, off + 32, Bytes32(num)) && At(buf, off + 36, Bytes32(padding))
  {
    hide At, RangeBytes, Bytes32;
    assert |RangeBytes(w)| == 16 && |RangeBytes(h)| == 16 && |Bytes32(num)| == 4 by { HeadSizes(w, h, num); }
    AtAppend(buf, off, RangeBytes(w), RangeBytes(h) + (Bytes32(num) + Bytes32(padding)));
    AtAppend(buf, off + 16, RangeBytes(h), Bytes32(num) + Bytes32(padding));
    AtAppend(buf, off + 32, Bytes32(num), Bytes32(padding));
  }

  lemma FrameHeadRoundTrip(buf: seq<byte>, off: nat, w: WireRange, h: WireRange, num: u32, padding: u32)
    requires At(buf, off, FrameHead(w, h, num, padding))
    ensures ParseFrameHead(buf, off) == Some(Head(KeptRange(w), KeptRange(h), num))
  {
    hide RangeBytes, ParseRange, Get32;
    AtFrameHead(buf, off, w, h, num, padding);
    RangeRoundTrip(buf, off, w);
    RangeRoundTrip(buf, off + 16, h);
    Get32Exact(buf, off + 32, num);
    Get32Exact(buf, off + 36, padding);
  }

  lemma FrameRoundTrip(buf: seq<byte>, off: nat, f: WireFrame)
    requires |f.rates| < 0x1_0000_0000 && At(buf, off, FrameBytes(f))
    ensures ParseFrame(buf, off) == Some(Parsed(KeptFrame(f), |FrameBytes(f)|))
  {
    hide FrameHead, ParseFrameHead, RatesBytes;
    AtAppend(buf, off, FrameHead(f.width, f.height, |f.rates|, f.padding), RatesBytes(f.rates));
    FrameHeadRoundTrip(buf, off, f.width, f.height, |f.rates|, f.padding);
    RatesRoundTrip(buf, off + FRAME_SIZE, f.rates);
  }

  lemma {:induction false} FramesRoundTrip(buf: seq<byte>, off: nat, fs: seq<WireFrame>)
    requires CountableFrames(fs) && At(buf, off, FramesBytes(fs))
    ensures ParseFrames(buf, off, |fs|) == Some(Parsed(KeptFrames(fs), |FramesBytes(fs)|))
    decreases |fs|
  {
    hide FrameBytes, ParseFrame;
    if fs != [] {
      AtAppend(buf, off, FrameBytes(fs[0]), FramesBytes(fs[1..]));
      FrameRoundTrip(buf, off, fs[0]);
      FramesRoundTrip(buf, off + |FrameBytes(fs[0])|, fs[1..]);
    }
  }

  lemma AtDescHead(buf: seq<byte>, off: nat, mask: u64, format: u32, layout: u32, align: u32, num: u32)
    ensures At(buf, off, DescHead(mask, format, layout, align, num)) <==>
              && At(buf, off, Bytes64(mask)) && At(buf, off + 8, Bytes32(format)) && At(buf, off + 12, Bytes32(layout))
              && At(buf, off + 16, Bytes32(align)) && At(buf, off + 20, Bytes32(num))
  {
    AtFive(buf, off, Bytes64(mask), Bytes32(format), Bytes32(layout), Bytes32(align), Bytes32(num));
  }

  lemma AtFive(buf: seq<byte>, off: nat, a: seq<byte>, b: seq<byte>, c: seq<byte>, d: seq<byte>, e: seq<byte>)
    ensures At(buf, off, a + (b + (c + (d + e)))) <==>
              && At(buf, off, a) && At(buf, off + |a|, b) && At(buf, off + |a| + |b|, c)
              && At(buf, off + |a| + |b| + |c|, d) && At(buf, off + |a| + |b| + |c| + |d|, e)
  {
    AtAppend(buf, off, a, b + (c + (d + e)));
    AtAppend(buf, off + |a|, b, c + (d + e));
    AtAppend(buf, off + |a| + |b|, c, d + e);
    AtAppend(buf, off + |a| + |b| + |c|, d, e);
  }

  lemma DescHeadRoundTrip(buf: seq<byte>, off: nat, mask: u64, format: u32, layout: u32, align: u32, num: u32)
    requires At(buf, off, DescHead(mask, format, layout, align, num))
    ensures ParseDescHead(buf, off) == Some(FormatHead(mask, format, layout, num))
  {
    hide Get32, Get64;
    AtDescHead(buf, off, mask, format, layout, align, num);
    Get64Exact(buf, off, mask);
    Get32Exact(buf, off + 8, format);
    Get32Exact(buf, off + 12, layout);
    Get32Exact(buf, off + 16, align);
    Get32Exact(buf, off + 20, num);
  }

  lemma DescRoundTrip(buf: seq<byte>, off: nat, d: WireDesc, toV4l2: nat -> nat)
    requires CountableFrames(d.frames) && At(buf, off, DescBytes(d))
    ensures ParseDesc(buf, off, toV4l2) == Some(Parsed(KeptDesc(d, toV4l2), |DescBytes(d)|))
  {
    hide DescHead, ParseDescHead, FramesBytes;
    AtAppend(buf, off, DescHead(d.mask, d.format, d.planesLayout, d.planeAlign, |d.frames|), FramesBytes(d.frames));
    DescHeadRoundTrip(buf, off, d.mask, d.format, d.planesLayout, d.planeAlign, |d.frames|);
    FramesRoundTrip(buf, off + DESC_SIZE, d.frames);
  }

  lemma {:induction false} DescsRoundTrip(buf: seq<byte>, off: nat, ds: seq<WireDesc>, toV4l2: nat -> nat)
    requires Countable(ds) && At(buf, off, DescsBytes(ds))
    ensures ParseDescs(buf, off, |ds|, toV4l2) == Some(Parsed(KeptDescs(ds, toV4l2), |DescsBytes(ds)|))
    decreases |ds|
  {
    hide DescBytes, ParseDesc, KeptDesc, FramesBytes, CountableFrames;
    if ds != [] {
      AtAppend(buf, off, DescBytes(ds[0]), DescsBytes(ds[1..]));
      DescRoundTrip(buf, off, ds[0], toV4l2);
      DescsRoundTrip(buf, off + |DescBytes(ds[0])|, ds[1..], toV4l2);
    }
  }

  // ---- whatever parses was serialized ----

  lemma RangeSound(buf: seq<byte>, off: nat) returns (r: WireRange)
    requires ParseRange(buf, off).Some?
    ensures At(buf, off, RangeBytes(r)) && ParseRange(buf, off) == Some(KeptRange(r))
  {
    r := WireRange(Get32(buf, off).value, Get32(buf, off + 4).value, Get32(buf, off + 8).value, Get32(buf, off + 12).value);
    hide Get32;
    Get32Exact(buf, off, r.min);
    Get32Exact(buf, off + 4, r.max);
    Get32Exact(buf, off + 8, r.step);
    Get32Exact(buf, off + 12, r.padding);
    AtRange(buf, off, r);
  }

  lemma {:induction false} RatesSound(buf: seq<byte>, off: nat, n: nat) returns (rs: seq<WireRange>)
    requires off <= |buf| && ParseRates(buf, off, n).Some?
    ensures |rs| == n && At(buf, off, RatesBytes(rs)) && ParseRates(buf, off, n) == Some(KeptRates(rs))
    decreases n
  {
    hide RangeBytes, ParseRange;
    if n == 0 {
      rs := [];
    } else {
      var r := RangeSound(buf, off);
      InBuffer(buf, off, RangeBytes(r));
      var rest := RatesSound(buf, off + RANGE_SIZE, n - 1);
      rs := [r] + rest;
      assert rs[1..] == rest;
      AtAppend(buf, off, RangeBytes(r), RatesBytes(rest));
    }
  }

  lemma InBuffer(buf: seq<byte>, off: nat, b: seq<byte>)
    requires At(buf, off, b)
    ensures off + |b| <= |buf|
  {
    AtSlice(buf, off, b);
  }

  lemma FrameHeadSound(buf: seq<byte>, off: nat) returns (w: WireRange, h: WireRange, padding: u32)
    requires ParseFrameHead(buf, off).Some?
    ensures At(buf, off, FrameHead(w, h, ParseFrameHead(buf, off).value.num, padding))
    ensures ParseFrameHead(buf, off).value == Head(KeptRange(w), KeptRange(h), ParseFrameHead(buf, off).value.num)
  {
    hide RangeBytes, ParseRange, Get32;
    w := RangeSound(buf, off);
    h := RangeSound(buf, off + 16);
    padding := Get32(buf, off + 36).value;
    var num := Get32(buf, off + 32).value;
    Get32Exact(buf, off + 32, num);
    Get32Exact(buf, off + 36, padding);
    AtFrameHead(buf, off, w, h, num, padding);
  }

  lemma FrameSound(buf: seq<byte>, off: nat) returns (f: WireFrame)
    requires ParseFrame(buf, off).Some?
    ensures |f.rates| < 0x1_0000_0000 && At(buf, off, FrameBytes(f))
    ensures ParseFrame(buf, off) == Some(Parsed(KeptFrame(f), |FrameBytes(f)|))
  {
    hide FrameHead, ParseFrameHead, RatesBytes;
    var head := ParseFrameHead(buf, off).value;
    var w, h, padding := FrameHeadSound(buf, off);
    InBuffer(buf, off, FrameHead(w, h, head.num, padding));
    var rates := RatesSound(buf, off + FRAME_SIZE, head.num);
    f := WireFrame(w, h, padding, rates);
    AtAppend(buf, off, FrameHead(w, h, head.num, padding), RatesBytes(rates));
  }

  lemma {:induction false} FramesSound(buf: seq<byte>, off: nat, n: nat) returns (fs: seq<WireFrame>)
    requires off <= |buf| && n < 0x1_0000_0000 && ParseFrames(buf, off, n).Some?
    ensures |fs| == n && CountableFrames(fs) && At(buf, off, FramesBytes(fs))
    ensures ParseFrames(buf, off, n) == Some(Parsed(KeptFrames(fs), |FramesBytes(fs)|))
    decreases n
  {
    hide FrameBytes, ParseFrame, KeptFrame;
    if n == 0 {
      fs := [];
    } else {
      var f := FrameSound(buf, off);
      InBuffer(buf, off, FrameBytes(f));
      var rest := FramesSound(buf, off + |FrameBytes(f)|, n - 1);
      fs := [f] + rest;
      assert fs[1..] == rest;
      AtAppend(buf, off, FrameBytes(f), FramesBytes(rest));
    }
  }

  lemma DescHeadSound(buf: seq<byte>, off: nat) returns (align: u32)
    requires ParseDescHead(buf, off).Some?
    ensures var h := ParseDescHead(buf, off).value;
            At(buf, off, DescHead(h.mask, h.format, h.planesLayout, align, h.num))
  {
    hide Get32, Get64;
    var h := ParseDescHead(buf, off).value;
    align := Get32(buf, off + 16).value;
    Get64Exact(buf, off, h.mask);
    Get32Exact(buf, off + 8, h.format);
    Get32Exact(buf, off + 12, h.planesLayout);
    Get32Exact(buf, off + 16, align);
    Get32Exact(buf, off + 20, h.num);
    AtDescHead(buf, off, h.mask, h.format, h.planesLayout, align, h.num);
  }

  lemma DescSound(buf: seq<byte>, off: nat, toV4l2: nat -> nat) returns (d: WireDesc)
    requires ParseDesc(buf, off, toV4l2).Some?
    ensures CountableFrames(d.frames) && At(buf, off, DescBytes(d))
    ensures ParseDesc(buf, off, toV4l2) == Some(Parsed(KeptDesc(d, toV4l2), |DescBytes(d)|))
  {
    hide DescHead, ParseDescHead, FramesBytes;
    var h := ParseDescHead(buf, off).value;
    var align := DescHeadSound(buf, off);
    InBuffer(buf, off, DescHead(h.mask, h.format, h.planesLayout, align, h.num));
    var frames := FramesSound(buf, off + DESC_SIZE, h.num);
    d := WireDesc(h.mask, h.format, h.planesLayout, align, frames);
    AtAppend(buf, off, DescHead(h.mask, h.format, h.planesLayout, align, h.num), FramesBytes(frames));
  }

  lemma {:induction false} DescsSound(buf: seq<byte>, off: nat, n: nat, toV4l2: nat -> nat) returns (ds: seq<WireDesc>)
    requires off <= |buf| && n < 0x1_0000_0000 && ParseDescs(buf, off, n, toV4l2).Some?
    ensures |ds| == n && Countable(ds) && At(buf, off, DescsBytes(ds))
    ensures ParseDescs(buf, off, n, toV4l2) == Some(Parsed(KeptDescs(ds, toV4l2), |DescsBytes(ds)|))
    decreases n
  {
    hide DescBytes, ParseDesc, KeptDesc, FramesBytes, CountableFrames;
    if n == 0 {
      ds := [];
    } else {
      var d := DescSound(buf, off, toV4l2);
      InBuffer(buf, off, DescBytes(d));
      var rest := DescsSound(buf, off + |DescBytes(d)|, n - 1, toV4l2);
      ds := [d] + rest;
      assert ds[1..] == rest;
      AtAppend(buf, off, DescBytes(d), DescsBytes(rest));
    }
  }

  // ---- the whole reply ----

  /** The reply as the driver reads it: the number of descriptors, then the descriptors. */
  function ParseCaps(buf: seq<byte>, toV4l2: nat -> nat): Option<Parsed<seq<Format>>> {
    var num, padding := Get32(buf, 8), Get32(buf, 12);
    if num.None? || padding.None? then None
    else
      var descs := ParseDescs(buf, RESP_SIZE, num.value, toV4l2);
      if descs.None? then None else Some(Parsed(descs.value.value, RESP_SIZE + descs.value.size))
  }

  lemma AtCapsHead(buf: seq<byte>, cmd: u32, sid: u32, num: u32, padding: u32, rest: seq<byte>)
    ensures At(buf, 0, Bytes32(cmd) + (Bytes32(sid) + (Bytes32(num) + (Bytes32(padding) + rest)))) <==>
              && At(buf, 0, Bytes32(cmd)) && At(buf, 4, Bytes32(sid)) && At(buf, 8, Bytes32(num)) && At(buf, 12, Bytes32(padding))
              && At(buf, RESP_SIZE, rest)
  {
    AtFive(buf, 0, Bytes32(cmd), Bytes32(sid), Bytes32(num), Bytes32(padding), rest);
  }

  /** Parsing a serialized reply, whatever follows it, consumes exactly its bytes, as many as
      the tree says, and yields the tree's formats in order. */
  lemma CapabilityRoundTrip(c: WireCaps, rest: seq<byte>, toV4l2: nat -> nat)
    requires Countable(c.descs)
    ensures ParseCaps(CapsBytes(c) + rest, toV4l2) == Some(Parsed(KeptDescs(c.descs, toV4l2), |CapsBytes(c)|))
    ensures |CapsBytes(c)| == RESP_SIZE + DescsSize(c.descs)
  {
    hide Get32, ParseDescs, DescsBytes;
    var buf := CapsBytes(c) + rest;
    AtSlice(buf, 0, CapsBytes(c));
    AtCapsHead(buf, c.cmd, c.streamId, |c.descs|, c.padding, DescsBytes(c.descs));
    Get32Exact(buf, 8, |c.descs|);
    Get32Exact(buf, 12, c.padding);
    DescsRoundTrip(buf, RESP_SIZE, c.descs, toV4l2);
    DescsBytesSize(c.descs);
  }

  lemma HeadInside(buf: seq<byte>)
    requires Get32(buf, 12).Some?
    ensures RESP_SIZE <= |buf| && Get32(buf, 0).Some? && Get32(buf, 4).Some? && Get32(buf, 8).Some?
  {
  }

  /** Conversely, what the parser accepts is the serialization of the tree it returns. */
  lemma CapabilitySound(buf: seq<byte>, toV4l2: nat -> nat) returns (c: WireCaps)
    requires ParseCaps(buf, toV4l2).Some?
    ensures Countable(c.descs) && At(buf, 0, CapsBytes(c))
    ensures ParseCaps(buf, toV4l2) == Some(Parsed(KeptDescs(c.descs, toV4l2), |CapsBytes(c)|))
  {
    hide Get32, ParseDescs, DescsBytes;
    HeadInside(buf);
    var cmd, sid, num, padding := Get32(buf, 0).value, Get32(buf, 4).value, Get32(buf, 8).value, Get32(buf, 12).value;
    Get32Exact(buf, 0, cmd);
    Get32Exact(buf, 4, sid);
    Get32Exact(buf, 8, num);
    Get32Exact(buf, 12, padding);
    var ds := DescsSound(buf, RESP_SIZE, num, toV4l2);
    c := WireCaps(cmd, sid, padding, ds);
    AtCapsHead(buf, cmd, sid, num, padding, DescsBytes(ds));
  }
}

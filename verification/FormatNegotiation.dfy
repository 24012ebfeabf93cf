/** Size negotiation: virtio_video_try_fmt against the frame list, and the frame search of
    virtio_video_enum_framemintervals that has to accept what it returns. */
module FormatNegotiation {
  import opened Masks
  import opened Sequences
  import SS = StreamState

  /** struct virtio_video_format_range: 32-bit words. */
  datatype Range = Range(min: nat, max: nat, step: nat) {
    predicate Within(x: nat) {
      min <= x <= max
    }

    predicate NeedsAlignment(x: nat) {
      !(step == 0 || IsAligned(x, step))
    }

    predicate Accepts(x: nat) {
      Within(x) && !NeedsAlignment(x)
    }

    /** The clamp and ALIGN of a dimension no frame accepts. */
    function Settle(x: nat): nat
      requires step <= WORD
    {
      var c := Clamp(x, min, max);
      if step != 0 then Align(c, step) else c
    }

    /** in_stepped_interval: point - min cannot be negative where it is computed. */
    predicate Stepped(point: nat) {
      && Within(point)
      && ((step == 0 && min == max == point) || (step != 0 && (point - min) % step == 0))
    }

    predicate InWord() {
      min < WORD && max < WORD && step < WORD
    }

    /** What a range is meant to be: ordered, with a power of two or nothing as its step. */
    ghost predicate Proper() {
      InWord() && min <= max && (step == 0 || IsPow2(step))
    }

    /** ... and reaching its maximum in whole steps. */
    ghost predicate Reaching() {
      Proper() && (step != 0 ==> max % step == 0)
    }

    /** ... and starting at a whole step, or consisting of one point. */
    ghost predicate Regular() {
      Reaching() && if step == 0 then min == max else min % step == 0
    }
  }

  /** The kernel's clamp: the lower bound first, then the upper. */
  function Clamp(x: nat, lo: nat, hi: nat): nat {
    var m := if x < lo then lo else x;
    if m > hi then hi else m
  }

  datatype Frame = Frame(width: Range, height: Range) {
    predicate Contains(w: nat, h: nat) {
      width.Within(w) && height.Within(h)
    }

    predicate Accepts(w: nat, h: nat) {
      width.Accepts(w) && height.Accepts(h)
    }

    predicate Stepped(w: nat, h: nat) {
      width.Stepped(w) && height.Stepped(h)
    }
  }

  // ---- one range ----

  /** With a power of two as step, the mask test is divisibility. */
  lemma NeedsAlignmentExact(r: Range, x: nat)
    requires r.Proper()
    ensures r.NeedsAlignment(x) <==> r.step != 0 && x % r.step != 0
  {
    if r.step != 0 { AlignedIsDivisible(x, r.step); }
  }

  lemma SettleIsCeiling(r: Range, x: nat)
    requires r.Reaching() && r.step != 0
    ensures var c := Clamp(x, r.min, r.max);
            r.Settle(x) == Ceiling(c, r.step) <= r.max
  {
    var c := Clamp(x, r.min, r.max);
    AlignIsCeiling(c, r.step);
    CeilingLeast(c, r.step, r.max);
    SmallMod(Ceiling(c, r.step), WORD);
  }

  /** A dimension that reaches its maximum in whole steps settles in range and aligned, leaves
      what it accepts alone, and moves what is merely in range up by less than a step. */
  lemma SettleLands(r: Range, x: nat)
    requires r.Reaching()
    ensures r.Accepts(r.Settle(x))
    ensures r.Accepts(x) ==> r.Settle(x) == x
    ensures r.Within(x) ==> x <= r.Settle(x) < x + Gap(r)
  {
    NeedsAlignmentExact(r, x);
    if r.step != 0 {
      SettleIsCeiling(r, x);
      NeedsAlignmentExact(r, r.Settle(x));
      if x % r.step == 0 && r.Within(x) { CeilingLeast(x, r.step, x); }
    }
  }

  /** ... to the nearest accepted value above. */
  lemma SettleNearest(r: Range, x: nat, y: nat)
    requires r.Reaching() && x <= y && r.Accepts(y)
    ensures r.Settle(x) <= y
  {
    NeedsAlignmentExact(r, y);
    if r.step != 0 {
      SettleIsCeiling(r, x);
      CeilingLeast(Clamp(x, r.min, r.max), r.step, y);
    }
  }

  /** The accepted value nearest to x: the least one that is not below x, or the largest of all
      if x is above the range. */
  ghost predicate Nearest(r: Range, x: nat, y: nat) {
    && r.Accepts(y)
    && if x > r.max then y == r.max else x <= y && forall z :: x <= z && r.Accepts(z) ==> y <= z
  }

  lemma SettleIsNearest(r: Range, x: nat)
    requires r.Reaching()
    ensures Nearest(r, x, r.Settle(x))
  {
    SettleLands(r, x);
    if r.step != 0 { SettleIsCeiling(r, x); }
    if x <= r.max {
      forall z | x <= z && r.Accepts(z)
        ensures r.Settle(x) <= z
      {
        SettleNearest(r, x, z);
      }
    }
  }

  /** The distance between neighbouring sizes; a step of 0 allows every size. */
  function Gap(r: Range): nat {
    if r.step == 0 then 1 else r.step
  }

  /** Every 32-bit request settles in range exactly when the maximum is a whole number of steps,
      or rounding it up overflows to a zero that happens to be allowed. */
  ghost predicate AlwaysInRange(r: Range)
    requires r.InWord()
  {
    forall x :: 0 <= x < WORD ==> r.Within(r.Settle(x))
  }

  lemma AlwaysInRangeExact(r: Range)
    requires r.Proper() && r.step != 0
    ensures AlwaysInRange(r) <==> r.max % r.step == 0 || (r.min == 0 && Ceiling(r.max, r.step) == WORD)
  {
    if r.max % r.step == 0 {
      forall x | 0 <= x < WORD
        ensures r.Within(r.Settle(x))
      {
        SettleLands(r, x);
      }
    } else if r.min == 0 && Ceiling(r.max, r.step) == WORD {
      forall x | 0 <= x < WORD
        ensures r.Within(r.Settle(x))
      {
        ZeroOrBelow(r, x);
      }
    } else {
      MaximumOvershoots(r);
    }
  }

  lemma SettleValue(r: Range, x: nat, c: nat)
    requires r.Proper() && r.step != 0 && c == Ceiling(Clamp(x, r.min, r.max), r.step)
    ensures c <= WORD && r.Settle(x) == if c == WORD then 0 else c
  {
    hide Ceiling, Align;
    AlignIsCeiling(Clamp(x, r.min, r.max), r.step);
    WordOrZero(c);
  }

  lemma WordOrZero(c: nat)
    requires c <= WORD
    ensures c % WORD == if c == WORD then 0 else c
  {
    if c < WORD { SmallMod(c, WORD); }
  }

  lemma MaximumOvershoots(r: Range)
    requires r.Proper() && r.step != 0 && r.max % r.step != 0
    ensures r.min != 0 || Ceiling(r.max, r.step) != WORD ==> !r.Within(r.Settle(r.max))
  {
    SettleValue(r, r.max, Ceiling(r.max, r.step));
  }

  /** Below the overflowing maximum there is no further multiple to land on. */
  lemma ZeroOrBelow(r: Range, x: nat)
    requires r.Proper() && r.step != 0 && r.min == 0 && Ceiling(r.max, r.step) == WORD
    ensures r.Within(r.Settle(x))
  {
    var c := Ceiling(Clamp(x, r.min, r.max), r.step);
    SettleValue(r, x, c);
    if c > r.max {
      CeilingLeast(r.max, r.step, c);
    }
  }

  // ---- agreement with the enumeration ----

  lemma SubMod(a: nat, b: nat, m: nat)
    requires m > 0 && b <= a && a % m == 0
    ensures (a - b) % m == 0 <==> b % m == 0
  {
    var q := a / m;
    assert a == q * m;
    if b % m == 0 {
      assert a - b == (q - b / m) * m by { assert b == b / m * m; }
      DivModUnique(a - b, m, q - b / m, 0);
    }
    if (a - b) % m == 0 {
      var p := (a - b) / m;
      assert b == (q - p) * m by { assert a - b == p * m; }
      DivModUnique(b, m, q - p, 0);
    }
  }

  /** A point the negotiation accepts is a point of the stepped interval exactly when the range
      is a single point or starts at a whole step. */
  lemma SteppedExact(r: Range, x: nat)
    requires r.Proper() && r.Accepts(x)
    ensures r.Stepped(x) <==> if r.step == 0 then r.min == r.max else r.min % r.step == 0
  {
    NeedsAlignmentExact(r, x);
    if r.step != 0 { SubMod(x, r.min, r.step); }
  }

  // ---- the frame list ----

  /** The frame the loop of try_fmt ends on: whether one accepts the size, and which; failing
      that the last one that contains it, or the one it started from. */
  function ChooseFrom(frames: seq<Frame>, w: nat, h: nat, i: nat, idx: nat): (bool, nat)
    requires i <= |frames|
    decreases |frames| - i
  {
    if i == |frames| then (false, idx)
    else if !frames[i].Contains(w, h) then ChooseFrom(frames, w, h, i + 1, idx)
    else if !frames[i].Accepts(w, h) then ChooseFrom(frames, w, h, i + 1, i)
    else (true, i)
  }

  ghost predicate SomeAccepts(frames: seq<Frame>, w: nat, h: nat) {
    exists i :: 0 <= i < |frames| && frames[i].Accepts(w, h)
  }

  lemma {:induction false} ChooseExact(frames: seq<Frame>, w: nat, h: nat, i: nat, idx: nat)
    requires i <= |frames| && idx < |frames|
    requires idx < i ==> forall j :: idx < j < i ==> !frames[j].Contains(w, h)
    requires forall j :: 0 <= j < i ==> !frames[j].Accepts(w, h)
    requires i == 0 ==> idx == 0
    requires 0 < i ==> idx < i && (frames[idx].Contains(w, h) || (idx == 0 && forall j :: 0 <= j < i ==> !frames[j].Contains(w, h)))
    ensures var (found, k) := ChooseFrom(frames, w, h, i, idx);
            && k < |frames| && (found <==> SomeAccepts(frames, w, h))
            && (found ==> frames[k].Accepts(w, h) && forall j :: 0 <= j < k ==> !frames[j].Accepts(w, h))
            && (!found ==> && (forall j :: k < j < |frames| ==> !frames[j].Contains(w, h))
                           && (frames[k].Contains(w, h) || (k == 0 && forall j :: 0 <= j < |frames| ==> !frames[j].Contains(w, h))))
    decreases |frames| - i
  {
    if i < |frames| {
      if !frames[i].Contains(w, h) { ChooseExact(frames, w, h, i + 1, idx); }
      else if !frames[i].Accepts(w, h) { ChooseExact(frames, w, h, i + 1, i); }
    }
  }

  datatype Fmt = Fmt(width: nat, height: nat, current: nat)

  /** virtio_video_try_fmt for a supported format. */
  function Negotiated(frames: seq<Frame>, w: nat, h: nat): Fmt
    requires frames != [] && AllWords(frames)
  {
    var (found, k) := ChooseFrom(frames, w, h, 0, 0);
    ChooseExact(frames, w, h, 0, 0);
    if found then Fmt(w, h, k) else Fmt(frames[k].width.Settle(w), frames[k].height.Settle(h), k)
  }

  ghost predicate AllWords(frames: seq<Frame>) {
    forall i :: 0 <= i < |frames| ==> frames[i].width.InWord() && frames[i].height.InWord()
  }

  ghost predicate AllReaching(frames: seq<Frame>) {
    forall i :: 0 <= i < |frames| ==> frames[i].width.Reaching() && frames[i].height.Reaching()
  }

  ghost predicate AllRegular(frames: seq<Frame>) {
    forall i :: 0 <= i < |frames| ==> frames[i].width.Regular() && frames[i].height.Regular()
  }

  /** The size returned is in range and aligned for the frame it makes current. */
  lemma TryFmtLands(frames: seq<Frame>, w: nat, h: nat)
    requires frames != [] && AllReaching(frames)
    ensures AllWords(frames)
    ensures var f := Negotiated(frames, w, h); f.current < |frames| && frames[f.current].Accepts(f.width, f.height)
  {
    var (found, k) := ChooseFrom(frames, w, h, 0, 0);
    ChooseExact(frames, w, h, 0, 0);
    SettleLands(frames[k].width, w);
    SettleLands(frames[k].height, h);
  }

  /** A size is left alone if and only if some frame accepts it, and then the first one that
      does becomes current. */
  lemma TryFmtUnchangedExact(frames: seq<Frame>, w: nat, h: nat)
    requires frames != [] && AllReaching(frames)
    ensures AllWords(frames)
    ensures var f := Negotiated(frames, w, h);
            && ((f.width, f.height) == (w, h) <==> SomeAccepts(frames, w, h))
            && (SomeAccepts(frames, w, h) ==>
                  && f.current < |frames| && frames[f.current].Accepts(w, h)
                  && forall j :: 0 <= j < f.current ==> !frames[j].Accepts(w, h))
  {
    TryFmtLands(frames, w, h);
    ChooseExact(frames, w, h, 0, 0);
  }

  /** A size that some frame contains but none accepts goes up, by less than a step, to the
      nearest size the last such frame accepts. */
  lemma TryFmtRoundsUp(frames: seq<Frame>, w: nat, h: nat)
    requires frames != [] && AllReaching(frames) && !SomeAccepts(frames, w, h)
    requires exists i :: 0 <= i < |frames| && frames[i].Contains(w, h)
    ensures AllWords(frames)
    ensures var f := Negotiated(frames, w, h);
            && f.current < |frames| && frames[f.current].Contains(w, h)
            && (forall j :: f.current < j < |frames| ==> !frames[j].Contains(w, h))
            && w <= f.width < w + Gap(frames[f.current].width) && h <= f.height < h + Gap(frames[f.current].height)
            && (forall y :: w <= y && frames[f.current].width.Accepts(y) ==> f.width <= y)
            && (forall y :: h <= y && frames[f.current].height.Accepts(y) ==> f.height <= y)
  {
    var (found, k) := ChooseFrom(frames, w, h, 0, 0);
    ChooseExact(frames, w, h, 0, 0);
    SettleLands(frames[k].width, w);
    SettleLands(frames[k].height, h);
    forall y | w <= y && frames[k].width.Accepts(y)
      ensures frames[k].width.Settle(w) <= y
    {
      SettleNearest(frames[k].width, w, y);
    }
    forall y | h <= y && frames[k].height.Accepts(y)
      ensures frames[k].height.Settle(h) <= y
    {
      SettleNearest(frames[k].height, h, y);
    }
  }

  /** Whatever the request, each dimension becomes the nearest one the current frame accepts;
      and a size no frame contains makes frame 0 current. */
  lemma TryFmtNearest(frames: seq<Frame>, w: nat, h: nat)
    requires frames != [] && AllReaching(frames)
    ensures AllWords(frames)
    ensures var f := Negotiated(frames, w, h);
            && f.current < |frames|
            && Nearest(frames[f.current].width, w, f.width) && Nearest(frames[f.current].height, h, f.height)
            && ((forall i :: 0 <= i < |frames| ==> !frames[i].Contains(w, h)) ==> f.current == 0)
  {
    var (found, k) := ChooseFrom(frames, w, h, 0, 0);
    ChooseExact(frames, w, h, 0, 0);
    SettleIsNearest(frames[k].width, w);
    SettleIsNearest(frames[k].height, h);
  }

  /** Asking again for the size returned returns it again. */
  lemma TryFmtIdempotent(frames: seq<Frame>, w: nat, h: nat)
    requires frames != [] && AllReaching(frames)
    ensures AllWords(frames)
    ensures var f := Negotiated(frames, w, h); var g := Negotiated(frames, f.width, f.height);
            (g.width, g.height) == (f.width, f.height)
  {
    TryFmtLands(frames, w, h);
    var f := Negotiated(frames, w, h);
    TryFmtUnchangedExact(frames, f.width, f.height);
  }

  ghost predicate Enumerable(frames: seq<Frame>, w: nat, h: nat) {
    exists i :: 0 <= i < |frames| && frames[i].Stepped(w, h)
  }

  /** The enumeration of frame intervals finds a frame for every size negotiated. */
  lemma NegotiatedIsEnumerable(frames: seq<Frame>, w: nat, h: nat)
    requires frames != [] && AllRegular(frames)
    ensures AllWords(frames)
    ensures var f := Negotiated(frames, w, h); Enumerable(frames, f.width, f.height)
  {
    TryFmtLands(frames, w, h);
    var f := Negotiated(frames, w, h);
    var k := f.current;
    SteppedExact(frames[k].width, f.width);
    SteppedExact(frames[k].height, f.height);
    assert frames[k].Stepped(f.width, f.height);
  }

  /** Every 32-bit request for a format of one frame is made enumerable. */
  ghost predicate AlwaysEnumerable(f: Frame)
    requires AllWords([f])
  {
    forall w, h :: 0 <= w < WORD && 0 <= h < WORD ==>
      var n := Negotiated([f], w, h); Enumerable([f], n.width, n.height)
  }

  /** ... exactly when both of its ranges are regular. */
  lemma AlwaysEnumerableExact(f: Frame)
    requires AllReaching([f])
    ensures AllWords([f])
    ensures AlwaysEnumerable(f) <==> f.width.Regular() && f.height.Regular()
  {
    assert [f][0].width.Reaching() && [f][0].height.Reaching();
    if f.width.Regular() && f.height.Regular() {
      forall w, h | 0 <= w < WORD && 0 <= h < WORD
        ensures var n := Negotiated([f], w, h); Enumerable([f], n.width, n.height)
      {
        NegotiatedIsEnumerable([f], w, h);
      }
    }
    if AlwaysEnumerable(f) {
      LargestIsAccepted(f);
      var n := Negotiated([f], f.width.max, f.height.max);
      assert Enumerable([f], n.width, n.height);
      SteppedExact(f.width, f.width.max);
      SteppedExact(f.height, f.height.max);
    }
  }

  lemma LargestIsAccepted(f: Frame)
    requires AllReaching([f]) && AllWords([f])
    ensures f.Accepts(f.width.max, f.height.max)
    ensures var n := Negotiated([f], f.width.max, f.height.max); (n.width, n.height) == (f.width.max, f.height.max)
  {
    assert [f][0].width.Reaching() && [f][0].height.Reaching();
    NeedsAlignmentExact(f.width, f.width.max);
    NeedsAlignmentExact(f.height, f.height.max);
    assert [f][0].Accepts(f.width.max, f.height.max);
    TryFmtUnchangedExact([f], f.width.max, f.height.max);
  }

  // ---- the methods ----

  datatype Outcome = Accepted | EIO | EINVAL

  /** struct v4l2_pix_format_mplane, as far as it matters. */
  class PixFormat {
    var width: nat
    var height: nat
  }

  /** The fields of a stream that format negotiation touches. */
  class FormatStream {
    var state: SS.State
    var currentFrame: Option<Frame>
    var info: (nat, nat)

    /** virtio_video_try_fmt; `known` is what the search of the format list found, `video` says
        that the buffer type is one of the two video types. A format without frames has its
        first frame read all the same; the model stops there. */
    method TryFmt(known: Option<seq<Frame>>, video: bool, pix: PixFormat) returns (r: Outcome, readsPast: bool)
      requires known.Some? ==> AllWords(known.value)
      modifies this`currentFrame, pix
      ensures r == if state == SS.Error then EIO else if known == None && !video then EINVAL else Accepted
      ensures readsPast <==> r == Accepted && known == Some([])
      ensures r != Accepted || readsPast ==> (pix.width, pix.height, currentFrame) == old((pix.width, pix.height, currentFrame))
      ensures r == Accepted && known == None ==> (pix.width, pix.height) == info && currentFrame == old(currentFrame)
      ensures r == Accepted && known.Some? && !readsPast ==>
                var f := Negotiated(known.value, old(pix.width), old(pix.height));
                (pix.width, pix.height) == (f.width, f.height) && f.current < |known.value| && currentFrame == Some(known.value[f.current])
    {
      if state == SS.Error {
        return EIO, false;
      }
      if known == None {
        if !video {
          return EINVAL, false;
        }
        pix.width, pix.height := info.0, info.1;
        return Accepted, false;
      }
      var frames := known.value;
      if frames == [] {
        return Accepted, true;
      }
      ghost var w, h := pix.width, pix.height;
      ChooseExact(frames, w, h, 0, 0);
      var i, idx, found := 0, 0, false;
      while i < |frames| && !found
        invariant i <= |frames| && idx < |frames|
        invariant (pix.width, pix.height) == (w, h)
        invariant found ==> ChooseFrom(frames, w, h, 0, 0) == (true, idx) && currentFrame == Some(frames[idx])
        invariant !found ==> ChooseFrom(frames, w, h, 0, 0) == ChooseFrom(frames, w, h, i, idx)
        invariant !found ==> currentFrame == old(currentFrame)
      {
        var frame := frames[i];
        i := i + 1;
        if !frame.width.Within(pix.width) {
          continue;
        }
        if !frame.height.Within(pix.height) {
          continue;
        }
        idx := i - 1;
        if frame.width.NeedsAlignment(pix.width) {
          continue;
        }
        if frame.height.NeedsAlignment(pix.height) {
          continue;
        }
        currentFrame := Some(frame);
        found := true;
      }
      if !found {
        var frame := frames[idx];
        pix.width := Clamp(pix.width, frame.width.min, frame.width.max);
        if frame.width.step != 0 {
          pix.width := Align(pix.width, frame.width.step);
        }
        pix.height := Clamp(pix.height, frame.height.min, frame.height.max);
        if frame.height.step != 0 {
          pix.height := Align(pix.height, frame.height.step);
        }
        currentFrame := Some(frame);
      }
      return Accepted, false;
    }
  }

  /** The search of virtio_video_enum_framemintervals. Its guard admits the index one past the
      last frame, so without a match it reads beyond the frames; the model stops there. */
  method SearchFrame(frames: seq<Frame>, w: nat, h: nat) returns (idx: nat, readsPast: bool)
    ensures readsPast <==> !Enumerable(frames, w, h)
    ensures !readsPast ==> idx < |frames| && frames[idx].Stepped(w, h) && forall j :: 0 <= j < idx ==> !frames[j].Stepped(w, h)
  {
    idx, readsPast := 0, false;
    while idx <= |frames|
      invariant idx <= |frames| && !readsPast
      invariant forall j :: 0 <= j < idx ==> !frames[j].Stepped(w, h)
    {
      if idx == |frames| {
        readsPast := true;
        break;
      }
      if frames[idx].Stepped(w, h) {
        break;
      }
      idx := idx + 1;
    }
  }

  /** Without regularity the agreement fails: 24x24 is what try_fmt makes of 17x17 when sizes go
      from 12 to 32 in steps of 8, but 24 - 12 is no whole number of steps. */
  lemma IrregularIsNotEnumerable()
    ensures var frames := [Frame(Range(12, 32, 8), Range(12, 32, 8))];
            AllReaching(frames) && AllWords(frames)
            && (var f := Negotiated(frames, 17, 17); (f.width, f.height) == (24, 24) && !Enumerable(frames, 24, 24))
  {
    var frames := [Frame(Range(12, 32, 8), Range(12, 32, 8))];
    assert Pow2(3) == 8;
    assert AllReaching(frames);
    NeedsAlignmentExact(frames[0].width, 17);
    AlignIsCeiling(17, 8);
    assert frames[0].Contains(17, 17) && !frames[0].Accepts(17, 17);
    assert ChooseFrom(frames, 17, 17, 0, 0) == ChooseFrom(frames, 17, 17, 1, 0) == (false, 0);
    assert Ceiling(17, 8) == 24;
  }
}

/** Frame-interval arithmetic of virtio_video_enc_s_parm: two integer divisions by do_div, whose
    divisor is cut to 32 bits. */
module FrameRate {
  import opened Masks
  import opened Sequences
  import opened FormatNegotiation
  import SS = StreamState

  const USEC_PER_SEC: nat := 1000000

  /** do_div: None stands for a division by zero. */
  function DoDiv(n: nat, base: nat): Option<nat> {
    if base % WORD == 0 then None else Some(n / (base % WORD))
  }

  datatype Interval = Interval(numerator: nat, denominator: nat)

  datatype Computed = Traps | Invalid | Rate(fps: nat)

  /** The rate computed from a requested interval. */
  function RateOf(tpf: Interval): Computed {
    var fi := DoDiv(tpf.numerator * USEC_PER_SEC, tpf.denominator);
    if fi.None? then Traps
    else if fi.value == 0 then Invalid
    else
      var rate := DoDiv(USEC_PER_SEC, fi.value);
      if rate.None? then Traps else Rate(rate.value)
  }

  // ---- division ----

  /** x / a is the largest q with q * a <= x. */
  lemma QuotientBounds(x: nat, a: nat)
    requires a > 0
    ensures x / a * a <= x < (x / a + 1) * a
  {
    assert x == x / a * a + x % a;
  }

  lemma QuotientIs(x: nat, a: nat, q: nat)
    requires a > 0
    ensures q <= x / a <==> q * a <= x
  {
    QuotientBounds(x, a);
    MulMono(q, x / a, a);
    MulMono(x / a + 1, q, a);
  }

  /** A quotient by a quotient: with f = m / k, m / f is the largest j whose quotient is f. */
  lemma QuotientOfQuotient(m: nat, k: nat)
    requires k > 0 && m / k > 0
    ensures k <= m / (m / k)
    ensures m / (m / k) == k <==> m / (k + 1) < m / k
  {
    var f := m / k;
    QuotientIs(m, f, k);
    QuotientIs(m, f, k + 1);
    QuotientIs(m, k, f);
    QuotientIs(m, k + 1, f);
    assert k * f == f * k && (k + 1) * f == f * (k + 1);
  }

  lemma PositiveProduct(n: nat, k: nat)
    requires n > 0 && k > 0
    ensures n * k > 0
  {
    MulMono(1, n, k);
  }

  lemma PositiveBelow(r: nat, k: nat, n: nat)
    requires r < k && n > 0
    ensures 0 <= n * r < n * k
  {
    MulMono(r + 1, k, n);
    assert (r + 1) * n == n * r + n;
  }

  lemma Distribute(n: nat, q: nat, k: nat, r: nat)
    ensures n * (q * k + r) == q * (n * k) + n * r
  {
    assert n * (q * k) == q * (n * k);
  }

  lemma CancelQuotient(n: nat, k: nat, m: nat)
    requires n > 0 && k > 0
    ensures n * k > 0 && (n * m) / (n * k) == m / k
  {
    var q, r := m / k, m % k;
    PositiveProduct(n, k);
    PositiveBelow(r, k, n);
    Distribute(n, q, k, r);
    DivModUnique(n * m, n * k, q, n * r);
  }

  // ---- what the rate means ----

  /** An interval is refused exactly when it is shorter than a microsecond. */
  lemma InvalidExact(tpf: Interval)
    requires 0 < tpf.denominator < WORD
    ensures RateOf(tpf).Invalid? <==> tpf.numerator * USEC_PER_SEC < tpf.denominator
  {
    SmallMod(tpf.denominator, WORD);
    QuotientIs(tpf.numerator * USEC_PER_SEC, tpf.denominator, 1);
  }

  /** A rate is no lower than the one asked for, whatever the 32-bit divisor made of a long
      interval: an interval too long for it asks for less than one frame a second. */
  lemma RateAtLeastAsked(tpf: Interval)
    requires 0 < tpf.numerator && 0 < tpf.denominator < WORD
    requires RateOf(tpf).Rate?
    ensures RateOf(tpf).fps >= tpf.denominator / tpf.numerator
  {
    var n, d := tpf.numerator, tpf.denominator;
    var fi, k := n * USEC_PER_SEC / d, d / n;
    SmallMod(d, WORD);
    AtLeastAsked(n, d, fi, k);
    if fi < WORD {
      SmallMod(fi, WORD);
      QuotientIs(USEC_PER_SEC, fi, k);
    } else {
      MulMono(1, k, fi);
    }
  }

  /** The driver divides by zero exactly when the interval has no denominator, or lasts a
      positive multiple of 2^32 microseconds. */
  lemma TrapsExact(tpf: Interval)
    requires tpf.denominator < WORD
    ensures RateOf(tpf).Traps? <==>
              tpf.denominator == 0 ||
              var fi := tpf.numerator * USEC_PER_SEC / tpf.denominator; fi > 0 && fi % WORD == 0
  {
    SmallMod(tpf.denominator, WORD);
  }

  /** The 32-bit divisor gives the right rate exactly for the intervals that fit it, and for
      those whose low 32 bits are themselves longer than a second, when the rate is 0. */
  lemma RightRateExact(tpf: Interval)
    requires 0 < tpf.denominator < WORD
    requires tpf.numerator * USEC_PER_SEC / tpf.denominator > 0
    ensures var fi := tpf.numerator * USEC_PER_SEC / tpf.denominator;
            RateOf(tpf) == Rate(USEC_PER_SEC / fi) <==> fi < WORD || fi % WORD > USEC_PER_SEC
  {
    SmallMod(tpf.denominator, WORD);
    var fi := tpf.numerator * USEC_PER_SEC / tpf.denominator;
    DivisorCut(fi);
  }

  lemma ZeroQuotient(m: nat, a: nat)
    requires a > 0
    ensures m / a == 0 <==> m < a
  {
    QuotientIs(m, a, 1);
    QuotientIs(m, a, 0);
  }

  lemma DivisorCut(fi: nat)
    requires fi > 0
    ensures DoDiv(USEC_PER_SEC, fi) == Some(USEC_PER_SEC / fi) <==> fi < WORD || fi % WORD > USEC_PER_SEC
  {
    if fi < WORD {
      SmallMod(fi, WORD);
    } else {
      ZeroQuotient(USEC_PER_SEC, fi);
      assert USEC_PER_SEC / fi == 0;
      CutQuotient(fi);
    }
  }

  lemma CutQuotient(fi: nat)
    ensures DoDiv(USEC_PER_SEC, fi) == Some(0) <==> fi % WORD > USEC_PER_SEC
  {
    if fi % WORD != 0 {
      ZeroQuotient(USEC_PER_SEC, fi % WORD);
    }
  }

  lemma AtLeastAsked(n: nat, d: nat, fi: nat, k: nat)
    requires n > 0 && d > 0 && fi == n * USEC_PER_SEC / d && k == d / n
    ensures k * fi <= USEC_PER_SEC
  {
    QuotientBounds(n * USEC_PER_SEC, d);
    QuotientBounds(d, n);
    // k * n <= d and fi * d <= n * 10^6, so (k * fi) * n <= fi * d <= 10^6 * n
    MulMono(k * n, d, fi);
    assert (k * n) * fi == (k * fi) * n;
    assert d * fi == fi * d;
    MulMono(USEC_PER_SEC + 1, k * fi, n);
    assert (USEC_PER_SEC + 1) * n == n * USEC_PER_SEC + n;
  }

  /** Asking for exactly k frames a second, in whatever terms, gives k if and only if k and
      k + 1 frames a second have different intervals in whole microseconds. */
  lemma WholeRateExact(n: nat, k: nat)
    requires n > 0 && 0 < k <= USEC_PER_SEC && n * k < WORD
    ensures RateOf(Interval(n, n * k)).Rate? && RateOf(Interval(n, n * k)).fps >= k
    ensures RateOf(Interval(n, n * k)) == Rate(k) <==> USEC_PER_SEC / (k + 1) < USEC_PER_SEC / k
  {
    CancelQuotient(n, k, USEC_PER_SEC);
    SmallMod(n * k, WORD);
    QuotientIs(USEC_PER_SEC, k, 1);
    QuotientAtMost(USEC_PER_SEC, k);
    SmallMod(USEC_PER_SEC / k, WORD);
    QuotientOfQuotient(USEC_PER_SEC, k);
  }

  lemma QuotientAtMost(x: nat, a: nat)
    requires a > 0
    ensures x / a <= x
  {
    QuotientIs(x, a, x + 1);
    MulMono(1, a, x + 1);
  }

  /** For rates up to 999 that is always so. */
  lemma LowRatesAreWhole(k: nat)
    requires 0 < k && k * (k + 1) <= USEC_PER_SEC
    ensures USEC_PER_SEC / (k + 1) < USEC_PER_SEC / k
  {
    // q (k+1) <= m and q >= k give (q+1) k <= q k + q <= m
    var m := USEC_PER_SEC;
    var q := m / (k + 1);
    QuotientBounds(m, k + 1);
    QuotientIs(m, k + 1, k);
    QuotientIs(m, k, q + 1);
    assert (q + 1) * k == q * (k + 1) - q + k;
  }

  /** The bound is not sharp: 1000 frames a second come out right, though 1000 * 1001 exceeds a
      million, while 1500 turn into 1501. */
  lemma NotOnlyLowRates()
    ensures 1000 * 1001 > USEC_PER_SEC && RateOf(Interval(1, 1000)) == Rate(1000)
    ensures RateOf(Interval(1, 1500)) == Rate(1501)
  {
  }

  /** Both ways to go wrong happen: an interval of exactly 2^32 microseconds divides by zero,
      one of a microsecond more gives a million frames a second. */
  lemma LongIntervalsGoWrong()
    ensures RateOf(Interval(0x1_0000_0000 / 64, 15625)) == Traps
    ensures RateOf(Interval(4294963003, 999999)) == Rate(1000000)
  {
    TrapsExact(Interval(0x1_0000_0000 / 64, 15625));
    RightRateExact(Interval(4294963003, 999999));
  }

  /** Setting the interval that getting reports changes nothing: every rate the driver has
      computed, but 0, is computed again from its own interval. */
  lemma ReportedRateRoundTrips(tpf: Interval)
    requires RateOf(tpf).Rate? && RateOf(tpf).fps > 0
    ensures RateOf(Interval(1, RateOf(tpf).fps)) == RateOf(tpf)
  {
    var fi := tpf.numerator * USEC_PER_SEC / (tpf.denominator % WORD);
    var b := fi % WORD;
    var k := USEC_PER_SEC / b;
    assert RateOf(tpf).fps == k;
    QuotientAtMost(USEC_PER_SEC, b);
    // b <= m / k, and k + 1 is too much for b
    QuotientIs(USEC_PER_SEC, b, k);
    QuotientIs(USEC_PER_SEC, b, k + 1);
    QuotientIs(USEC_PER_SEC, k, b);
    QuotientIs(USEC_PER_SEC, k + 1, b);
    assert k * b == b * k && (k + 1) * b == b * (k + 1);
    WholeRateExact(1, k);
  }

  // ---- the ioctl ----

  /** Some rate range of the frame contains the rate. */
  ghost predicate Offered(rates: seq<Range>, fps: nat) {
    exists i :: 0 <= i < |rates| && rates[i].Within(fps)
  }

  /** The fields of an encoder stream that setting the frame rate touches. */
  class EncoderStream {
    var state: SS.State
    var rates: Option<seq<Range>>
    var frameRate: nat

    /** virtio_video_enc_try_framerate */
    method TryFramerate(fps: nat) returns (ok: bool)
      ensures ok <==> rates.Some? && Offered(rates.value, fps)
    {
      if rates == None {
        return false;
      }
      for i := 0 to |rates.value|
        invariant forall j :: 0 <= j < i ==> !rates.value[j].Within(fps)
      {
        if rates.value[i].Within(fps) {
          return true;
        }
      }
      return false;
    }

    /** virtio_video_enc_s_parm on the output queue, up to a division by zero; `echo` is the
        rate the host then reports for the stream. */
    method SetParm(tpf: Interval, echo: nat) returns (r: Outcome, trapped: bool, sent: Option<nat>, reported: Interval)
      modifies this`frameRate
      ensures trapped <==> state != SS.Error && RateOf(tpf).Traps?
      ensures sent.Some? <==> state != SS.Error && RateOf(tpf).Rate? && rates.Some? && Offered(rates.value, RateOf(tpf).fps)
      ensures sent.Some? ==> r == Accepted && sent.value == RateOf(tpf).fps && frameRate == echo && reported == Interval(1, echo)
      ensures sent.None? ==> frameRate == old(frameRate) && reported == tpf
      ensures !trapped && sent.None? ==> r == if state == SS.Error then EIO else EINVAL
    {
      r, trapped, sent, reported := EINVAL, false, None, tpf;
      if state == SS.Error {
        r := EIO;
        return;
      }
      var frameInterval := tpf.numerator * USEC_PER_SEC;
      var q := DoDiv(frameInterval, tpf.denominator);
      if q == None {
        trapped := true;
        return;
      }
      frameInterval := q.value;
      if frameInterval == 0 {
        return;
      }
      var frameRateAsked := USEC_PER_SEC;
      q := DoDiv(frameRateAsked, frameInterval);
      if q == None {
        trapped := true;
        return;
      }
      frameRateAsked := q.value;
      var ok := TryFramerate(frameRateAsked);
      if !ok {
        return;
      }
      r, sent := Accepted, Some(frameRateAsked);
      frameRate := echo;
      reported := Interval(1, frameRate);
    }
  }
}

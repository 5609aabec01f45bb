/** The time base in which an audio decoder keeps its clock: fine enough for every sample rate
    seen so far, so that a change of rate loses nothing. */
module AudioTimebase {
  import opened Arithmetic
  import opened Timestamps

  const INT_MAX: int := 0x7FFF_FFFF

  /** The time base taken when no common one fits an `int`. */
  const FALLBACK: Positive := 28224000

  datatype Frame = Frame(rate: Positive, samples: nat, pts: int, tb: TimeBase)

  /** The frame as it leaves for the filters, in a time base of one sample. */
  datatype Output = Output(pts: int, duration: nat, tb: TimeBase)

  /** The decoder's clock: the last frame's start and duration in units of 1/den. */
  datatype Clock = Clock(den: Positive, rate: nat, pts: int, est: int)

  const START: Clock := Clock(1, 0, AV_NOPTS_VALUE, 0)

  predicate FallsBack(prev: Positive, rate: Positive) {
    prev / Gcd(prev, rate) >= INT_MAX / rate
  }

  function Common(prev: Positive, rate: Positive): Positive {
    LcmFacts(prev, rate);
    if FallsBack(prev, rate) then FALLBACK else Lcm(prev, rate)
  }

  function NewDen(prev: Positive, f: Frame): Positive {
    var d := Common(prev, f.rate);
    if f.tb.num == 1 && f.tb.den > d && Divides(d, f.tb.den) then f.tb.den else d
  }

  function Updated(c: Clock, f: Frame): Clock {
    if f.rate == c.rate then c
    else
      var den := NewDen(c.den, f);
      Clock(den, f.rate, if c.pts == AV_NOPTS_VALUE then c.pts
          else Rescale(c.pts, c.den, den), Rescale(c.est, c.den, den))
  }

  function Prediction(c: Clock): int {
    if c.pts == AV_NOPTS_VALUE then 0 else c.pts + c.est
  }

  /** The clock after a frame that starts at `start`. */
  function Advanced(c: Clock, f: Frame, start: int): Clock {
    Updated(c, f).(pts := start, est := Rescale(f.samples, f.rate, Updated(c, f).den))
  }

  /** The frame that starts at `start` on the clock, in a time base of one sample. */
  function Outgoing(den: Positive, f: Frame, start: int): Output {
    Output(Rescale(start, den, f.rate), f.samples, TimeBase(1, f.rate))
  }

  class DecoderPriv {
    var lastFrameTb: TimeBase
    var lastFrameSampleRate: nat
    var lastFramePts: int
    var lastFrameDurationEst: int

    predicate Valid()
      reads this
    {
      lastFrameTb.num == 1
    }

    function Now(): Clock
      reads this
    {
      Clock(lastFrameTb.den, lastFrameSampleRate, lastFramePts, lastFrameDurationEst)
    }

    constructor ()
      ensures Valid() && Now() == START
    {
      lastFrameTb, lastFrameSampleRate := TimeBase(1, 1), 0;
      lastFramePts, lastFrameDurationEst := AV_NOPTS_VALUE, 0;
    }

    /** `audio_samplerate_update`. */
    method AudioSamplerateUpdate(f: Frame) returns (tb: TimeBase)
      requires Valid()
      modifies this
      ensures Valid() && tb == lastFrameTb
      ensures Now() == Updated(old(Now()), f)
    {
      if f.rate == lastFrameSampleRate {
        return lastFrameTb;
      }
      var prev := lastFrameTb.den;
      var gcd := Gcd(prev, f.rate);
      LcmFacts(prev, f.rate);
      var tbNew;
      if prev / gcd >= INT_MAX / f.rate {
        tbNew := TimeBase(1, 28224000);
      } else {
        tbNew := TimeBase(1, prev / gcd * f.rate);
      }
      if f.tb.num == 1 && f.tb.den > tbNew.den && f.tb.den % tbNew.den == 0 {
        tbNew := f.tb;
      }
      if lastFramePts != AV_NOPTS_VALUE {
        lastFramePts := Rescale(lastFramePts, lastFrameTb.den, tbNew.den);
      }
      lastFrameDurationEst := Rescale(lastFrameDurationEst, lastFrameTb.den, tbNew.den);
      lastFrameTb, lastFrameSampleRate := tbNew, f.rate;
      tb := lastFrameTb;
    }

    /** `audio_ts_process`. What `av_rescale_delta` makes of the frame's timestamp in the clock's
        time base is given, except that it keeps a timestamp that already is in that base. */
    method AudioTsProcess(f: Frame, delta: int) returns (out: Output)
      requires Valid()
      modifies this
      ensures Valid()
      ensures var start := if f.pts == AV_NOPTS_VALUE then Prediction(Updated(old(Now()), f)) else delta;
        && Now() == Advanced(old(Now()), f, start)
        && out == Outgoing(lastFrameTb.den, f, start)
    {
      var tb := AudioSamplerateUpdate(f);
      var ptsPred := if lastFramePts == AV_NOPTS_VALUE then 0 else lastFramePts + lastFrameDurationEst;
      var pts := delta;
      if f.pts == AV_NOPTS_VALUE {
        pts := ptsPred;
      }
      lastFramePts := pts;
      lastFrameDurationEst := Rescale(f.samples, f.rate, tb.den);
      out := Output(Rescale(pts, tb.den, f.rate), f.samples, TimeBase(1, f.rate));
    }
  }

  // ----- one change of rate

  lemma NewDenCovers(prev: Positive, f: Frame)
    requires !FallsBack(prev, f.rate)
    ensures Divides(prev, NewDen(prev, f)) && Divides(f.rate, NewDen(prev, f))
    ensures f.tb.den <= INT_MAX ==> NewDen(prev, f) <= INT_MAX
  {
    LcmFacts(prev, f.rate);
    var d := Common(prev, f.rate);
    Within(prev / Gcd(prev, f.rate), f.rate);
    if NewDen(prev, f) != d {
      DividesTrans(prev, d, f.tb.den);
      DividesTrans(f.rate, d, f.tb.den);
    }
  }

  lemma Within(u: nat, rate: Positive)
    ensures u >= INT_MAX / rate <==> u * rate >= INT_MAX - INT_MAX % rate
    ensures u < INT_MAX / rate ==> u * rate <= INT_MAX
  {
    var m := INT_MAX;
    WholeMultiples(u, m / rate, rate);
    assert m == rate * (m / rate) + m % rate;
  }

  lemma WholeMultiples(u: nat, t: int, rate: Positive)
    ensures u >= t <==> u * rate >= rate * t
    ensures u < t ==> u * rate < rate * t
  {
    if u >= t {
      Scaled(u - t, rate);
    } else {
      Scaled(t - u - 1, rate);
    }
    assert rate * (u - t) == u * rate - rate * t;
  }

  lemma Scaled(n: nat, rate: Positive)
    ensures rate * n >= 0 && rate * (n + 1) == rate * n + rate && rate * -(n + 1) == -(rate * (n + 1))
  {
  }

  /** The fallback is taken exactly when the least common multiple is at least the greatest
      multiple of the rate that fits an `int`. */
  lemma FallsBackIff(prev: Positive, rate: Positive)
    ensures FallsBack(prev, rate) <==> Lcm(prev, rate) >= INT_MAX - INT_MAX % rate
  {
    LcmFacts(prev, rate);
    Within(prev / Gcd(prev, rate), rate);
  }

  /** Rescaling keeps the instant exactly when the new time base can express it. */
  lemma RescaleExactIff(ts: int, from: Positive, to: Positive)
    ensures Rescale(ts, from, to) as real / to as real == ts as real / from as real <==> Divides(from, ts * to)
  {
    if Divides(from, ts * to) {
      var q := Quotient(from, ts * to);
      NearestExact(q, from);
      CrossMultiply(q, to, ts, from);
    } else if Rescale(ts, from, to) as real / to as real == ts as real / from as real {
      CrossMultiply(Rescale(ts, from, to), to, ts, from);
      MultipleOf(from, Rescale(ts, from, to));
      assert false;
    }
  }

  /** A frame's own time base 1/den is taken up if it is a multiple of the one that the rates need;
      then its timestamps are kept as they are. */
  lemma OwnTimestampExact(prev: Positive, f: Frame)
    requires !FallsBack(prev, f.rate) && f.tb.num == 1
    requires Divides(prev, f.tb.den) && Divides(f.rate, f.tb.den)
    ensures NewDen(prev, f) == f.tb.den
    ensures Rescale(f.pts, f.tb.den, NewDen(prev, f)) == f.pts
  {
    LcmFacts(prev, f.rate);
    LcmIsLeast(prev, f.rate, f.tb.den);
    var l := Lcm(prev, f.rate);
    var q := Quotient(l, f.tb.den);
    assert q >= 1 && l <= l * q;
    NearestExact(f.pts, f.tb.den);
  }

  /** And no other: the denominator is the least common multiple or the frame's own. */
  lemma NewDenIs(prev: Positive, f: Frame)
    requires !FallsBack(prev, f.rate)
    ensures NewDen(prev, f) == Lcm(prev, f.rate) || (f.tb.num == 1 && NewDen(prev, f) == f.tb.den > Lcm(prev, f.rate))
  {
  }

  /** The frame leaves with a timestamp no more than half a sample away from its instant, and in
      its own length. */
  lemma OutputIsNear(den: Positive, f: Frame, start: int)
    ensures var out := Outgoing(den, f, start);
      && out.tb == TimeBase(1, f.rate) && out.duration == f.samples
      && -0.5 <= (Instant(out.pts, f.rate) - Instant(start, den)) * f.rate as real <= 0.5
  {
    NearestIsNear(start * f.rate, den);
    Scale(Rescale(start, den, f.rate), f.rate, start, den);
  }

  lemma Scale(out: int, rate: Positive, start: int, den: Positive)
    requires -(den as int) <= 2 * (den * out - start * rate) <= den
    ensures -0.5 <= (Instant(out, rate) - Instant(start, den)) * rate as real <= 0.5
  {
    var x := (Instant(out, rate) - Instant(start, den)) * rate as real;
    var q := Instant(start, den);
    assert q * den as real == start as real;
    assert Instant(out, rate) * rate as real == out as real;
    assert x == out as real - q * rate as real;
    assert x * den as real == (out * den) as real - (start * rate) as real;
    assert (out * den) as real - (start * rate) as real == (den * out - start * rate) as real;
    Bounded(x, den, den * out - start * rate);
  }

  lemma Bounded(x: real, den: Positive, y: int)
    requires x * den as real == y as real && -(den as int) <= 2 * y <= den
    ensures -0.5 <= x <= 0.5
  {
    var d := den as real;
    assert (x - 0.5) * d == y as real - 0.5 * d && (-0.5 - x) * d == -0.5 * d - y as real;
    NotAbove(x - 0.5, d);
    NotAbove(-0.5 - x, d);
  }

  lemma NotAbove(a: real, d: real)
    requires d > 0.0 && a * d <= 0.0
    ensures a <= 0.0
  {
    assert a > 0.0 ==> a * d > 0.0;
  }

  lemma CrossMultiply(x: int, a: Positive, y: int, b: Positive)
    ensures x as real / a as real == y as real / b as real <==> b * x == y * a
  {
    var p, q := x as real / a as real, y as real / b as real;
    assert p * a as real == x as real && q * b as real == y as real;
    assert (b * x) as real == b as real * x as real && (y * a) as real == y as real * a as real;
    assert b as real * x as real == (a as real * b as real) * p;
    assert y as real * a as real == (a as real * b as real) * q;
    if p * (a as real * b as real) == q * (a as real * b as real) {
      assert (p - q) * (a as real * b as real) == 0.0;
    }
  }

  // ----- whole runs

  /** A run of frames, each with the timestamp it was given or ended up with. */
  function After(frames: seq<(Frame, int)>): Clock
    decreases |frames|
  {
    if frames == [] then START
    else
      var (f, start) := frames[|frames| - 1];
      Advanced(After(frames[..|frames| - 1]), f, start)
  }

  /** No change of rate in the run has needed the fallback. */
  predicate NeverFellBack(frames: seq<(Frame, int)>)
    decreases |frames|
  {
    frames == [] ||
    var front := frames[..|frames| - 1];
    var f := frames[|frames| - 1].0;
    NeverFellBack(front) && (f.rate == After(front).rate || !FallsBack(After(front).den, f.rate))
  }

  /** Until the fallback is taken, the time base is fine enough for every rate seen, and fits
      an `int`. */
  lemma {:induction false} CoversEveryRate(frames: seq<(Frame, int)>)
    requires NeverFellBack(frames) && forall f | f in frames :: f.0.tb.den <= INT_MAX
    ensures After(frames).den <= INT_MAX
    ensures forall f | f in frames :: Divides(f.0.rate, After(frames).den)
    ensures frames != [] ==> After(frames).rate == frames[|frames| - 1].0.rate
    decreases |frames|
  {
    if frames != [] {
      var front, last := frames[..|frames| - 1], frames[|frames| - 1];
      assert frames == front + [last] && last in frames && forall f | f in front :: f in frames;
      CoversEveryRate(front);
      var before, den := After(front).den, After(frames).den;
      if last.0.rate != After(front).rate {
        NewDenCovers(before, last.0);
        forall f | f in front
          ensures Divides(f.0.rate, den)
        {
          DividesTrans(f.0.rate, before, den);
        }
      } else {
        assert front != [] && front[|front| - 1] in front;
      }
    }
  }

  /** No change of rate in the run has taken up the frame's own time base. */
  predicate NeverAdopted(frames: seq<(Frame, int)>)
    decreases |frames|
  {
    frames == [] ||
    var front := frames[..|frames| - 1];
    var f := frames[|frames| - 1].0;
    NeverAdopted(front) && (f.rate == After(front).rate ||
        NewDen(After(front).den, f) == Common(After(front).den, f.rate))
  }

  /** And it is no finer than that, unless a frame's own time base was: it divides every common
      multiple of the rates. */
  lemma {:induction false} NoFinerThanNeeded(frames: seq<(Frame, int)>, m: int)
    requires NeverFellBack(frames) && NeverAdopted(frames) && forall f | f in frames :: Divides(f.0.rate, m)
    ensures Divides(After(frames).den, m)
    decreases |frames|
  {
    if frames == [] {
      MultipleOf(1, m);
    } else {
      var front, last := frames[..|frames| - 1], frames[|frames| - 1];
      assert last in frames && forall f | f in front :: f in frames;
      NoFinerThanNeeded(front, m);
      if last.0.rate != After(front).rate {
        LcmIsLeast(After(front).den, last.0.rate, m);
      }
    }
  }

  function Instant(ticks: int, den: Positive): real {
    ticks as real / den as real
  }

  /** A change of rate keeps the clock's instants, as long as the fallback is not taken. */
  lemma UpdateIsExact(c: Clock, f: Frame)
    requires f.rate == c.rate || !FallsBack(c.den, f.rate)
    ensures var u := Updated(c, f);
      && Instant(u.est, u.den) == Instant(c.est, c.den)
      && (c.pts != AV_NOPTS_VALUE ==> Instant(u.pts, u.den) == Instant(c.pts, c.den))
  {
    if f.rate != c.rate {
      NewDenCovers(c.den, f);
      RescaleExact(c.est, c.den, NewDen(c.den, f));
      RescaleExact(c.pts, c.den, NewDen(c.den, f));
    }
  }

  lemma InstantSum(a: int, b: int, den: Positive)
    ensures Instant(a + b, den) == Instant(a, den) + Instant(b, den)
  {
  }

  function Length(frames: seq<(Frame, int)>): real
    decreases |frames|
  {
    if frames == [] then 0.0
    else Length(frames[..|frames| - 1]) + Instant(frames[|frames| - 1].0.samples, frames[|frames| - 1].0.rate)
  }

  /** Every frame without a timestamp of its own starts where its predecessor ends. */
  predicate Predicted(frames: seq<(Frame, int)>)
    decreases |frames|
  {
    frames == [] ||
    var front := frames[..|frames| - 1];
    var (f, start) := frames[|frames| - 1];
    Predicted(front) && f.pts == AV_NOPTS_VALUE && start == Prediction(Updated(After(front), f))
  }

  /** Predicted timestamps do not drift. Without timestamps in the input, across any changes of
      rate, the clock after the frames stands at the exact sum of their lengths. */
  lemma {:induction false} PredictionIsExact(frames: seq<(Frame, int)>)
    requires Predicted(frames) && NeverFellBack(frames) && forall f | f in frames :: f.0.tb.den <= INT_MAX
    ensures Instant(Prediction(After(frames)), After(frames).den) == Length(frames)
    ensures if frames == [] then After(frames) == START else After(frames).pts >= 0 && After(frames).est >= 0
    decreases |frames|
  {
    if frames != [] {
      var front, last := frames[..|frames| - 1], frames[|frames| - 1];
      assert forall f | f in front :: f in frames;
      assert last in frames;
      PredictionIsExact(front);
      CoversEveryRate(frames);
      StepIsExact(After(front), last.0);
    }
  }

  lemma StepIsExact(c: Clock, f: Frame)
    requires f.rate == c.rate || !FallsBack(c.den, f.rate)
    requires Divides(f.rate, Updated(c, f).den) && (c == START || (c.pts >= 0 && c.est >= 0))
    ensures var s := Prediction(Updated(c, f));
      var a := Advanced(c, f, s);
      && s >= 0 && a.est >= 0
      && Instant(Prediction(a), a.den) == Instant(Prediction(c), c.den) + Instant(f.samples, f.rate)
  {
    var u := Updated(c, f);
    var s := Prediction(u);
    UpdatedPrediction(c, f);
    var est := Rescale(f.samples, f.rate, u.den);
    RescaleExact(f.samples, f.rate, u.den);
    RescaleNonNegative(f.samples, f.rate, u.den);
    InstantSum(s, est, u.den);
    assert Prediction(Advanced(c, f, s)) == s + est;
  }

  lemma RescaleNonNegative(ts: nat, from: Positive, to: Positive)
    ensures Rescale(ts, from, to) >= 0
  {
    assert ts * to >= 0;
  }

  lemma UpdatedPrediction(c: Clock, f: Frame)
    requires f.rate == c.rate || !FallsBack(c.den, f.rate)
    requires c == START || (c.pts >= 0 && c.est >= 0)
    ensures Prediction(Updated(c, f)) >= 0
    ensures Instant(Prediction(Updated(c, f)), Updated(c, f).den) == Instant(Prediction(c), c.den)
  {
    if c != START && f.rate != c.rate {
      UpdateIsExact(c, f);
      var u := Updated(c, f);
      RescaleNonNegative(c.pts, c.den, u.den);
      RescaleNonNegative(c.est, c.den, u.den);
      InstantSum(u.pts, u.est, u.den);
      InstantSum(c.pts, c.est, c.den);
    }
  }

  /** Once the fallback was taken, every rate that divides it stays covered, whatever follows. */
  lemma {:induction false} FallbackStays(frames: seq<(Frame, int)>, rate: Positive)
    requires !NeverFellBack(frames) && Divides(rate, FALLBACK)
    ensures Divides(rate, After(frames).den)
    decreases |frames|
  {
    var front, f := frames[..|frames| - 1], frames[|frames| - 1].0;
    if f.rate == After(front).rate {
      FallbackStays(front, rate);
    } else {
      var before := After(front).den;
      var d := Common(before, f.rate);
      if !FallsBack(before, f.rate) {
        FallbackStays(front, rate);
        LcmFacts(before, f.rate);
        DividesTrans(rate, before, d);
      }
      if After(frames).den != d {
        DividesTrans(rate, d, f.tb.den);
      }
    }
  }

  /** The fallback is the least common multiple of 192000 and 44100, and covers the usual rates. */
  lemma FallbackCoversUsualRates()
    ensures Lcm(192000, 44100) == FALLBACK
    ensures forall r | r in [8000, 11025, 12000, 16000, 22050, 24000, 32000, 44100, 48000, 88200, 96000,
        176400, 192000] :: FALLBACK % r == 0
  {
    assert Gcd(600, 300) == 300;
    assert Gcd(2700, 2100) == Gcd(2100, 600);
    assert Gcd(15600, 12900) == Gcd(12900, 2700);
    assert Gcd(192000, 44100) == Gcd(44100, 15600);
  }
}

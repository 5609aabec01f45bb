/** What frame-rate conversion keeps over whole runs: the drift between input and output stays
    bounded, every frame is accounted for, and output timestamps go up. */
module FrameRateLaws {
  import opened Topology
  import opened FrameRate

  /** The state in which a stream starts. */
  const FIRST: Fps := Fps(0, 0, (0, 0, 0), 0, false, None, 0, 0)

  /** One frame, with a consumer that takes all that is sent. */
  function Step(cfg: Config, st: Fps, f: Frame): (Fps, seq<Output>) {
    var nb := Synced(cfg, st, Some(f)).1.nb;
    Processed(cfg, st, Some(f), true, if nb < 0 then 0 else nb)
  }

  function Run(cfg: Config, st: Fps, fs: seq<Frame>): (Fps, seq<Output>) {
    if fs == [] then (st, [])
    else
      var (mid, out) := Run(cfg, st, fs[..|fs| - 1]);
      var (end, more) := Step(cfg, mid, fs[|fs| - 1]);
      (end, out + more)
  }

  /** The last frame's count was not so large that it was skipped. */
  predicate Plain(cfg: Config, st: Fps, f: Frame) {
    !TooLarge(cfg, st.lastDropped, RateOf(cfg, st, f))
  }

  predicate AllPlain(cfg: Config, st: Fps, fs: seq<Frame>) {
    fs == [] || (AllPlain(cfg, st, fs[..|fs| - 1]) && Plain(cfg, Run(cfg, st, fs[..|fs| - 1]).0, fs[|fs| - 1]))
  }

  // ----- drift

  /** How far the end of the input so far is ahead of the output. */
  function Drift(st: Fps, end: real): real {
    end - st.nextPts as real
  }

  lemma CfrStepDrift(cfg: Config, st: Fps, f: Frame)
    requires cfg.vsync.Cfr? && cfg.dropThreshold == 0.0 && Plain(cfg, st, f)
    ensures var (t, out) := Step(cfg, st, f);
      && Drift(t, End(f)) <= 0.5
      && (out != [] ==> Drift(t, End(f)) >= -2.1 && t.frameNumber > 0)
      && (out == [] ==> t.nextPts == st.nextPts && t.frameNumber == st.frameNumber)
  {
    var r := RateOf(cfg, st, f);
    assert r.nb >= 0;
    assert Step(cfg, st, f).0.nextPts == st.nextPts + r.nb;
  }

  ghost predicate EndsNotBackwards(fs: seq<Frame>) {
    forall i, j | 0 <= i < j < |fs| :: End(fs[i]) <= End(fs[j])
  }

  /** At a constant frame rate the output is never more than half a frame behind the end of the
      input and, from the first frame sent on, never more than 2.1 frames ahead of it. */
  lemma {:induction false} CfrDriftBound(cfg: Config, st: Fps, fs: seq<Frame>)
    requires cfg.vsync.Cfr? && cfg.dropThreshold == 0.0 && AllPlain(cfg, st, fs)
    requires st.frameNumber == 0 && fs != []
    ensures var t := Run(cfg, st, fs).0; var end := End(fs[|fs| - 1]);
      && Drift(t, end) <= 0.5
      && (EndsNotBackwards(fs) && t.frameNumber > 0 ==> Drift(t, end) >= -2.1)
  {
    var n := |fs| - 1;
    var mid := Run(cfg, st, fs[..n]).0;
    CfrStepDrift(cfg, mid, fs[n]);
    if n > 0 {
      CfrDriftBound(cfg, st, fs[..n]);
      assert EndsNotBackwards(fs) ==> EndsNotBackwards(fs[..n]) && End(fs[n - 1]) <= End(fs[n]);
    }
  }

  /** VSCFR moves the start of the output to this frame. */
  predicate MovesStart(st: Fps, f: Frame) {
    st.frameNumber == 0 && f.start - st.nextPts as real >= 0.5
  }

  /** How often a frame of this duration is sent when the output starts with it. */
  function FirstCount(d: real): int {
    if d < -1.1 then 0 else if d > 1.1 then Rint(d) else 1
  }

  /** The frame that moves the start of the output leaves behind what rounding its start and
      counting its duration lose, so the output is more than half a frame behind exactly if the
      two losses together are more than that. */
  lemma StartDriftIff(cfg: Config, st: Fps, f: Frame)
    requires cfg.vsync.Vscfr? && Plain(cfg, st, f) && MovesStart(st, f)
    ensures var d := Drift(Step(cfg, st, f).0, End(f));
      && d == (f.start - Rint(f.start) as real) + (f.duration - FirstCount(f.duration) as real)
      && (d > 0.5 <==> f.start + f.duration > Rint(f.start) as real + FirstCount(f.duration) as real + 0.5)
      && d <= 1.0
      && (FirstCount(f.duration) > 0 ==> d >= -2.6 && (f.duration >= -0.6 ==> d >= -2.1))
  {
    assert Clipped(cfg, st.nextPts, f) == f;
    assert RateOf(cfg, st, f) == Rate(FirstCount(f.duration), 0, Rint(f.start));
    assert Step(cfg, st, f).0.nextPts == Rint(f.start) + FirstCount(f.duration);
  }

  lemma VscfrStepDrift(cfg: Config, st: Fps, f: Frame)
    requires cfg.vsync.Vscfr? && cfg.dropThreshold == 0.0 && Plain(cfg, st, f) && !MovesStart(st, f)
    ensures var (t, out) := Step(cfg, st, f);
      && Drift(t, End(f)) <= 0.5
      && (out != [] ==> Drift(t, End(f)) >= -2.1 && t.frameNumber > 0)
      && (out == [] ==> t.nextPts == st.nextPts && t.frameNumber == st.frameNumber)
  {
    var r := RateOf(cfg, st, f);
    assert r.nb >= 0 && r.nextPts == st.nextPts;
    assert Step(cfg, st, f).0.nextPts == st.nextPts + r.nb;
  }

  lemma StartSends(cfg: Config, st: Fps, f: Frame)
    requires cfg.vsync.Vscfr? && Plain(cfg, st, f) && MovesStart(st, f)
    ensures Step(cfg, st, f).0.frameNumber == FirstCount(f.duration)
  {
    assert Clipped(cfg, st.nextPts, f) == f;
    assert RateOf(cfg, st, f) == Rate(FirstCount(f.duration), 0, Rint(f.start));
  }

  predicate LongEnough(fs: seq<Frame>) {
    forall i | 0 <= i < |fs| :: fs[i].duration >= -0.6
  }

  /** With VSCFR the output is never more than one frame behind the end of the input, and never
      more than half a frame but after the frame that moves its start; from the first frame sent
      on it is never more than 2.6 frames ahead, and 2.1 unless a duration is far below zero. */
  lemma {:induction false} VscfrDriftBound(cfg: Config, st: Fps, fs: seq<Frame>)
    requires cfg.vsync.Vscfr? && cfg.dropThreshold == 0.0 && AllPlain(cfg, st, fs)
    requires st.frameNumber == 0 && fs != []
    ensures var mid, last := Run(cfg, st, fs[..|fs| - 1]).0, fs[|fs| - 1];
      var t := Run(cfg, st, fs).0;
      && Drift(t, End(last)) <= 1.0
      && (!MovesStart(mid, last) ==> Drift(t, End(last)) <= 0.5)
      && (EndsNotBackwards(fs) && t.frameNumber > 0 ==> Drift(t, End(last)) >= -2.6)
      && (EndsNotBackwards(fs) && t.frameNumber > 0 && LongEnough(fs) ==>
          Drift(t, End(last)) >= -2.1)
  {
    var n := |fs| - 1;
    var mid := Run(cfg, st, fs[..n]).0;
    if MovesStart(mid, fs[n]) {
      StartDriftIff(cfg, mid, fs[n]);
      StartSends(cfg, mid, fs[n]);
    } else {
      VscfrStepDrift(cfg, mid, fs[n]);
      if n > 0 {
        VscfrDriftBound(cfg, st, fs[..n]);
        if EndsNotBackwards(fs) {
          assert EndsNotBackwards(fs[..n]) && End(fs[..n][n - 1]) <= End(fs[n]);
        }
      }
    }
  }

  /** Both outer bounds are reached. */
  lemma VscfrDriftIsReached()
    ensures var cfg := Config(Vscfr, 0.0, 108000.0);
      var late, early := Frame(0.5, 2.5, true), Frame(1.5, -1.1, true);
      && Plain(cfg, FIRST, late) && Drift(Step(cfg, FIRST, late).0, End(late)) == 1.0
      && Plain(cfg, FIRST, early) && Drift(Step(cfg, FIRST, early).0, End(early)) == -2.6
  {
    var cfg := Config(Vscfr, 0.0, 108000.0);
    var late, early := Frame(0.5, 2.5, true), Frame(1.5, -1.1, true);
    assert Rint(0.5) == 0 && Rint(2.5) == 2 && Rint(1.5) == 2;
    assert RateOf(cfg, FIRST, late) == Rate(2, 0, 0);
    assert RateOf(cfg, FIRST, early) == Rate(1, 0, 2);
    StartDriftIff(cfg, FIRST, late);
    StartDriftIff(cfg, FIRST, early);
  }

  // ----- conservation

  /** Frames in and duplicated, less frames out and dropped and the one that may yet be sent. */
  function Balance(st: Fps, frames: int, sent: int): int {
    frames + st.nbDup - sent - st.nbDrop - st.lastDropped
  }

  /** The frame is late enough for the previous one to be repeated in the gap before it. */
  predicate Repeats(cfg: Config, st: Fps, f: Frame) {
    var delta0, delta := f.start - st.nextPts as real, End(f) - st.nextPts as real;
    && (cfg.vsync.Cfr? || (cfg.vsync.Vscfr? && st.frameNumber > 0))
    && !(cfg.dropThreshold != 0.0 && delta < cfg.dropThreshold && st.frameNumber > 0)
    && delta0 > 1.1 && delta > 1.1
  }

  /** The gap asks for more repeats than there are frames to send by the end of the frame. */
  predicate RepeatsTooMany(cfg: Config, st: Fps, f: Frame) {
    && Repeats(cfg, st, f)
    && Rint(f.start - st.nextPts as real - 0.6) > Rint(End(f) - st.nextPts as real)
  }

  lemma CountsOf(cfg: Config, st: Fps, f: Frame)
    ensures var r := RateOf(cfg, st, f);
      && 0 <= r.prev && 0 <= r.nb
      && (r.prev > 0 <==> Repeats(cfg, st, f))
      && (r.prev > r.nb <==> RepeatsTooMany(cfg, st, f))
  {
    var delta0 := f.start - st.nextPts as real;
    if delta0 > 1.1 {
      assert Clipped(cfg, st.nextPts, f) == f;
      RintMonotone(0.6, delta0 - 0.5);
      assert Rint(delta0 - 0.6) >= 1;
    }
  }

  /** A frame is accounted for exactly when its gap does not ask for more repeats than there are
      frames to send; and if the count is too large and skipped, exactly when the previous frame
      is repeated or was not pending. */
  lemma StepBalanceIff(cfg: Config, st: Fps, f: Frame)
    requires st.lastDropped <= 1
    ensures var (t, out) := Step(cfg, st, f);
      Balance(t, 1, |out|) == Balance(st, 0, 0) <==>
        if Plain(cfg, st, f) then !RepeatsTooMany(cfg, st, f) else Repeats(cfg, st, f) || st.lastDropped == 0
  {
    CountsOf(cfg, st, f);
    var (t, out) := Step(cfg, st, f);
    var (mid, r) := Booked(cfg, st, Some(f), RateOf(cfg, st, f));
    assert |out| == r.nb && t.nbDup == mid.nbDup && t.nbDrop == mid.nbDrop && t.lastDropped == mid.lastDropped;
  }

  /** The repeats of the previous frame never outnumber the whole when the duration is at least
      -0.6. */
  lemma PrevAtMostAll(cfg: Config, st: Fps, f: Frame)
    requires f.duration >= -0.6
    ensures var r := RateOf(cfg, st, f); 0 <= r.prev <= r.nb
  {
    CountsOf(cfg, st, f);
    if RepeatsTooMany(cfg, st, f) {
      RintMonotone(f.start - st.nextPts as real - 0.6, End(f) - st.nextPts as real);
      assert false;
    }
  }

  /** For every duration below that there is a first frame for which they do, at a constant rate
      and with a count that is not too large. */
  lemma BelowThatTooMany(cfg: Config, d: real) returns (f: Frame)
    requires cfg.vsync.Cfr? && cfg.dropThreshold == 0.0 && d < -0.6
    ensures f.duration == d && RepeatsTooMany(cfg, FIRST, f)
    ensures RateOf(cfg, FIRST, f).prev > RateOf(cfg, FIRST, f).nb
    ensures cfg.errorThreshold >= 0.1 ==> Plain(cfg, FIRST, f)
  {
    // the gap is rounded up to n + 1, the end of the frame down to n
    var n := OddAbove(-d);
    f := Frame(n as real + 1.1, d, false);
    RintOfHalf(n, End(f));
    assert f.start - 0.6 == n as real + 0.5;
    assert Repeats(cfg, FIRST, f) && RepeatsTooMany(cfg, FIRST, f);
    CountsOf(cfg, FIRST, f);
    RintMonotone(End(f), 3.1);
    assert Rint(3.1) == 3;
    assert RateOf(cfg, FIRST, f).nb == Rint(End(f)) <= 3;
  }

  lemma OddAbove(x: real) returns (n: int)
    requires x > 0.6
    ensures n % 2 == 1 && n >= 1 && x < n as real <= x + 2.0
  {
    var m := x.Floor;
    n := if m % 2 == 1 then m + 2 else m + 1;
  }

  lemma RintOfHalf(n: int, x: real)
    requires n % 2 == 1 && x < n as real + 0.5
    ensures Rint(n as real + 0.5) == n + 1 && Rint(x) <= n
  {
    assert (n as real + 0.5).Floor == n;
  }

  /** So -0.6 is the exact bound on the duration. */
  lemma PrevAtMostAllIff(d: real)
    ensures d >= -0.6 <==>
      forall cfg, st, f: Frame | f.duration == d :: RateOf(cfg, st, f).prev <= RateOf(cfg, st, f).nb
  {
    if d >= -0.6 {
      forall cfg, st, f: Frame | f.duration == d ensures RateOf(cfg, st, f).prev <= RateOf(cfg, st, f).nb {
        PrevAtMostAll(cfg, st, f);
      }
    } else {
      var f := BelowThatTooMany(Config(Cfr, 0.0, 108000.0), d);
    }
  }

  /** At a constant rate, frames of a given duration are all accounted for, whatever the state and
      wherever they start, exactly if the duration is at least -0.6. */
  lemma BalanceIffDuration(cfg: Config, d: real)
    requires cfg.vsync.Cfr? && cfg.dropThreshold == 0.0 && cfg.errorThreshold >= 0.1
    ensures d >= -0.6 <==> forall st: Fps, f: Frame | f.duration == d && st.lastDropped <= 1 && Plain(cfg, st, f) ::
      Accounted(cfg, st, f)
  {
    if d >= -0.6 {
      forall st: Fps, f: Frame | f.duration == d && st.lastDropped <= 1 && Plain(cfg, st, f)
        ensures Accounted(cfg, st, f)
      {
        CountsOf(cfg, st, f);
        PrevAtMostAll(cfg, st, f);
        StepBalanceIff(cfg, st, f);
      }
    } else {
      var f := BelowThatTooMany(cfg, d);
      StepBalanceIff(cfg, FIRST, f);
      assert !Accounted(cfg, FIRST, f);
    }
  }

  predicate Accounted(cfg: Config, st: Fps, f: Frame) {
    var (t, out) := Step(cfg, st, f);
    Balance(t, 1, |out|) == Balance(st, 0, 0)
  }

  /** Over every run whose durations are at least -0.6, nothing is lost or counted twice. */
  lemma {:induction false} Conservation(cfg: Config, st: Fps, fs: seq<Frame>)
    requires st.lastDropped <= 1 && AllPlain(cfg, st, fs)
    requires LongEnough(fs)
    ensures var (t, out) := Run(cfg, st, fs);
      t.lastDropped <= 1 && Balance(t, |fs|, |out|) == Balance(st, 0, 0)
  {
    if fs != [] {
      var n := |fs| - 1;
      Conservation(cfg, st, fs[..n]);
      var mid := Run(cfg, st, fs[..n]).0;
      CountsOf(cfg, mid, fs[n]);
      PrevAtMostAll(cfg, mid, fs[n]);
      StepBalanceIff(cfg, mid, fs[n]);
    }
  }

  /** From the start of the stream: every frame was sent, or was dropped, or is the last one and
      may yet be sent; everything else that was sent is counted as a duplicate. */
  lemma FramesAccounted(cfg: Config, fs: seq<Frame>)
    requires LongEnough(fs)
    requires AllPlain(cfg, FIRST, fs)
    ensures var (t, out) := Run(cfg, FIRST, fs);
      |fs| + t.nbDup == |out| + t.nbDrop + t.lastDropped
  {
    Conservation(cfg, FIRST, fs);
  }

  /** At the end of the stream one drop is counted twice exactly when the last frame is still
      pending and is not repeated. */
  lemma EofBalanceIff(cfg: Config, st: Fps, accept: nat)
    requires st.lastDropped <= 1 && st.last.Some?
    requires st.hist.0 >= 0 && st.hist.1 >= 0 && st.hist.2 >= 0
    requires var m := Median(st.hist.0, st.hist.1, st.hist.2);
      accept >= m && !TooLarge(cfg, st.lastDropped, Rate(m, m, st.nextPts))
    ensures var (t, out) := Processed(cfg, st, None, true, accept);
      Balance(t, 0, |out|) == Balance(st, 0, 0) <==>
        !(Median(st.hist.0, st.hist.1, st.hist.2) == 0 && st.lastDropped > 0)
  {
  }

  // ----- timestamps

  /** A frame's output starts where the last ended, or further on where the method lets it. */
  predicate Forward(st: Fps, t: Fps, out: seq<Output>, dense: bool) {
    && (forall i | 0 <= i < |out| :: out[i].pts == t.nextPts - |out| + i)
    && st.nextPts <= t.nextPts - |out|
    && (dense ==> st.nextPts == t.nextPts - |out|)
  }

  /** No method moves the point at which the output continues back. */
  lemma RateForward(cfg: Config, st: Fps, f: Frame)
    requires cfg.vsync.Cfr? || cfg.vsync.Vscfr? || cfg.vsync.Vfr?
    ensures st.nextPts <= RateOf(cfg, st, f).nextPts && (cfg.vsync.Cfr? ==> st.nextPts == RateOf(cfg, st, f).nextPts)
  {
    var c := Clipped(cfg, st.nextPts, f);
    if c.start >= st.nextPts as real {
      RintMonotone(st.nextPts as real, c.start);
    }
  }

  lemma StepMovesForward(cfg: Config, st: Fps, f: Frame)
    requires cfg.vsync.Cfr? || cfg.vsync.Vscfr? || cfg.vsync.Vfr?
    ensures var (t, out) := Step(cfg, st, f); Forward(st, t, out, cfg.vsync.Cfr?)
  {
    RateForward(cfg, st, f);
    StepContinues(cfg, st, f);
  }

  lemma StepContinues(cfg: Config, st: Fps, f: Frame)
    ensures var (t, out) := Step(cfg, st, f);
      t.nextPts == RateOf(cfg, st, f).nextPts + |out| &&
      forall i | 0 <= i < |out| :: out[i].pts == t.nextPts - |out| + i
  {
  }

  /** The frames sent from one point of the output to another: timestamps in between, strictly
      increasing and, where `dense`, without a gap. */
  predicate Ascends(out: seq<Output>, from: int, to: int, dense: bool) {
    && from <= to
    && (forall i | 0 <= i < |out| :: from <= out[i].pts < to)
    && (forall i, j | 0 <= i < j < |out| :: out[i].pts < out[j].pts)
    && (dense ==> to == from + |out| && forall i | 0 <= i < |out| :: out[i].pts == from + i)
  }

  lemma AscendsOn(a: seq<Output>, b: seq<Output>, from: int, mid: int, to: int, dense: bool)
    requires Ascends(a, from, mid, dense) && Ascends(b, mid, to, dense)
    ensures Ascends(a + b, from, to, dense)
  {
  }

  /** No branch of the constant-rate and variable-rate methods moves the output back, so the
      timestamps sent strictly increase; at a constant rate they are consecutive. */
  lemma {:induction false} OutputIncreases(cfg: Config, st: Fps, fs: seq<Frame>)
    requires cfg.vsync.Cfr? || cfg.vsync.Vscfr? || cfg.vsync.Vfr?
    ensures var (t, out) := Run(cfg, st, fs); Ascends(out, st.nextPts, t.nextPts, cfg.vsync.Cfr?)
  {
    if fs != [] {
      var n := |fs| - 1;
      OutputIncreases(cfg, st, fs[..n]);
      var (mid, out) := Run(cfg, st, fs[..n]);
      var (t, more) := Step(cfg, mid, fs[n]);
      StepMovesForward(cfg, mid, fs[n]);
      AscendsOn(out, more, st.nextPts, mid.nextPts, t.nextPts, cfg.vsync.Cfr?);
    }
  }

  // ----- how often each frame is sent

  /** How often the previous frame is repeated in the gap before a frame. */
  function Again(cfg: Config, st: Fps, f: Frame): int {
    if Repeats(cfg, st, f) then Rint(f.start - st.nextPts as real - 0.6) else 0
  }

  /** With a drop threshold, a frame that ends too early is dropped, but not before the first. */
  predicate BelowThreshold(cfg: Config, st: Fps, f: Frame) {
    cfg.dropThreshold != 0.0 && End(f) - st.nextPts as real < cfg.dropThreshold && st.frameNumber > 0
  }

  lemma PrevIs(cfg: Config, st: Fps, f: Frame)
    ensures RateOf(cfg, st, f).prev == Again(cfg, st, f)
  {
    CountsOf(cfg, st, f);
    if Repeats(cfg, st, f) {
      assert Clipped(cfg, st.nextPts, f) == f;
    }
  }

  /** At a constant rate a frame fills the output up to the nearest end: none is sent if it ends
      more than 1.1 before the output, or below the threshold; one if it ends no more than 1.1
      after it; and otherwise as many as are nearest. */
  lemma CfrSends(cfg: Config, st: Fps, f: Frame)
    requires (cfg.vsync.Cfr? || (cfg.vsync.Vscfr? && !MovesStart(st, f))) && Plain(cfg, st, f)
    ensures var end := End(f) - st.nextPts as real;
      var (t, out) := Step(cfg, st, f);
      && |out| == (if BelowThreshold(cfg, st, f) || end < -1.1 then 0 else if end <= 1.1 then 1 else Rint(end))
      && t.nextPts == st.nextPts + |out| && t.frameNumber == st.frameNumber + |out|
  {
  }

  /** At a variable rate a frame is sent exactly once, or dropped if its end is no more than -0.6
      past the output; with the later of its start and the output, rounded, for timestamp if its
      end is more than 0.6 past it, and otherwise where the output stands. */
  lemma VfrSends(cfg: Config, st: Fps, f: Frame)
    requires cfg.vsync.Vfr?
    ensures var next := st.nextPts as real;
      var (t, out) := Step(cfg, st, f);
      && |out| == (if End(f) - next <= -0.6 then 0 else 1)
      && (out == [] ==> t.nextPts == st.nextPts && t.lastDropped == 1)
      && (out != [] ==>
          && t.lastDropped == 0 && t.nextPts == out[0].pts + 1 && !out[0].previous
          && out[0].pts == if End(f) - next > 0.6 then Rint(if f.start < next then next else f.start) else st.nextPts)
  {
  }

  /** The frames of a run that end late enough to be sent. */
  function LateEnough(cfg: Config, st: Fps, fs: seq<Frame>): nat {
    if fs == [] then 0
    else
      var n := |fs| - 1;
      var next := Run(cfg, st, fs[..n]).0.nextPts as real;
      LateEnough(cfg, st, fs[..n]) + if End(fs[n]) - next <= -0.6 then 0 else 1
  }

  /** Over every run at a variable rate, just these are sent, and none is ever duplicated. */
  lemma {:induction false} VfrSendsLate(cfg: Config, st: Fps, fs: seq<Frame>)
    requires cfg.vsync.Vfr?
    ensures |Run(cfg, st, fs).1| == LateEnough(cfg, st, fs)
    ensures Run(cfg, st, fs).0.nbDup == st.nbDup
  {
    if fs != [] {
      var n := |fs| - 1;
      VfrSendsLate(cfg, st, fs[..n]);
      VfrCounts(cfg, Run(cfg, st, fs[..n]).0, fs[n]);
    }
  }

  lemma VfrCounts(cfg: Config, st: Fps, f: Frame)
    requires cfg.vsync.Vfr?
    ensures |Step(cfg, st, f).1| == (if End(f) - st.nextPts as real <= -0.6 then 0 else 1)
    ensures Step(cfg, st, f).0.nbDup == st.nbDup
  {
    VfrSends(cfg, st, f);
  }

  /** The methods that pass frames through send each exactly once, at its own rounded start. */
  lemma PassthroughSends(cfg: Config, st: Fps, f: Frame)
    requires cfg.vsync.Passthrough? || cfg.vsync.Drop?
    ensures var (t, out) := Step(cfg, st, f);
      && |out| == 1 && out[0].pts == Rint(f.start) && !out[0].previous
      && t.nextPts == out[0].pts + 1 && t.nbDup == st.nbDup
  {
  }

  /** The books in terms of what is sent: first the repeats of the previous frame, then the frame;
      every send of either beyond the first is a duplication; the previous frame is dropped for
      good if it was pending and is not repeated, and this one is pending if it is not sent. */
  lemma BooksOf(cfg: Config, st: Fps, f: Frame)
    requires Plain(cfg, st, f) && !RepeatsTooMany(cfg, st, f) && st.lastDropped <= 1
    ensures var (t, out) := Step(cfg, st, f);
      var again := Again(cfg, st, f);
      var own := |out| - again;
      && 0 <= again && 0 <= own
      && (forall i | 0 <= i < |out| :: out[i].previous == (i < again && st.last.Some?))
      && t.nbDup - st.nbDup ==
         (if own > 0 then own - 1 else 0) + (if again > 0 && st.lastDropped > 0 then again - 1 else again)
      && t.nbDrop - st.nbDrop == (if again == 0 && st.lastDropped > 0 then 1 else 0)
      && t.lastDropped == (if own == 0 then 1 else 0)
      && t.last == Some(f.(key := f.key && own == 0))
  {
    CountsOf(cfg, st, f);
    PrevIs(cfg, st, f);
  }

  /** A count that is too large sends nothing and is booked as a drop. */
  lemma TooLargeDrops(cfg: Config, st: Fps, f: Frame)
    requires !Plain(cfg, st, f) && st.lastDropped <= 1
    ensures var (t, out) := Step(cfg, st, f);
      && out == [] && t.nbDup == st.nbDup && t.lastDropped == st.lastDropped
      && t.nbDrop - st.nbDrop == 1 + (if Again(cfg, st, f) == 0 && st.lastDropped > 0 then 1 else 0)
  {
    PrevIs(cfg, st, f);
  }

  /** A count is too large exactly if something would be duplicated, and the count exceeds 30 times
      the configured limit. */
  lemma PlainIff(cfg: Config, st: Fps, f: Frame)
    requires cfg.vsync.Cfr? || (cfg.vsync.Vscfr? && !MovesStart(st, f))
    ensures var end := End(f) - st.nextPts as real;
      var again := Again(cfg, st, f);
      var nb := if BelowThreshold(cfg, st, f) || end < -1.1 then 0 else if end <= 1.1 then 1 else Rint(end);
      var first := (if again > 0 && st.lastDropped > 0 then 1 else 0) + (if nb > again then 1 else 0);
      Plain(cfg, st, f) <==> nb <= first || nb as real <= 30.0 * cfg.errorThreshold
  {
    CountsOf(cfg, st, f);
    PrevIs(cfg, st, f);
  }

  // ----- the history

  /** The state keeps how often the previous frame was repeated before each of the last three
      frames, the latest first. */
  lemma HistoryHolds(cfg: Config, st: Fps, a: Frame, b: Frame, c: Frame)
    ensures var st1 := Step(cfg, st, a).0;
      var st2 := Step(cfg, st1, b).0;
      Step(cfg, st2, c).0.hist == (Again(cfg, st2, c), Again(cfg, st1, b), Again(cfg, st, a))
  {
    StepHistory(cfg, st, a);
    var st1 := Step(cfg, st, a).0;
    StepHistory(cfg, st1, b);
    StepHistory(cfg, Step(cfg, st1, b).0, c);
  }

  lemma StepHistory(cfg: Config, st: Fps, f: Frame)
    ensures Step(cfg, st, f).0.hist == (Again(cfg, st, f), st.hist.0, st.hist.1)
  {
    PrevIs(cfg, st, f);
  }

  /** At the end of the stream the last frame is sent once more as often as was the middle one of
      the last three counts, where the consumer takes so many. */
  lemma EofRepeats(cfg: Config, st: Fps, accept: nat)
    requires st.last.Some? && st.hist.0 >= 0 && st.hist.1 >= 0 && st.hist.2 >= 0
    requires var m := Median(st.hist.0, st.hist.1, st.hist.2);
      m <= accept && (m as real <= cfg.errorThreshold * 30.0 || (m <= 1 && st.lastDropped > 0))
    ensures var out := Processed(cfg, st, None, true, accept).1;
      |out| == Median(st.hist.0, st.hist.1, st.hist.2) && forall o | o in out :: o.previous
  {
  }

  // ----- key frames

  /** The key mark of a dropped frame is not lost: it waits for the next frame sent. */
  lemma KeyMarkWaits(cfg: Config, st: Fps, f: Frame)
    ensures var (t, out) := Step(cfg, st, f); var mid := Synced(cfg, st, Some(f)).0;
      && (st.droppedKey ==> mid.droppedKey)
      && (mid.droppedKey ==> if out == [] then t.droppedKey else out[0].key && !t.droppedKey)
      && (Plain(cfg, st, f) ==>
          (mid.droppedKey <==> st.droppedKey || (f.key && |out| == Again(cfg, st, f))))
  {
    CountsOf(cfg, st, f);
    PrevIs(cfg, st, f);
  }

  /** The key mark of a frame is spent on its first send after the repeats, and on none later; the
      repeats carry the mark that their frame was left with. */
  lemma KeyOnce(cfg: Config, st: Fps, f: Frame)
    requires Plain(cfg, st, f)
    ensures var (t, out) := Step(cfg, st, f);
      forall i | 0 <= i < |out| && !out[i].previous ::
        out[i].key == ((i <= Again(cfg, st, f) && f.key) || (i == 0 && Synced(cfg, st, Some(f)).0.droppedKey))
    ensures var (t, out) := Step(cfg, st, f);
      forall i | 0 <= i < |out| && out[i].previous :: st.last.Some? &&
        out[i].key == (st.last.value.key || (i == 0 && Synced(cfg, st, Some(f)).0.droppedKey))
  {
    PrevIs(cfg, st, f);
  }
}

/** Frame-rate conversion: how often each video frame is repeated, or whether it is dropped, so
    that the output keeps to the frame rate of the encoder. Times are in output frames. */
module FrameRate {
  import opened Topology

  // ----- rounding

  /** `llrint`: to the nearest integer, halves to the even one. */
  function Rint(x: real): (r: int)
    ensures -0.5 <= x - r as real <= 0.5
  {
    var f := x.Floor;
    var d := x - f as real;
    if d < 0.5 || (d == 0.5 && f % 2 == 0) then f else f + 1
  }

  lemma RintMonotone(x: real, y: real)
    requires x <= y
    ensures Rint(x) <= Rint(y)
  {
  }

  // ----- the middle of three

  method Median3(a: int, b: int, c: int) returns (m: int)
    ensures m == Median(a, b, c)
  {
    var max2, min2;
    if a >= b {
      max2, min2 := a, b;
    } else {
      max2, min2 := b, a;
    }
    m := if c >= max2 then max2 else c;
    m := if m >= min2 then m else min2;
  }

  function Median(a: int, b: int, c: int): (m: int)
    ensures m == a || m == b || m == c
    ensures (a <= m && b <= m) || (a <= m && c <= m) || (b <= m && c <= m)
    ensures (a >= m && b >= m) || (a >= m && c >= m) || (b >= m && c >= m)
  {
    if a <= b then (if b <= c then b else if a <= c then c else a)
    else (if a <= c then a else if b <= c then c else b)
  }

  // ----- configuration and state

  datatype Vsync = Cfr | Vscfr | Vfr | Passthrough | Drop

  datatype Config = Config(vsync: Vsync, dropThreshold: real, errorThreshold: real)

  /** A frame from the filtergraph: its start and duration in output frames. */
  datatype Frame = Frame(start: real, duration: real, key: bool)

  function End(f: Frame): real {
    f.start + f.duration
  }

  /** A frame handed to the encoder: the previous frame once more, or else the current one. */
  datatype Output = Output(pts: int, key: bool, previous: bool)

  datatype Fps = Fps(
    nextPts: int,
    frameNumber: nat,
    hist: (int, int, int),      // the last counts of repeats of the previous frame
    lastDropped: nat,
    droppedKey: bool,
    last: Option<Frame>,        // the previous frame, kept for repeating
    nbDup: int,
    nbDrop: int)

  /** How often to send the previous frame and in total, where the output continues, and
      whether the frame lost its place there. */
  datatype Rate = Rate(nb: int, prev: int, nextPts: int)

  // ----- the decision for one frame

  function Clipped(cfg: Config, next: int, f: Frame): (r: Frame)
    ensures End(r) == End(f)
    ensures !cfg.vsync.Passthrough? && !cfg.vsync.Drop? && End(f) > next as real ==> r.start >= next as real
    ensures r.start != f.start ==> f.start < r.start == next as real
  {
    var delta0 := f.start - next as real;
    var delta := delta0 + f.duration;
    if delta0 < 0.0 && delta > 0.0 && !cfg.vsync.Passthrough? && !cfg.vsync.Drop?
    then f.(start := next as real, duration := f.duration + delta0)
    else f
  }

  function CfrRate(cfg: Config, frameNumber: nat, next: int, delta0: real, delta: real): Rate {
    if cfg.dropThreshold != 0.0 && delta < cfg.dropThreshold && frameNumber > 0 then Rate(0, 0, next)
    else if delta < -1.1 then Rate(0, 0, next)
    else if delta > 1.1 then Rate(Rint(delta), if delta0 > 1.1 then Rint(delta0 - 0.6) else 0, next)
    else Rate(1, 0, next)
  }

  function RateOf(cfg: Config, st: Fps, f: Frame): Rate {
    var c := Clipped(cfg, st.nextPts, f);
    var delta0 := c.start - st.nextPts as real;
    var delta := End(f) - st.nextPts as real;
    match cfg.vsync
    case Vscfr =>
      if st.frameNumber == 0 && delta0 >= 0.5
      then CfrRate(cfg, st.frameNumber, Rint(c.start), 0.0, c.duration)
      else CfrRate(cfg, st.frameNumber, st.nextPts, delta0, delta)
    case Cfr => CfrRate(cfg, st.frameNumber, st.nextPts, delta0, delta)
    case Vfr =>
      if delta <= -0.6 then Rate(0, 0, st.nextPts)
      else if delta > 0.6 then Rate(1, 0, Rint(c.start))
      else Rate(1, 0, st.nextPts)
    case Drop => Rate(1, 0, Rint(c.start))
    case Passthrough => Rate(1, 0, Rint(c.start))
  }

  function Bit(b: bool): int {
    if b then 1 else 0
  }

  /** The sends that are no duplication: one of a previous frame not sent yet, one of this frame. */
  function Fresh(lastDropped: nat, r: Rate): int {
    Bit(r.prev != 0 && lastDropped > 0) + Bit(r.nb > r.prev)
  }

  predicate TooLarge(cfg: Config, lastDropped: nat, r: Rate) {
    r.nb > Fresh(lastDropped, r) && r.nb as real > cfg.errorThreshold * 30.0
  }

  /** The bookkeeping at the end of `video_sync_process`. */
  function Booked(cfg: Config, st: Fps, f: Option<Frame>, r: Rate): (Fps, Rate) {
    var st1 := st.(nextPts := r.nextPts, hist := (r.prev, st.hist.0, st.hist.1),
                   nbDrop := st.nbDrop + Bit(r.prev == 0 && st.lastDropped > 0));
    if TooLarge(cfg, st.lastDropped, r) then
      (st1.(nbDrop := st1.nbDrop + 1), r.(nb := 0))
    else
      var dropped := r.nb == r.prev && f.Some?;
      (st1.(nbDup := st1.nbDup + if r.nb > Fresh(st.lastDropped, r) then r.nb - Fresh(st.lastDropped, r) else 0,
            lastDropped := Bit(dropped),
            droppedKey := st.droppedKey || (dropped && f.value.key)), r)
  }

  /** `video_sync_process`. At the end of the stream the previous frame is repeated as often as
      was usual. */
  function Synced(cfg: Config, st: Fps, f: Option<Frame>): (Fps, Rate) {
    match f
    case Some(x) => Booked(cfg, st, f, RateOf(cfg, st, x))
    case None =>
      var m := Median(st.hist.0, st.hist.1, st.hist.2);
      var lost := m == 0 && st.lastDropped > 0;
      var st1 := st.(nbDrop := st.nbDrop + Bit(lost), lastDropped := st.lastDropped + Bit(lost));
      Booked(cfg, st1, f, Rate(m, m, st.nextPts))
  }

  // ----- sending

  /** The state after `n` frames have been sent, of `offered`; the mark of a dropped key frame is
      spent as soon as a frame is offered, taken or not. */
  function Sent(st: Fps, n: nat, offered: nat): Fps {
    st.(nextPts := st.nextPts + n, frameNumber := st.frameNumber + n, droppedKey := st.droppedKey && offered == 0)
  }

  /** The frame sent as the `i`-th: a repeat of the previous one, the new one, or its repeat. */
  function Source(st: Fps, f: Option<Frame>, r: Rate, i: nat): Option<bool> {
    if i < r.prev && st.last.Some? then Some(st.last.value.key)
    else if f.Some? then Some(f.value.key && (i <= r.prev))
    else None
  }

  /** How many frames there are to send. */
  function Wanted(st: Fps, f: Option<Frame>, r: Rate): (n: nat)
    ensures r.nb <= 0 ==> n == 0
    ensures r.nb >= 0 ==> n <= r.nb
  {
    if r.nb > 0 && (f.Some? || st.last.Some?) then r.nb else 0
  }

  /** How many frames are sent, when the consumer takes no more than `accept`. */
  function SendCount(st: Fps, f: Option<Frame>, r: Rate, accept: nat): (n: nat)
    ensures n <= accept && n <= Wanted(st, f, r)
  {
    var n := Wanted(st, f, r);
    if n < accept then n else accept
  }

  function Outputs(st: Fps, f: Option<Frame>, r: Rate, n: nat): (out: seq<Output>)
    ensures |out| == n
    ensures forall i | 0 <= i < n :: out[i].pts == st.nextPts + i
  {
    seq(n, i requires 0 <= i < n =>
      Output(st.nextPts + i, (i == 0 && st.droppedKey) || Source(st, f, r, i) == Some(true),
             i < r.prev && st.last.Some?))
  }

  class OutputFilter {
    const cfg: Config
    var st: Fps

    constructor (cfg: Config)
      ensures this.cfg == cfg && st == Fps(0, 0, (0, 0, 0), 0, false, None, 0, 0)
    {
      this.cfg := cfg;
      st := Fps(0, 0, (0, 0, 0), 0, false, None, 0, 0);
    }

    /** The part of `video_sync_process` before its label `finish`, for a frame. */
    method RateFrame(frame: Frame) returns (nb: int, prev: int)
      modifies this
      ensures var r := RateOf(cfg, old(st), frame);
        st == old(st).(nextPts := r.nextPts) && nb == r.nb && prev == r.prev
    {
      var duration := frame.duration;
      var syncIpts := frame.start;
      var delta0 := syncIpts - st.nextPts as real;
      var delta := delta0 + duration;
      prev := 0;
      nb := 1;
      if delta0 < 0.0 && delta > 0.0 && !cfg.vsync.Passthrough? && !cfg.vsync.Drop? {
        syncIpts := st.nextPts as real;
        duration := duration + delta0;
        delta0 := 0.0;
      }
      match cfg.vsync {
        case Vscfr =>
          if st.frameNumber == 0 && delta0 >= 0.5 {
            delta := duration;
            delta0 := 0.0;
            st := st.(nextPts := Rint(syncIpts));
          }
          nb, prev := CfrCounts(delta0, delta);
        case Cfr =>
          nb, prev := CfrCounts(delta0, delta);
        case Vfr =>
          if delta <= -0.6 {
            nb := 0;
          } else if delta > 0.6 {
            st := st.(nextPts := Rint(syncIpts));
          }
        case Drop =>
          st := st.(nextPts := Rint(syncIpts));
        case Passthrough =>
          st := st.(nextPts := Rint(syncIpts));
      }
    }

    /** The part of `video_sync_process` from its label `finish` on. */
    method Book(frame: Option<Frame>, nb0: int, prev: int) returns (nb: int)
      modifies this
      ensures var (t, r) := Booked(cfg, old(st), frame, Rate(nb0, prev, old(st).nextPts));
        st == t && nb == r.nb
    {
      nb := nb0;
      st := st.(hist := (prev, st.hist.0, st.hist.1));
      if prev == 0 && st.lastDropped > 0 {
        st := st.(nbDrop := st.nbDrop + 1);
      }
      var own := Bit(prev != 0 && st.lastDropped > 0) + Bit(nb > prev);
      if nb > own {
        if nb as real > cfg.errorThreshold * 30.0 {
          st := st.(nbDrop := st.nbDrop + 1);
          nb := 0;
          return;
        }
        st := st.(nbDup := st.nbDup + nb - own);
      }
      var dropped := nb == prev && frame.Some?;
      st := st.(lastDropped := Bit(dropped), droppedKey := st.droppedKey || (dropped && frame.value.key));
    }

    /** `video_sync_process`. */
    method VideoSyncProcess(frame: Option<Frame>) returns (nb: int, prev: int)
      modifies this
      ensures st == Synced(cfg, old(st), frame).0
      ensures nb == Synced(cfg, old(st), frame).1.nb && prev == Synced(cfg, old(st), frame).1.prev
    {
      if frame.None? {
        nb := Median3(st.hist.0, st.hist.1, st.hist.2);
        prev := nb;
        if nb == 0 && st.lastDropped > 0 {
          st := st.(nbDrop := st.nbDrop + 1, lastDropped := st.lastDropped + 1);
        }
      } else {
        nb, prev := RateFrame(frame.value);
      }
      nb := Book(frame, nb, prev);
    }

    /** The constant-rate case of `video_sync_process`, shared by two methods there. */
    method CfrCounts(delta0: real, delta: real) returns (nb: int, prev: int)
      ensures var r := CfrRate(cfg, st.frameNumber, st.nextPts, delta0, delta); nb == r.nb && prev == r.prev
    {
      nb, prev := 1, 0;
      if cfg.dropThreshold != 0.0 && delta < cfg.dropThreshold && st.frameNumber > 0 {
        nb := 0;
      } else if delta < -1.1 {
        nb := 0;
      } else if delta > 1.1 {
        nb := Rint(delta);
        if delta0 > 1.1 {
          prev := Rint(delta0 - 0.6);
        }
      }
    }

    /** `fg_output_frame` for video. The consumer takes `accept` frames and refuses the next;
        `gotFrame` says whether the filtergraph has sent any frame before. */
    method FgOutputFrame(frame: Option<Frame>, gotFrame: bool, accept: nat) returns (out: seq<Output>)
      modifies this
      ensures (st, out) == Processed(cfg, old(st), frame, gotFrame, accept)
    {
      var nb, prev := if frame.Some? then 1 else 0, 0;
      if frame.Some? || gotFrame {
        nb, prev := VideoSyncProcess(frame);
      }
      var key;
      out, key := SendAll(frame, nb, prev, accept);
      if frame.Some? && |out| == (if nb < 0 then 0 else nb) {
        st := st.(last := Some(frame.value.(key := key)));
      }
    }

    /** The loop of `fg_output_frame`; `key` is the mark that the frame itself is left with. */
    method SendAll(frame: Option<Frame>, nb: int, prev: int, accept: nat) returns (out: seq<Output>, key: bool)
      requires if frame.Some? then prev >= 0 else nb <= prev
      modifies this
      ensures var r := Rate(nb, prev, old(st).nextPts);
        var n := SendCount(old(st), frame, r, accept);
        out == Outputs(old(st), frame, r, n) && st == Sent(old(st), n, Wanted(old(st), frame, r))
      ensures frame.Some? ==> key == (frame.value.key && |out| <= prev)
    {
      ghost var mid, r := st, Rate(nb, prev, st.nextPts);
      ghost var total := SendCount(mid, frame, r, accept);
      key := frame.Some? && frame.value.key;
      out := [];
      var i := 0;
      while i < nb
        invariant 0 <= i && (nb >= 0 ==> i <= nb) && |out| == i <= total && (nb < 0 ==> i == 0)
        invariant out == Outputs(mid, frame, r, i)
        invariant st == Sent(mid, i, i)
        invariant frame.Some? ==> key == (frame.value.key && i <= prev)
      {
        var usePrev := i < prev && st.last.Some?;
        if !usePrev && frame.None? {
          break;
        }
        var outKey := (if usePrev then st.last.value.key else key) || st.droppedKey;
        st := st.(droppedKey := false);
        if i == accept {
          return;
        }
        out := out + [Output(st.nextPts, outKey, usePrev)];
        st := st.(frameNumber := st.frameNumber + 1, nextPts := st.nextPts + 1);
        if i == prev {
          key := false;
        }
        i := i + 1;
      }
    }
  }

  /** `fg_output_frame` for video: the new state and the frames sent. */
  function Processed(cfg: Config, st: Fps, frame: Option<Frame>, gotFrame: bool, accept: nat): (Fps, seq<Output>) {
    var (mid, r) :=
      if frame.Some? || gotFrame then Synced(cfg, st, frame) else (st, Rate(0, 0, st.nextPts));
    var n := SendCount(mid, frame, r, accept);
    var after := Sent(mid, n, Wanted(mid, frame, r));
    var done := if frame.Some? && n == (if r.nb < 0 then 0 else r.nb)
                then after.(last := Some(frame.value.(key := frame.value.key && n <= r.prev))) else after;
    (done, Outputs(mid, frame, r, n))
  }
}

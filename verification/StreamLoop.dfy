/** Playing an input several times over: how `ts_fixup` shifts the timestamps of each pass and
    `seek_to_start` measures the pass just ended. All timestamps are in one time base. */
module StreamLoop {
  import opened Timestamps

  /** A packet as read, its start offset and scale already applied. */
  datatype Packet = Packet(pts: int, dts: int, duration: int)

  /** Known or not, a 64-bit timestamp, and no negative duration. */
  predicate Sane(file: seq<Packet>) {
    forall p | p in file :: AV_NOPTS_VALUE <= p.pts && AV_NOPTS_VALUE <= p.dts && 0 <= p.duration
  }

  predicate HasPts(file: seq<Packet>) {
    exists p :: p in file && p.pts != AV_NOPTS_VALUE
  }

  function Later(ts: int, offset: int): int {
    if ts == AV_NOPTS_VALUE then ts else ts + offset
  }

  function Shifted(file: seq<Packet>, offset: int): seq<Packet> {
    seq(|file|, i requires 0 <= i < |file| =>
      file[i].(pts := Later(file[i].pts, offset), dts := Later(file[i].dts, offset)))
  }

  // ----- the extent of one pass

  function Raised(a: int, b: int): int {
    if a == AV_NOPTS_VALUE || a < b then b else a
  }

  function Lowered(a: int, b: int): int {
    if a == AV_NOPTS_VALUE || a > b then b else a
  }

  function Larger(a: int, b: int): int {
    if b == AV_NOPTS_VALUE then a else Raised(a, b)
  }

  function Smaller(a: int, b: int): int {
    if b == AV_NOPTS_VALUE then a else Lowered(a, b)
  }

  /** Where a packet ends: with an audio decoder, packet durations do not count. */
  function End(audio: bool, p: Packet): int {
    Later(p.pts, if audio then 0 else p.duration)
  }

  function Lo(file: seq<Packet>): int {
    if file == [] then AV_NOPTS_VALUE else Smaller(file[0].pts, Lo(file[1..]))
  }

  function Hi(audio: bool, file: seq<Packet>): int {
    if file == [] then AV_NOPTS_VALUE else Larger(End(audio, file[0]), Hi(audio, file[1..]))
  }

  /** `Lo` and `Hi` are the least start and the greatest end. */
  lemma {:induction false} Extent(audio: bool, file: seq<Packet>)
    requires Sane(file)
    ensures HasPts(file) <==> Lo(file) != AV_NOPTS_VALUE
    ensures HasPts(file) <==> Hi(audio, file) != AV_NOPTS_VALUE
    ensures AV_NOPTS_VALUE <= Lo(file) <= Hi(audio, file)
    ensures forall p | p in file && p.pts != AV_NOPTS_VALUE :: Lo(file) <= p.pts && End(audio, p) <= Hi(audio, file)
    ensures HasPts(file) ==> exists p :: p in file && p.pts == Lo(file)
    ensures HasPts(file) ==> exists p :: p in file && p.pts != AV_NOPTS_VALUE && End(audio, p) == Hi(audio, file)
  {
    if file != [] {
      var p, rest := file[0], file[1..];
      Extent(audio, rest);
      assert file == [p] + rest;
      assert p in file && forall q | q in rest :: q in file;
      if p.pts != AV_NOPTS_VALUE {
        assert HasPts(file);
      }
      if HasPts(rest) {
        var q :| q in rest && q.pts == Lo(rest);
        assert q in file && HasPts(file);
        var r :| r in rest && r.pts != AV_NOPTS_VALUE && End(audio, r) == Hi(audio, rest);
        assert r in file;
      }
    }
  }

  /** The greatest end, case by case: of the starts alone where there is an audio decoder, and else
      of the starts with the durations. */
  lemma HiIs(file: seq<Packet>)
    requires Sane(file) && HasPts(file)
    ensures forall p | p in file && p.pts != AV_NOPTS_VALUE ::
      p.pts <= Hi(true, file) && p.pts + p.duration <= Hi(false, file)
    ensures exists p :: p in file && p.pts != AV_NOPTS_VALUE && p.pts == Hi(true, file)
    ensures exists p :: p in file && p.pts != AV_NOPTS_VALUE && p.pts + p.duration == Hi(false, file)
  {
    Extent(true, file);
    Extent(false, file);
  }

  // ----- the demuxer's clock

  datatype Clock = Clock(duration: int, minPts: int, maxPts: int)

  const START: Clock := Clock(0, AV_NOPTS_VALUE, AV_NOPTS_VALUE)

  function Widened(audio: bool, c: Clock, p: Packet): Clock {
    if p.pts == AV_NOPTS_VALUE then c
    else
      c.(minPts := Lowered(c.minPts, p.pts + c.duration),
         maxPts := Raised(c.maxPts, p.pts + c.duration + if audio then 0 else p.duration))
  }

  function Played(audio: bool, c: Clock, file: seq<Packet>): Clock {
    if file == [] then c
    else Widened(audio, Played(audio, c, file[..|file| - 1]), file[|file| - 1])
  }

  function Rewound(c: Clock, end: int): Clock {
    var max := Larger(c.maxPts, end);
    var min := if c.minPts == AV_NOPTS_VALUE then 0 else c.minPts;
    c.(maxPts := max, duration := if max == AV_NOPTS_VALUE then c.duration else max - min)
  }

  /** The clock with which pass `|ends|` begins, given what the decoders reported after each of
      the earlier passes. */
  function Begun(audio: bool, file: seq<Packet>, ends: seq<int>): Clock
    decreases |ends|
  {
    if ends == [] then START
    else Rewound(Played(audio, Begun(audio, file, ends[..|ends| - 1]), file), ends[|ends| - 1])
  }

  class Demuxer {
    const haveAudioDec: bool
    var loop: int
    var duration: int
    var minPts: int
    var maxPts: int

    function Now(): Clock
      reads this
    {
      Clock(duration, minPts, maxPts)
    }

    constructor (audio: bool, loop: int)
      ensures haveAudioDec == audio && this.loop == loop && Now() == START
    {
      haveAudioDec, this.loop := audio, loop;
      duration, minPts, maxPts := 0, AV_NOPTS_VALUE, AV_NOPTS_VALUE;
    }

    /** The part of `ts_fixup` that belongs to looping. */
    method TsFixup(p: Packet) returns (out: Packet)
      modifies this
      ensures out == p.(pts := Later(p.pts, old(duration)), dts := Later(p.dts, old(duration)))
      ensures Now() == Widened(haveAudioDec, old(Now()), p) && loop == old(loop)
    {
      out := p;
      if out.pts != AV_NOPTS_VALUE {
        var pktDuration := if haveAudioDec then 0 else out.duration;
        out := out.(pts := out.pts + duration);
        if maxPts == AV_NOPTS_VALUE || maxPts < out.pts + pktDuration {
          maxPts := out.pts + pktDuration;
        }
        if minPts == AV_NOPTS_VALUE || minPts > out.pts {
          minPts := out.pts;
        }
      }
      if out.dts != AV_NOPTS_VALUE {
        out := out.(dts := out.dts + duration);
      }
    }

    /** `seek_to_start`, given the latest end the decoders reported. */
    method SeekToStart(end: int)
      modifies this
      ensures Now() == Rewound(old(Now()), end)
      ensures loop == if old(loop) > 0 then old(loop) - 1 else old(loop)
    {
      if end != AV_NOPTS_VALUE && (maxPts == AV_NOPTS_VALUE || maxPts < end) {
        maxPts := end;
      }
      if maxPts != AV_NOPTS_VALUE {
        var min := if minPts == AV_NOPTS_VALUE then 0 else minPts;
        duration := maxPts - min;
      }
      if loop > 0 {
        loop := loop - 1;
      }
    }

    method PlayOnce(file: seq<Packet>) returns (out: seq<Packet>)
      modifies this
      ensures out == Shifted(file, old(duration))
      ensures Now() == Played(haveAudioDec, old(Now()), file) && loop == old(loop) && duration == old(duration)
    {
      ghost var start := Now();
      out := [];
      for i := 0 to |file|
        invariant out == Shifted(file[..i], start.duration)
        invariant Now() == Played(haveAudioDec, start, file[..i]) && loop == old(loop) && duration == start.duration
      {
        assert file[..i + 1][..i] == file[..i];
        var p := TsFixup(file[i]);
        out := out + [p];
      }
      assert file[..|file|] == file;
    }

    /** The loop of `input_thread`: with `loop` at n, the input is played n + 1 times, pass k
        shifted by the clock's duration at its beginning. */
    method InputThread(file: seq<Packet>, ends: seq<int>) returns (passes: seq<seq<Packet>>)
      requires loop >= 0 && |ends| == loop && Now() == START
      modifies this
      ensures |passes| == old(loop) + 1 && passes[0] == file
      ensures forall k | 0 <= k < |passes| :: passes[k] == Shifted(file, Begun(haveAudioDec, file, ends[..k]).duration)
    {
      var pass := PlayOnce(file);
      passes := [pass];
      assert pass == file;
      while loop != 0
        invariant 0 <= loop && |passes| == |ends| - loop + 1
        invariant forall k | 0 <= k < |passes| ::
            passes[k] == Shifted(file, Begun(haveAudioDec, file, ends[..k]).duration)
        invariant Now() == Played(haveAudioDec, Begun(haveAudioDec, file, ends[..|passes| - 1]), file)
        decreases loop
      {
        ghost var k := |passes|;
        assert ends[..k][..k - 1] == ends[..k - 1];
        SeekToStart(ends[|ends| - loop]);
        assert Now() == Begun(haveAudioDec, file, ends[..k]);
        pass := PlayOnce(file);
        passes := passes + [pass];
      }
    }
  }

  /** In each pass every timestamp of a packet that is known is later by the same amount, and the
      packet is otherwise the same. */
  lemma ShiftedIs(file: seq<Packet>, offset: int, i: nat)
    requires i < |file|
    ensures |Shifted(file, offset)| == |file|
    ensures var p, q := file[i], Shifted(file, offset)[i];
      && q.duration == p.duration
      && (if p.pts == AV_NOPTS_VALUE then q.pts == AV_NOPTS_VALUE else q.pts - p.pts == offset)
      && (if p.dts == AV_NOPTS_VALUE then q.dts == AV_NOPTS_VALUE else q.dts - p.dts == offset)
    ensures Shifted(file, 0) == file
  {
  }

  // ----- the offsets

  /** A pass moves the clock's bounds by its own extent. */
  lemma {:induction false} PassWidens(audio: bool, c: Clock, file: seq<Packet>)
    requires Sane(file) && 0 <= c.duration && AV_NOPTS_VALUE <= c.minPts && AV_NOPTS_VALUE <= c.maxPts
    ensures var d := Played(audio, c, file);
      && d.duration == c.duration
      && d.minPts == Smaller(c.minPts, Later(Lo(file), c.duration))
      && d.maxPts == Larger(c.maxPts, Later(Hi(audio, file), c.duration))
  {
    if file != [] {
      var front, last := file[..|file| - 1], file[|file| - 1];
      PassWidens(audio, c, front);
      assert file == front + [last];
      Snoc(audio, front, last);
      Bounds(audio, front);
      assert last in file;
    }
  }

  lemma Bounds(audio: bool, file: seq<Packet>)
    requires Sane(file)
    ensures AV_NOPTS_VALUE <= Lo(file) <= Hi(audio, file)
    ensures Lo(file) == AV_NOPTS_VALUE <==> Hi(audio, file) == AV_NOPTS_VALUE
  {
    Extent(audio, file);
  }

  lemma {:induction false} Snoc(audio: bool, front: seq<Packet>, last: Packet)
    requires Sane(front + [last])
    ensures Sane(front)
    ensures Lo(front + [last]) == Smaller(Lo(front), last.pts)
    ensures Hi(audio, front + [last]) == Larger(Hi(audio, front), End(audio, last))
  {
    assert forall p | p in front :: p in front + [last];
    assert last in front + [last];
    if front != [] {
      assert (front + [last])[1..] == front[1..] + [last];
      assert forall p | p in front[1..] + [last] :: p in front + [last];
      Snoc(audio, front[1..], last);
      Extent(audio, front[1..]);
      assert front[0] in front + [last];
    }
  }

  /** From the second pass on, the clock is set so that the next pass starts exactly at the
      latest timestamp so far; and each pass is later than the one before by the length of the
      input, or by more if a decoder reported a later end. */
  lemma {:induction false} Offset(audio: bool, file: seq<Packet>, ends: seq<int>)
    requires Sane(file) && HasPts(file) && forall e | e in ends :: AV_NOPTS_VALUE <= e
    ensures var c := Begun(audio, file, ends);
      && 0 <= c.duration
      && (ends == [] ==> c == START)
      && (ends != [] ==>
          && c.minPts == Lo(file) && c.maxPts == Lo(file) + c.duration
          && var before := Begun(audio, file, ends[..|ends| - 1]).duration;
             c.duration == Larger(before + Hi(audio, file), ends[|ends| - 1]) - Lo(file))
    decreases |ends|
  {
    Extent(audio, file);
    if ends != [] {
      var earlier := ends[..|ends| - 1];
      assert forall e | e in earlier :: e in ends;
      Offset(audio, file, earlier);
      var c := Begun(audio, file, earlier);
      PassWidens(audio, c, file);
      assert ends[|ends| - 1] in ends;
    }
  }

  /** Without ends reported by decoders, pass n is shifted by n times the length. */
  lemma {:induction false} OffsetWithoutEnds(audio: bool, file: seq<Packet>, ends: seq<int>)
    requires Sane(file) && HasPts(file) && forall e | e in ends :: e == AV_NOPTS_VALUE
    ensures Begun(audio, file, ends).duration == |ends| * (Hi(audio, file) - Lo(file))
    decreases |ends|
  {
    Offset(audio, file, ends);
    if ends != [] {
      var earlier := ends[..|ends| - 1];
      assert forall e | e in earlier :: e in ends;
      OffsetWithoutEnds(audio, file, earlier);
      Extent(audio, file);
      Offset(audio, file, earlier);
      assert ends[|ends| - 1] in ends;
      Distribute(|earlier|, Hi(audio, file) - Lo(file));
    }
  }

  lemma Distribute(n: int, length: int)
    ensures (n + 1) * length == n * length + length
  {
  }

  /** An input without timestamps is shifted by the latest end a decoder has reported. */
  lemma {:induction false} OffsetWithoutPts(audio: bool, file: seq<Packet>, ends: seq<int>)
    requires Sane(file) && !HasPts(file)
    ensures var c := Begun(audio, file, ends);
      && c.minPts == AV_NOPTS_VALUE
      && (if forall e | e in ends :: e == AV_NOPTS_VALUE then c == START
          else c.duration == c.maxPts && c.maxPts in ends && c.maxPts != AV_NOPTS_VALUE)
      && forall e | e in ends && e != AV_NOPTS_VALUE :: e <= c.maxPts
    decreases |ends|
  {
    if ends != [] {
      var earlier, last := ends[..|ends| - 1], ends[|ends| - 1];
      OffsetWithoutPts(audio, file, earlier);
      PassWithoutPts(audio, Begun(audio, file, earlier), file);
      assert ends == earlier + [last] && last in ends && forall e | e in earlier :: e in ends;
    }
  }

  lemma {:induction false} PassWithoutPts(audio: bool, c: Clock, file: seq<Packet>)
    requires !HasPts(file)
    ensures Played(audio, c, file) == c
  {
    if file != [] {
      assert forall p | p in file[..|file| - 1] :: p in file;
      PassWithoutPts(audio, c, file[..|file| - 1]);
      assert file[|file| - 1] in file;
    }
  }

  /** What a pass and its rewinding leave in `max_pts`: no less than any end of the pass, than the
      end reported after it, and than before. */
  lemma PassRecorded(audio: bool, file: seq<Packet>, ends: seq<int>, p: Packet)
    requires Sane(file) && HasPts(file) && ends != [] && forall e | e in ends :: AV_NOPTS_VALUE <= e
    requires p in file && p.pts != AV_NOPTS_VALUE
    ensures var n := |ends| - 1;
      var c, before := Begun(audio, file, ends), Begun(audio, file, ends[..n]);
      End(audio, p) + before.duration <= c.maxPts && ends[n] <= c.maxPts && (n > 0 ==> before.maxPts <= c.maxPts)
  {
    var n := |ends| - 1;
    assert ends[n] in ends;
    ClockAfter(audio, file, ends);
    if n > 0 {
      assert forall e | e in ends[..n] :: e in ends;
      ClockAt(audio, file, ends[..n]);
    }
    InExtent(audio, file, p);
  }

  lemma ClockAt(audio: bool, file: seq<Packet>, ends: seq<int>)
    requires Sane(file) && HasPts(file) && ends != [] && forall e | e in ends :: AV_NOPTS_VALUE <= e
    ensures Begun(audio, file, ends).maxPts == Lo(file) + Begun(audio, file, ends).duration
  {
    Offset(audio, file, ends);
  }

  lemma ClockAfter(audio: bool, file: seq<Packet>, ends: seq<int>)
    requires Sane(file) && HasPts(file) && ends != [] && forall e | e in ends :: AV_NOPTS_VALUE <= e
    ensures var before := Begun(audio, file, ends[..|ends| - 1]).duration;
      0 <= before && Begun(audio, file, ends).maxPts == Larger(before + Hi(audio, file), ends[|ends| - 1])
  {
    Offset(audio, file, ends);
    StartsLate(audio, file, ends[..|ends| - 1], ends);
  }

  lemma StartsLate(audio: bool, file: seq<Packet>, front: seq<int>, ends: seq<int>)
    requires Sane(file) && HasPts(file) && front <= ends && forall e | e in ends :: AV_NOPTS_VALUE <= e
    ensures 0 <= Begun(audio, file, front).duration
  {
    assert forall e | e in front :: e in ends;
    Offset(audio, file, front);
  }

  lemma InExtent(audio: bool, file: seq<Packet>, p: Packet)
    requires Sane(file) && p in file && p.pts != AV_NOPTS_VALUE
    ensures Lo(file) <= p.pts && End(audio, p) <= Hi(audio, file) && Lo(file) <= Hi(audio, file)
  {
    Extent(audio, file);
  }

  lemma {:induction false} EarlierRecorded(audio: bool, file: seq<Packet>, ends: seq<int>, k: nat, p: Packet)
    requires Sane(file) && HasPts(file) && forall e | e in ends :: AV_NOPTS_VALUE <= e
    requires k < |ends| && p in file && p.pts != AV_NOPTS_VALUE
    ensures var c, earlier := Begun(audio, file, ends), Begun(audio, file, ends[..k]);
      End(audio, p) + earlier.duration <= c.maxPts && ends[k] <= c.maxPts
    decreases |ends|
  {
    PassRecorded(audio, file, ends, p);
    if k < |ends| - 1 {
      var front := ends[..|ends| - 1];
      assert front[..k] == ends[..k] && forall e | e in front :: e in ends;
      EarlierRecorded(audio, file, front, k, p);
    }
  }

  /** Passes do not overlap: each packet of a pass begins no earlier than where every packet of
      every earlier pass ends, and than every end a decoder has reported; and some packet of the
      pass begins exactly at the `max_pts` recorded before it. */
  lemma PassesFollow(audio: bool, file: seq<Packet>, ends: seq<int>, k: nat, p: Packet, q: Packet)
    requires Sane(file) && HasPts(file) && forall e | e in ends :: AV_NOPTS_VALUE <= e
    requires k < |ends| && p in file && q in file && p.pts != AV_NOPTS_VALUE && q.pts != AV_NOPTS_VALUE
    ensures var c, earlier := Begun(audio, file, ends), Begun(audio, file, ends[..k]);
      && End(audio, p) + earlier.duration <= c.maxPts <= q.pts + c.duration
      && ends[k] <= c.maxPts
      && exists r :: r in file && r.pts != AV_NOPTS_VALUE && r.pts + c.duration == c.maxPts
  {
    EarlierRecorded(audio, file, ends, k, p);
    Offset(audio, file, ends);
    Extent(audio, file);
  }
}
